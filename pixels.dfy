/**
 * Samples and buffers shared by every processor: numpy uint8 samples, single-channel
 * (gray) grids, three-channel (BGR or HSV) images, and the integer helpers the
 * processors apply to them (bitwise_not, bitwise_and, GRAY2BGR replication, the
 * square dilation kernel and the dilation guard).
 */
module Pixels {

  /** A sample of an 8-bit unsigned buffer. */
  predicate IsByte(x: int) { 0 <= x < 256 }

  /** numpy uint8 arithmetic keeps the low eight bits of every result. */
  function Wrap8(x: int): (r: int)
    ensures IsByte(r)
    ensures IsByte(x) ==> r == x
    ensures (x - r) % 256 == 0
  {
    x % 256
  }

  /** numpy.clip of one sample into [lo, hi]. */
  function Clip(x: int, lo: int, hi: int): (r: int)
    requires lo <= hi
    ensures lo <= r <= hi
    ensures lo <= x <= hi ==> r == x
    ensures x < lo ==> r == lo
    ensures hi < x ==> r == hi
  {
    if x < lo then lo else if hi < x then hi else x
  }

  /** A single-channel image, row by row. */
  type Gray = seq<seq<int>>

  /** A three-channel image: rows of pixels, each pixel a sequence of three samples. */
  type Color = seq<seq<seq<int>>>

  /** The number of columns of a row-major grid (0 for a grid without rows). */
  function Width<T>(rows: seq<seq<T>>): nat
  {
    if |rows| == 0 then 0 else |rows[0]|
  }

  /** g is an h x w grid of bytes. */
  predicate IsGray(g: Gray, h: nat, w: nat)
  {
    |g| == h &&
    forall y :: 0 <= y < h ==> |g[y]| == w && forall x :: 0 <= x < w ==> IsByte(g[y][x])
  }

  /** img is an h x w grid of three-byte pixels. */
  predicate IsColor(img: Color, h: nat, w: nat)
  {
    |img| == h &&
    forall y :: 0 <= y < h ==>
      |img[y]| == w &&
      forall x :: 0 <= x < w ==>
        |img[y][x]| == 3 && forall c :: 0 <= c < 3 ==> IsByte(img[y][x][c])
  }

  /** Every sample is 0 or 255, as in the output of Canny or of a binary threshold. */
  predicate IsBinary(g: Gray)
  {
    forall y, x :: 0 <= y < |g| && 0 <= x < |g[y]| ==> g[y][x] == 0 || g[y][x] == 255
  }

  /** cv2.bitwise_not on a uint8 grid. */
  function Invert(g: Gray): (r: Gray)
    ensures |r| == |g|
    ensures forall y :: 0 <= y < |g| ==>
      |r[y]| == |g[y]| && forall x :: 0 <= x < |g[y]| ==> r[y][x] + g[y][x] == 255
  {
    seq(|g|, y requires 0 <= y < |g| =>
      seq(|g[y]|, x requires 0 <= x < |g[y]| => 255 - g[y][x]))
  }

  /** Inverting twice gives back the grid: bitwise_not is an involution. */
  lemma InvertInvolution(g: Gray)
    ensures Invert(Invert(g)) == g
  {
    var twice := Invert(Invert(g));
    assert |twice| == |g|;
    forall y | 0 <= y < |g|
      ensures twice[y] == g[y]
    {
      assert |twice[y]| == |g[y]|;
      forall x | 0 <= x < |g[y]|
        ensures twice[y][x] == g[y][x]
      {
        assert twice[y][x] == 255 - (255 - g[y][x]);
      }
    }
  }

  /** Inversion keeps the shape, keeps samples in byte range and swaps black and white. */
  lemma InvertKeepsBytes(g: Gray, h: nat, w: nat)
    requires IsGray(g, h, w)
    ensures IsGray(Invert(g), h, w)
    ensures forall y, x :: 0 <= y < h && 0 <= x < w ==>
      (g[y][x] == 0 <==> Invert(g)[y][x] == 255) && (g[y][x] == 255 <==> Invert(g)[y][x] == 0)
    ensures IsBinary(g) ==> IsBinary(Invert(g))
  {
  }

  /** cv2.cvtColor(gray, COLOR_GRAY2BGR): every channel takes the gray sample. */
  function ToBgr(g: Gray): (r: Color)
    ensures |r| == |g|
    ensures forall y :: 0 <= y < |g| ==>
      |r[y]| == |g[y]| &&
      forall x :: 0 <= x < |g[y]| ==> |r[y][x]| == 3 && forall c :: 0 <= c < 3 ==> r[y][x][c] == g[y][x]
  {
    seq(|g|, y requires 0 <= y < |g| =>
      seq(|g[y]|, x requires 0 <= x < |g[y]| => [g[y][x], g[y][x], g[y][x]]))
  }

  /** GRAY2BGR keeps height and width, and the three channels of every pixel are equal. */
  lemma ToBgrReplicates(g: Gray, h: nat, w: nat)
    requires IsGray(g, h, w)
    ensures IsColor(ToBgr(g), h, w)
    ensures forall y, x, c :: 0 <= y < h && 0 <= x < w && 0 <= c < 3 ==> ToBgr(g)[y][x][c] == g[y][x]
  {
  }

  /** Bitwise AND of two naturals, one bit at a time from the lowest. */
  function BitAnd(a: nat, b: nat): (r: nat)
    ensures r <= a && r <= b
    decreases a
  {
    if a == 0 || b == 0 then 0
    else 2 * BitAnd(a / 2, b / 2) + (a % 2) * (b % 2)
  }

  function Pow2(n: nat): (p: nat)
    ensures p >= 1
  {
    if n == 0 then 1 else 2 * Pow2(n - 1)
  }

  /** AND with a mask of n one-bits keeps every n-bit number. */
  lemma {:induction false} BitAndAllOnes(a: nat, n: nat)
    requires a < Pow2(n)
    ensures BitAnd(a, Pow2(n) - 1) == a
  {
    if a != 0 {
      assert n > 0;
      var m := Pow2(n) - 1;
      assert m / 2 == Pow2(n - 1) - 1 && m % 2 == 1;
      BitAndAllOnes(a / 2, n - 1);
    }
  }

  /** For bytes: AND with 0 clears, AND with 255 keeps, and the result is a byte. */
  lemma BitAndByte(a: nat)
    requires IsByte(a)
    ensures BitAnd(a, 0) == 0
    ensures BitAnd(a, 255) == a
  {
    BitAndAllOnes(a, 8);
  }

  /** The square structuring element np.ones((side, side), np.uint8). */
  function OnesKernel(side: nat): (kernel: Gray)
    ensures IsGray(kernel, side, side)
    ensures forall y, x :: 0 <= y < side && 0 <= x < side ==> kernel[y][x] == 1
  {
    seq(side, _ => seq(side, _ => 1))
  }

  /**
   * The guarded thickening the processors share: cv2.dilate(edges, ones((side, side)))
   * when side exceeds floor, the edge map itself otherwise.
   */
  function DilateAbove(edges: Gray, side: int, floor: nat, dilate: (Gray, Gray) -> Gray): (r: Gray)
    ensures side > floor ==> r == dilate(edges, OnesKernel(side))
    ensures side <= floor ==> r == edges
  {
    if side > floor then dilate(edges, OnesKernel(side)) else edges
  }
}
