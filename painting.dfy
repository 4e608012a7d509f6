/**
 * The painting processors of converter/processors/painting.py: their parameter tables,
 * cartoon's AND composition, oil painting's blur loop, mosaic's resize sizes and cel
 * shading's quantisation, brightness floor and edge blackout. OpenCV calls (bilateral
 * filter, adaptive threshold, dilate, median blur, resize, colour conversion) are
 * parameters or argument values.
 */
module Painting {
  import opened Wrappers
  import opened Pixels
  import opened Params

  function CartoonParameters(): (ps: seq<Param>)
    ensures ValidTable(ps) && |ps| == 3
  {
    [ IntParam("color_levels", 9, 3, 20, 1),
      IntParam("edge_thickness", 9, 3, 15, 2),
      IntParam("line_thickness", 1, 1, 5, 1) ]
  }

  function OilPaintingParameters(): (ps: seq<Param>)
    ensures ValidTable(ps) && |ps| == 2
  {
    [ IntParam("blur_iterations", 2, 1, 5, 1),
      IntParam("blur_size", 7, 3, 15, 2) ]
  }

  function WatercolorParameters(): (ps: seq<Param>)
    ensures ValidTable(ps) && |ps| == 2
  {
    [ IntParam("sigma_s", 60, 20, 200, 10),
      FloatParam("sigma_r", 0.6, 0.1, 1.0, 0.1) ]
  }

  function MosaicParameters(): (ps: seq<Param>)
    ensures ValidTable(ps) && |ps| == 1
  {
    [ IntParam("tile_size", 10, 5, 50, 5) ]
  }

  function CelShadingParameters(): (ps: seq<Param>)
    ensures ValidTable(ps) && |ps| == 3
  {
    [ IntParam("levels", 8, 3, 20, 1),
      BoolParam("with_edges", true),
      IntParam("line_thickness", 1, 1, 5, 1) ]
  }

  // ---------------------------------------------------------------- cartoon

  /**
   * The adaptive-threshold edge map cartoon and cel shading use: dilated with a
   * line_thickness x line_thickness kernel only when line_thickness > 1.
   */
  function ThickEdges(edges: Gray, lineThickness: int, dilate: (Gray, Gray) -> Gray): (r: Gray)
    ensures lineThickness > 1 ==> r == dilate(edges, OnesKernel(lineThickness))
    ensures lineThickness <= 1 ==> r == edges
  {
    DilateAbove(edges, lineThickness, 1, dilate)
  }

  /**
   * Cartoon and cel shading both advertise line_thickness 1 as the default, the value the
   * request handler runs them with, and at that value the edge map is not dilated.
   */
  lemma DefaultLineThicknessKeepsEdges(edges: Gray, dilate: (Gray, Gray) -> Gray)
    ensures var t := CartoonParameters()[2];
      t.name == "line_thickness" && t.default == IntValue(1) && ThickEdges(edges, t.default.i, dilate) == edges
    ensures var t := CelShadingParameters()[2];
      t.name == "line_thickness" && t.default == IntValue(1) && ThickEdges(edges, t.default.i, dilate) == edges
  {
  }

  /** cv2.bitwise_and of two three-channel images of the same size. */
  function BitwiseAnd(a: Color, b: Color): (r: Color)
    requires IsColor(a, |a|, Width(a)) && IsColor(b, |a|, Width(a))
    ensures IsColor(r, |a|, Width(a))
    ensures forall y, x, c :: 0 <= y < |a| && 0 <= x < Width(a) && 0 <= c < 3 ==>
      r[y][x][c] == BitAnd(a[y][x][c], b[y][x][c])
  {
    var h, w := |a|, Width(a);
    seq(h, y requires 0 <= y < h =>
      seq(w, x requires 0 <= x < w =>
        seq(3, c requires 0 <= c < 3 => BitAnd(a[y][x][c], b[y][x][c]))))
  }

  /**
   * CartoonProcessor.process given the bilateral-filtered colour image and the adaptive
   * threshold: cv2.bitwise_and of the colour with the edge map replicated to BGR.
   */
  function Cartoon(color: Color, edges: Gray, lineThickness: int, dilate: (Gray, Gray) -> Gray): (r: Color)
    requires IsColor(color, |color|, Width(color))
    requires IsGray(ThickEdges(edges, lineThickness, dilate), |color|, Width(color))
    ensures IsColor(r, |color|, Width(color))
    ensures var mask := ThickEdges(edges, lineThickness, dilate);
      forall y, x, c :: 0 <= y < |color| && 0 <= x < Width(color) && 0 <= c < 3 ==>
        r[y][x][c] == BitAnd(color[y][x][c], mask[y][x]) &&
        r[y][x][c] <= color[y][x][c] &&
        (mask[y][x] == 0 ==> r[y][x][c] == 0) &&
        (mask[y][x] == 255 ==> r[y][x][c] == color[y][x][c])
  {
    var edgeMap := ThickEdges(edges, lineThickness, dilate);
    ToBgrReplicates(edgeMap, |color|, Width(color));
    forall y, x, c | 0 <= y < |color| && 0 <= x < Width(color) && 0 <= c < 3
      ensures BitAnd(color[y][x][c], 0) == 0 && BitAnd(color[y][x][c], 255) == color[y][x][c]
    {
      BitAndByte(color[y][x][c]);
    }
    BitwiseAnd(color, ToBgr(edgeMap))
  }

  /** With a 0/255 edge map, every cartoon pixel is either black or the filtered colour pixel. */
  lemma CartoonBlackOrColour(color: Color, edges: Gray, lineThickness: int, dilate: (Gray, Gray) -> Gray)
    requires IsColor(color, |color|, Width(color))
    requires IsGray(ThickEdges(edges, lineThickness, dilate), |color|, Width(color))
    requires IsBinary(ThickEdges(edges, lineThickness, dilate))
    ensures var r := Cartoon(color, edges, lineThickness, dilate);
      forall y, x :: 0 <= y < |color| && 0 <= x < Width(color) ==> r[y][x] == [0, 0, 0] || r[y][x] == color[y][x]
  {
    var r := Cartoon(color, edges, lineThickness, dilate);
    var mask := ThickEdges(edges, lineThickness, dilate);
    forall y, x | 0 <= y < |color| && 0 <= x < Width(color)
      ensures r[y][x] == [0, 0, 0] || r[y][x] == color[y][x]
    {
      assert |r[y][x]| == 3 && |color[y][x]| == 3;
      assert mask[y][x] == 0 || mask[y][x] == 255;
      if mask[y][x] == 0 {
        assert r[y][x] == [0, 0, 0];
      } else {
        assert r[y][x] == color[y][x];
      }
    }
  }

  // ----------------------------------------------------------- oil painting

  /**
   * n successive median blurs of img with kernel side ksize (none when n <= 0). An image
   * the blur leaves as it is stays as it is however often it is blurred.
   */
  function MedianTimes(img: Color, median: (Color, int) -> Color, ksize: int, n: int): (r: Color)
    ensures n <= 0 ==> r == img
    ensures median(img, ksize) == img ==> r == img
    decreases n
  {
    if n <= 0 then img else median(MedianTimes(img, median, ksize, n - 1), ksize)
  }

  /** Median blurring a times and then b more times is blurring a + b times. */
  lemma {:induction false} MedianTimesAdd(img: Color, median: (Color, int) -> Color, ksize: int, a: nat, b: nat)
    ensures MedianTimes(MedianTimes(img, median, ksize, a), median, ksize, b) == MedianTimes(img, median, ksize, a + b)
  {
    if b > 0 {
      MedianTimesAdd(img, median, ksize, a, b - 1);
    }
  }

  /**
   * OilPaintingProcessor.process: copy the image, median-blur it blur_iterations times,
   * then one bilateral pass with diameter 9 and sigmas 75. The input is a value and is
   * never changed.
   */
  method OilPainting(image: Color, blurIterations: int, blurSize: int,
                     median: (Color, int) -> Color, bilateral: (Color, int, int, int) -> Color)
    returns (result: Color)
    ensures result == bilateral(MedianTimes(image, median, blurSize, blurIterations), 9, 75, 75)
  {
    result := image;
    var i := 0;
    while i < blurIterations
      invariant 0 <= i && (i <= blurIterations || i == 0)
      invariant result == MedianTimes(image, median, blurSize, i)
    {
      result := median(result, blurSize);
      i := i + 1;
    }
    result := bilateral(result, 9, 75, 75);
  }

  // ----------------------------------------------------------------- mosaic

  /** A (width, height) pair as cv2.resize takes it. */
  datatype Size = Size(width: int, height: int)

  /**
   * How mosaic fails: Python's floor division by a zero tile raises ZeroDivisionError,
   * and cv2.resize refuses a target size with a side that is not positive.
   */
  datatype MosaicError = ZeroTileSize | EmptyResizeTarget

  /**
   * The two sizes MosaicProcessor.process hands to cv2.resize: the reduced size
   * (w // tile_size, h // tile_size) and then the original (w, h).
   */
  function MosaicSizes(width: nat, height: nat, tileSize: int): (r: Result<(Size, Size), MosaicError>)
    ensures r == Failure(ZeroTileSize) <==> tileSize == 0
    ensures r.Success? <==> 0 < tileSize <= width && tileSize <= height
    ensures r.Success? ==> r.value.1 == Size(width, height)
    ensures r.Success? ==>
      var small := r.value.0;
      small.width * tileSize <= width < (small.width + 1) * tileSize &&
      small.height * tileSize <= height < (small.height + 1) * tileSize
  {
    if tileSize == 0 then Failure(ZeroTileSize)
    else if tileSize < 0 then
      // Python floors w // tile_size; with a negative tile the quotient is never positive.
      Failure(EmptyResizeTarget)
    else
      var small := Size(width / tileSize, height / tileSize);
      if small.width == 0 || small.height == 0 then Failure(EmptyResizeTarget)
      else Success((small, Size(width, height)))
  }

  // ------------------------------------------------------------ cel shading

  const MinBrightness := 30

  /**
   * numpy's (x // width) * width + width // 2 on a uint8 sample: the centre of the
   * width-wide bucket holding x, modulo 256. numpy's integer division by zero yields 0.
   */
  function BucketCentre(x: int, width: int): (r: int)
    requires IsByte(x) && width >= 0
    ensures IsByte(r)
  {
    if width == 0 then 0 else Wrap8(x / width * width + width / 2)
  }

  /** A positive factor can be cancelled from a strict inequality between products. */
  lemma MulCancelLess(d: int, a: int, b: int)
    requires d > 0 && d * a < d * b
    ensures a < b
  {
    assert d * (b - a) == d * b - d * a;
  }

  /** The floor quotient of x by d is the q with q * d <= x < q * d + d. */
  lemma FloorDivUnique(x: int, d: int, q: int)
    requires d > 0 && q * d <= x < q * d + d
    ensures x / d == q
  {
    var p := x / d;
    assert d * p + x % d == x && 0 <= x % d < d;
    assert d * (q + 1) == q * d + d && d * (p + 1) == d * p + d && d * q == q * d;
    MulCancelLess(d, p, q + 1);
    MulCancelLess(d, q, p + 1);
  }

  /** A sample in bucket q (q * width <= x < (q + 1) * width) goes to that bucket's centre, mod 256. */
  lemma BucketCentreOfBucket(x: int, width: int, q: int)
    requires IsByte(x) && width > 0
    requires q * width <= x < q * width + width
    ensures BucketCentre(x, width) == (q * width + width / 2) % 256
  {
    FloorDivUnique(x, width, q);
  }

  /** The sum wraps: with three levels a saturation of 255 becomes (255 + 42) mod 256 = 41. */
  lemma SaturationWrapsAtThreeLevels()
    ensures BucketCentre(255, 256 / 3) == 41
  {
    BucketCentreOfBucket(255, 85, 3);
  }

  /** At the default of 8 levels no hue, saturation or value sample wraps. */
  lemma DefaultLevelsDoNotWrap(x: int)
    requires IsByte(x)
    ensures BucketCentre(x, 180 / 8) == x / 22 * 22 + 11
    ensures BucketCentre(x, 256 / 8) == x / 32 * 32 + 16
  {
  }

  /**
   * The minimum-brightness step on one value sample: samples below 30 become
   * 30 + (v * 50 mod 256) // 30, the rest stay.
   */
  function Brighten(v: int): (r: int)
    requires IsByte(v)
    ensures IsByte(r) && r >= MinBrightness
    ensures v >= MinBrightness ==> r == v
    ensures v < MinBrightness ==> r <= MinBrightness + 8
  {
    if v < MinBrightness then MinBrightness + Wrap8(v * 50) / MinBrightness else v
  }

  /** v * 50 wraps: the darkest default-level bucket centre 16 becomes 31, not 30 + 800 // 30 = 56. */
  lemma BrightenWrapsAtSixteen()
    ensures Brighten(16) == 31
  {
  }

  /** The quantised (H, S, V) triple of one pixel, after the brightness floor and the clip. */
  function CelHsv(h: int, s: int, v: int, levels: int): (r: (int, int, int))
    requires IsByte(h) && IsByte(s) && IsByte(v) && levels >= 1
    ensures IsByte(r.0) && IsByte(r.1) && IsByte(r.2)
    ensures r.2 >= MinBrightness
    ensures r.0 == BucketCentre(h, 180 / levels) && r.1 == BucketCentre(s, 256 / levels)
    ensures BucketCentre(v, 256 / levels) >= MinBrightness ==> r.2 == BucketCentre(v, 256 / levels)
  {
    (BucketCentre(h, 180 / levels), BucketCentre(s, 256 / levels),
     Clip(Brighten(BucketCentre(v, 256 / levels)), 0, 255))
  }

  /** One pixel's three samples. */
  type Triple = (int, int, int)

  predicate AllBytes(a: array3<int>)
    reads a
  {
    forall y, x, c :: 0 <= y < a.Length0 && 0 <= x < a.Length1 && 0 <= c < a.Length2 ==> IsByte(a[y, x, c])
  }

  function PixelAt(a: array3<int>, y: int, x: int): (int, int, int)
    reads a
    requires 0 <= y < a.Length0 && 0 <= x < a.Length1 && a.Length2 == 3
  {
    (a[y, x, 0], a[y, x, 1], a[y, x, 2])
  }

  function Channel(p: (int, int, int), c: int): int
  {
    if c == 0 then p.0 else if c == 1 then p.1 else p.2
  }

  /** hsv[:, :, c] = (hsv[:, :, c] // width) * width + width // 2, in place. */
  method QuantizeSlice(hsv: array3<int>, c: int, width: int)
    requires 0 <= c < hsv.Length2 && width >= 0 && AllBytes(hsv)
    modifies hsv
    ensures AllBytes(hsv)
    ensures forall y, x, k :: 0 <= y < hsv.Length0 && 0 <= x < hsv.Length1 && 0 <= k < hsv.Length2 ==>
      hsv[y, x, k] == if k == c then BucketCentre(old(hsv[y, x, k]), width) else old(hsv[y, x, k])
  {
    forall y, x | 0 <= y < hsv.Length0 && 0 <= x < hsv.Length1 {
      hsv[y, x, c] := BucketCentre(hsv[y, x, c], width);
    }
  }

  /**
   * The value steps: quantise the V slice into a fresh plane, raise the samples below
   * the minimum brightness, clip the plane and write it back into hsv[:, :, 2].
   */
  method BrightenValue(hsv: array3<int>, width: int)
    requires hsv.Length2 == 3 && width >= 0 && AllBytes(hsv)
    modifies hsv
    ensures AllBytes(hsv)
    ensures forall y, x, k :: 0 <= y < hsv.Length0 && 0 <= x < hsv.Length1 && 0 <= k < 3 ==>
      hsv[y, x, k] == if k == 2 then Clip(Brighten(BucketCentre(old(hsv[y, x, k]), width)), 0, 255)
                      else old(hsv[y, x, k])
  {
    var rows, cols := hsv.Length0, hsv.Length1;
    var v := new int[rows, cols];
    forall y, x | 0 <= y < rows && 0 <= x < cols {
      v[y, x] := BucketCentre(hsv[y, x, 2], width);
    }
    forall y, x | 0 <= y < rows && 0 <= x < cols && v[y, x] < MinBrightness {
      v[y, x] := MinBrightness + Wrap8(v[y, x] * 50) / MinBrightness;
    }
    assert forall y, x :: 0 <= y < rows && 0 <= x < cols ==>
      v[y, x] == Brighten(BucketCentre(old(hsv[y, x, 2]), width));
    forall y, x | 0 <= y < rows && 0 <= x < cols {
      hsv[y, x, 2] := Clip(v[y, x], 0, 255);
    }
  }

  /**
   * The in-place HSV steps of CelShadingProcessor.process: quantise the H and S slices,
   * then the value steps.
   */
  method QuantizeHsv(hsv: array3<int>, levels: int)
    requires levels >= 1 && hsv.Length2 == 3 && AllBytes(hsv)
    modifies hsv
    ensures AllBytes(hsv)
    ensures forall y, x :: 0 <= y < hsv.Length0 && 0 <= x < hsv.Length1 ==>
      PixelAt(hsv, y, x) == CelHsv(old(hsv[y, x, 0]), old(hsv[y, x, 1]), old(hsv[y, x, 2]), levels)
  {
    QuantizeSlice(hsv, 0, 180 / levels);
    QuantizeSlice(hsv, 1, 256 / levels);
    BrightenValue(hsv, 256 / levels);
  }

  /** result[edges < 128] = [0, 0, 0]: black where the edge map is dark, untouched elsewhere. */
  method BlackOutEdges(result: array3<int>, edges: Gray)
    requires IsGray(edges, result.Length0, result.Length1)
    modifies result
    ensures forall y, x, c :: 0 <= y < result.Length0 && 0 <= x < result.Length1 && 0 <= c < result.Length2 ==>
      result[y, x, c] == if edges[y][x] < 128 then 0 else old(result[y, x, c])
  {
    forall y, x, c | 0 <= y < result.Length0 && 0 <= x < result.Length1 && 0 <= c < result.Length2 && edges[y][x] < 128 {
      result[y, x, c] := 0;
    }
  }

  /**
   * CelShadingProcessor.process given the BGR2HSV conversion of the image (which it
   * overwrites with the quantised pixels, as the source does), the per-pixel HSV2BGR conversion and the adaptive
   * threshold of the blurred gray image.
   */
  method CelShading(hsv: array3<int>, hsvToBgr: Triple -> Triple, edges: Gray,
                    dilate: (Gray, Gray) -> Gray, levels: int, withEdges: bool, lineThickness: int)
    returns (result: array3<int>)
    requires levels >= 1 && hsv.Length2 == 3 && AllBytes(hsv)
    requires withEdges ==> IsGray(ThickEdges(edges, lineThickness, dilate), hsv.Length0, hsv.Length1)
    modifies hsv
    ensures AllBytes(hsv)
    ensures forall y, x :: 0 <= y < hsv.Length0 && 0 <= x < hsv.Length1 ==>
      PixelAt(hsv, y, x) == CelHsv(old(hsv[y, x, 0]), old(hsv[y, x, 1]), old(hsv[y, x, 2]), levels)
    ensures fresh(result)
    ensures result.Length0 == hsv.Length0 && result.Length1 == hsv.Length1 && result.Length2 == 3
    ensures forall y, x, c :: 0 <= y < result.Length0 && 0 <= x < result.Length1 && 0 <= c < 3 ==>
      result[y, x, c] ==
        if withEdges && ThickEdges(edges, lineThickness, dilate)[y][x] < 128 then 0
        else Channel(hsvToBgr(CelHsv(old(hsv[y, x, 0]), old(hsv[y, x, 1]), old(hsv[y, x, 2]), levels)), c)
  {
    QuantizeHsv(hsv, levels);
    var rows, cols := hsv.Length0, hsv.Length1;
    result := new int[rows, cols, 3];
    forall y, x, c | 0 <= y < rows && 0 <= x < cols && 0 <= c < 3 {
      result[y, x, c] := Channel(hsvToBgr(PixelAt(hsv, y, x)), c);
    }
    if withEdges {
      BlackOutEdges(result, ThickEdges(edges, lineThickness, dilate));
    }
  }
}
