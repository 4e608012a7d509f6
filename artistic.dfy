/**
 * The artistic processors of converter/processors/artistic.py: their parameter tables,
 * outline's white canvas with black edges and pointillism's dot loop. Canny's edge map
 * is an argument; numpy's random centres are a caller-supplied sequence; cv2.circle's
 * rasterisation of a filled disc is the predicate inDisc.
 */
module Artistic {
  import opened Wrappers
  import opened Pixels
  import opened Params

  function OutlineParameters(): (ps: seq<Param>)
    ensures ValidTable(ps) && |ps| == 2
  {
    [ IntParam("threshold1", 50, 10, 150, 10),
      IntParam("threshold2", 150, 50, 300, 10) ]
  }

  function PointillismParameters(): (ps: seq<Param>)
    ensures ValidTable(ps) && |ps| == 2
  {
    [ IntParam("point_density", 15, 5, 50, 5),
      IntParam("point_size", 8, 3, 20, 1) ]
  }

  function VintageParameters(): (ps: seq<Param>)
    ensures ValidTable(ps) && |ps| == 1
  {
    [ FloatParam("intensity", 1.0, 0.5, 1.5, 0.1) ]
  }

  // ---------------------------------------------------------------- outline

  /**
   * OutlineProcessor.process given Canny's edge map: a fresh buffer shaped like the
   * image, 255 everywhere except 0 (in every channel) where the edge map is nonzero.
   * The image itself is only read.
   */
  method Outline(image: array3<int>, edges: Gray) returns (canvas: array3<int>)
    requires IsGray(edges, image.Length0, image.Length1)
    ensures fresh(canvas)
    ensures canvas.Length0 == image.Length0 && canvas.Length1 == image.Length1 && canvas.Length2 == image.Length2
    ensures forall y, x, c :: 0 <= y < canvas.Length0 && 0 <= x < canvas.Length1 && 0 <= c < canvas.Length2 ==>
      canvas[y, x, c] == if edges[y][x] != 0 then 0 else 255
  {
    canvas := new int[image.Length0, image.Length1, image.Length2]((_, _, _) => 255);
    forall y, x, c | 0 <= y < canvas.Length0 && 0 <= x < canvas.Length1 && 0 <= c < canvas.Length2 && edges[y][x] != 0 {
      canvas[y, x, c] := 0;
    }
  }

  // ------------------------------------------------------------ pointillism

  /** A dot centre as the source draws it: x = randint(0, w), then y = randint(0, h). */
  datatype Point = Point(x: int, y: int)

  predicate InCanvas(p: Point, h: int, w: int)
  {
    0 <= p.x < w && 0 <= p.y < h
  }

  /**
   * num_points = (h * w) // point_density. Python floors the quotient, so a negative
   * density gives a count that is not positive and range() draws nothing.
   */
  function NumPoints(h: nat, w: nat, density: int): (n: nat)
    requires density != 0
    ensures density > 0 ==> n * density <= h * w < (n + 1) * density
    ensures density < 0 ==> n == 0
  {
    if density > 0 then h * w / density else 0
  }

  /**
   * The index of the last of the first n dots whose disc covers pixel (x, y), if any:
   * later dots overwrite earlier ones.
   */
  function LastCover(draws: seq<Point>, n: nat, radius: int, inDisc: (Point, int, int, int) -> bool,
                     x: int, y: int): (r: Option<nat>)
    requires n <= |draws|
    ensures r.Some? ==>
      r.value < n && inDisc(draws[r.value], radius, x, y) &&
      forall j :: r.value < j < n ==> !inDisc(draws[j], radius, x, y)
    ensures r.None? ==> forall j :: 0 <= j < n ==> !inDisc(draws[j], radius, x, y)
    decreases n
  {
    if n == 0 then None
    else if inDisc(draws[n - 1], radius, x, y) then Some(n - 1)
    else LastCover(draws, n - 1, radius, inDisc, x, y)
  }

  /**
   * The sample in channel c at pixel (x, y) after the first n dots: the source colour at
   * the centre of the last dot covering it, or white if no dot covers it.
   */
  ghost function DotSample(image: array3<int>, draws: seq<Point>, n: nat, radius: int,
                           inDisc: (Point, int, int, int) -> bool, x: int, y: int, c: int): (r: int)
    reads image
    requires n <= |draws| && 0 <= c < image.Length2
    requires forall i :: 0 <= i < n ==> InCanvas(draws[i], image.Length0, image.Length1)
    ensures n == 0 ==> r == 255
    ensures 0 < n && inDisc(draws[n - 1], radius, x, y) ==>
      InCanvas(draws[n - 1], image.Length0, image.Length1) && r == image[draws[n - 1].y, draws[n - 1].x, c]
  {
    match LastCover(draws, n, radius, inDisc, x, y)
    case None => 255
    case Some(i) =>
      assert i < n && InCanvas(draws[i], image.Length0, image.Length1);
      image[draws[i].y, draws[i].x, c]
  }

  /**
   * Each pixel is white when none of the first n dots covers it, and otherwise holds the
   * source colour at the centre of the last dot that covers it.
   */
  lemma DotSampleIsLastCoveringDot(image: array3<int>, draws: seq<Point>, n: nat, radius: int,
                                   inDisc: (Point, int, int, int) -> bool, x: int, y: int, c: int)
    requires n <= |draws| && 0 <= c < image.Length2
    requires forall i :: 0 <= i < n ==> InCanvas(draws[i], image.Length0, image.Length1)
    ensures (forall j :: 0 <= j < n ==> !inDisc(draws[j], radius, x, y)) ==>
      DotSample(image, draws, n, radius, inDisc, x, y, c) == 255
    ensures forall j :: (0 <= j < n && inDisc(draws[j], radius, x, y) &&
                         forall k :: j < k < n ==> !inDisc(draws[k], radius, x, y)) ==>
        InCanvas(draws[j], image.Length0, image.Length1) &&
        DotSample(image, draws, n, radius, inDisc, x, y, c) == image[draws[j].y, draws[j].x, c]
  {
    var last := LastCover(draws, n, radius, inDisc, x, y);
    forall j | 0 <= j < n && inDisc(draws[j], radius, x, y) && (forall k :: j < k < n ==> !inDisc(draws[k], radius, x, y))
      ensures last == Some(j)
    {
    }
  }

  /** A dot that does not cover a pixel leaves that pixel as it was. */
  lemma DotSampleUncovered(image: array3<int>, draws: seq<Point>, n: nat, radius: int,
                           inDisc: (Point, int, int, int) -> bool, x: int, y: int, c: int)
    requires n < |draws| && 0 <= c < image.Length2
    requires forall i :: 0 <= i <= n ==> InCanvas(draws[i], image.Length0, image.Length1)
    requires !inDisc(draws[n], radius, x, y)
    ensures DotSample(image, draws, n + 1, radius, inDisc, x, y, c) == DotSample(image, draws, n, radius, inDisc, x, y, c)
  {
    assert LastCover(draws, n + 1, radius, inDisc, x, y) == LastCover(draws, n, radius, inDisc, x, y);
  }

  /**
   * PointillismProcessor.process with the random centres given as draws: a fresh white
   * h x w x 3 canvas on which exactly NumPoints(h, w, point_density) discs are painted in
   * turn, each in the source colour at its centre. The image itself is only read.
   */
  method Pointillism(image: array3<int>, pointDensity: int, pointSize: int, draws: seq<Point>,
                     inDisc: (Point, int, int, int) -> bool)
    returns (canvas: array3<int>)
    requires image.Length2 == 3 && pointDensity != 0 && pointSize >= 0
    requires |draws| >= NumPoints(image.Length0, image.Length1, pointDensity)
    requires forall i :: 0 <= i < NumPoints(image.Length0, image.Length1, pointDensity) ==>
      InCanvas(draws[i], image.Length0, image.Length1)
    ensures fresh(canvas)
    ensures canvas.Length0 == image.Length0 && canvas.Length1 == image.Length1 && canvas.Length2 == 3
    ensures forall y, x, c :: 0 <= y < canvas.Length0 && 0 <= x < canvas.Length1 && 0 <= c < 3 ==>
      canvas[y, x, c] ==
        DotSample(image, draws, NumPoints(image.Length0, image.Length1, pointDensity), pointSize, inDisc, x, y, c)
  {
    var h, w := image.Length0, image.Length1;
    canvas := new int[h, w, 3]((_, _, _) => 255);
    var numPoints := NumPoints(h, w, pointDensity);
    for i := 0 to numPoints
      invariant forall y, x, c :: 0 <= y < h && 0 <= x < w && 0 <= c < 3 ==>
        canvas[y, x, c] == DotSample(image, draws, i, pointSize, inDisc, x, y, c)
    {
      var p := draws[i];
      var colour := [image[p.y, p.x, 0], image[p.y, p.x, 1], image[p.y, p.x, 2]];
      forall y, x, c | 0 <= y < h && 0 <= x < w && 0 <= c < 3 && inDisc(p, pointSize, x, y) {
        canvas[y, x, c] := colour[c];
      }
      forall y, x, c | 0 <= y < h && 0 <= x < w && 0 <= c < 3 && !inDisc(p, pointSize, x, y)
        ensures DotSample(image, draws, i + 1, pointSize, inDisc, x, y, c) == DotSample(image, draws, i, pointSize, inDisc, x, y, c)
      {
        DotSampleUncovered(image, draws, i, pointSize, inDisc, x, y, c);
      }
    }
  }
}
