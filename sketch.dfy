/**
 * The sketch processors of converter/processors/sketch.py: their parameter tables and
 * the integer steps of pencil sketch and ink drawing. OpenCV calls (GaussianBlur,
 * divide, Canny, dilate) are function parameters whose results the model does not open.
 */
module Sketch {
  import opened Pixels
  import opened Params

  function PencilSketchParameters(): (ps: seq<Param>)
    ensures ValidTable(ps) && |ps| == 2
  {
    [ IntParam("blur_size", 21, 5, 51, 2),
      FloatParam("scale", 256.0, 100.0, 400.0, 10.0) ]
  }

  function ColorPencilParameters(): (ps: seq<Param>)
    ensures ValidTable(ps) && |ps| == 2
  {
    [ IntParam("sigma_s", 60, 20, 200, 10),
      FloatParam("sigma_r", 0.07, 0.01, 0.2, 0.01) ]
  }

  function InkDrawingParameters(): (ps: seq<Param>)
    ensures ValidTable(ps) && |ps| == 3
  {
    [ IntParam("threshold1", 50, 10, 200, 10),
      IntParam("threshold2", 150, 50, 300, 10),
      IntParam("line_thickness", 1, 0, 5, 1) ]
  }

  function DetailedSketchParameters(): (ps: seq<Param>)
    ensures ValidTable(ps) && |ps| == 1
  {
    [ IntParam("ksize", 3, 1, 7, 2) ]
  }

  /** The Gaussian kernel side pencil sketch uses: an even request is raised by one. */
  function EffectiveBlurSize(blurSize: int): (k: int)
    ensures k % 2 == 1
    ensures blurSize <= k <= blurSize + 1
  {
    if blurSize % 2 == 0 then blurSize + 1 else blurSize
  }

  /** The divisor handed to cv2.divide: the inverse of the blurred inverse of the gray image. */
  function PencilDivisor(gray: Gray, blurSize: int, gaussianBlur: (Gray, int) -> Gray): (d: Gray)
    ensures var blurred := gaussianBlur(Invert(gray), EffectiveBlurSize(blurSize));
      forall h: nat, w: nat :: IsGray(blurred, h, w) ==>
        IsGray(d, h, w) &&
        forall y, x :: 0 <= y < h && 0 <= x < w ==> d[y][x] + blurred[y][x] == 255
  {
    Invert(gaussianBlur(Invert(gray), EffectiveBlurSize(blurSize)))
  }

  /**
   * The two inversions cancel: where the blur leaves the inverted image as it is (a flat
   * image, say), the divisor is the gray image itself.
   */
  lemma PencilDivisorCancels(gray: Gray, blurSize: int, gaussianBlur: (Gray, int) -> Gray)
    requires gaussianBlur(Invert(gray), EffectiveBlurSize(blurSize)) == Invert(gray)
    ensures PencilDivisor(gray, blurSize, gaussianBlur) == gray
  {
    InvertInvolution(gray);
  }

  /**
   * PencilSketchProcessor.process given the gray image: cv2.divide of the gray image by
   * PencilDivisor, replicated into three equal channels.
   */
  function PencilSketch(gray: Gray, blurSize: int, gaussianBlur: (Gray, int) -> Gray,
                        divide: (Gray, Gray) -> Gray): (r: Color)
    ensures var q := divide(gray, PencilDivisor(gray, blurSize, gaussianBlur));
      forall h: nat, w: nat :: IsGray(q, h, w) ==>
        IsColor(r, h, w) &&
        forall y, x, c :: 0 <= y < h && 0 <= x < w && 0 <= c < 3 ==> r[y][x][c] == q[y][x]
  {
    var sketch := divide(gray, PencilDivisor(gray, blurSize, gaussianBlur));
    ToBgr(sketch)
  }

  /** The edge map ink drawing inverts: Canny's edges, thickened only when line_thickness > 0. */
  function InkEdges(gray: Gray, threshold1: int, threshold2: int, lineThickness: int,
                    canny: (Gray, int, int) -> Gray, dilate: (Gray, Gray) -> Gray): (r: Gray)
    ensures lineThickness > 0 ==> r == dilate(canny(gray, threshold1, threshold2), OnesKernel(lineThickness))
    ensures lineThickness <= 0 ==> r == canny(gray, threshold1, threshold2)
  {
    DilateAbove(canny(gray, threshold1, threshold2), lineThickness, 0, dilate)
  }

  /**
   * InkDrawingProcessor.process given the gray image: white background, black lines.
   * Each output sample is 255 minus the edge sample under it, in all three channels.
   */
  function InkDrawing(gray: Gray, threshold1: int, threshold2: int, lineThickness: int,
                      canny: (Gray, int, int) -> Gray, dilate: (Gray, Gray) -> Gray): (r: Color)
    ensures var edges := InkEdges(gray, threshold1, threshold2, lineThickness, canny, dilate);
      forall h: nat, w: nat :: IsGray(edges, h, w) ==>
        IsColor(r, h, w) &&
        forall y, x, c :: 0 <= y < h && 0 <= x < w && 0 <= c < 3 ==> r[y][x][c] == 255 - edges[y][x]
  {
    var edges := InkEdges(gray, threshold1, threshold2, lineThickness, canny, dilate);
    ToBgr(Invert(edges))
  }

  /**
   * At the advertised default line_thickness of 1 (the value the request handler runs
   * with) the Canny map is always dilated, with a 1 x 1 kernel.
   */
  lemma InkDrawingDefaultDilates(gray: Gray, canny: (Gray, int, int) -> Gray, dilate: (Gray, Gray) -> Gray)
    ensures var t := InkDrawingParameters()[2];
      t.name == "line_thickness" && t.default == IntValue(1) &&
      InkEdges(gray, 50, 150, t.default.i, canny, dilate) == dilate(canny(gray, 50, 150), OnesKernel(1))
  {
  }

  /** With a 0/255 edge map (Canny's, dilated or not) every ink-drawing pixel is black or white. */
  lemma InkDrawingBlackOrWhite(gray: Gray, threshold1: int, threshold2: int, lineThickness: int,
                               canny: (Gray, int, int) -> Gray, dilate: (Gray, Gray) -> Gray, h: nat, w: nat)
    requires IsGray(InkEdges(gray, threshold1, threshold2, lineThickness, canny, dilate), h, w)
    requires IsBinary(InkEdges(gray, threshold1, threshold2, lineThickness, canny, dilate))
    ensures var r := InkDrawing(gray, threshold1, threshold2, lineThickness, canny, dilate);
      forall y, x :: 0 <= y < h && 0 <= x < w ==> r[y][x] == [0, 0, 0] || r[y][x] == [255, 255, 255]
  {
    var edges := InkEdges(gray, threshold1, threshold2, lineThickness, canny, dilate);
    var r := InkDrawing(gray, threshold1, threshold2, lineThickness, canny, dilate);
    forall y, x | 0 <= y < h && 0 <= x < w
      ensures r[y][x] == [0, 0, 0] || r[y][x] == [255, 255, 255]
    {
      assert |r[y][x]| == 3;
      assert edges[y][x] == 0 || edges[y][x] == 255;
      if edges[y][x] == 0 {
        assert r[y][x] == [255, 255, 255];
      } else {
        assert r[y][x] == [0, 0, 0];
      }
    }
  }
}
