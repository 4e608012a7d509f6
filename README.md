# prj-sketch-backend image converter — Dafny model

This models the processors package of the sketch backend, the part that turns an uploaded picture into a stylised one:

- **Style registry** (`Factory`): `ProcessorFactory.PROCESSORS` is the table from style names to processor classes. `get_processor` looks a name up and raises a `ValueError` that lists the registered names. `get_style_info` and `available_styles` advertise each registered style's name and parameter descriptors.
- **Parameter tables** (`Params`, and one function per processor class in `Sketch`, `Painting` and `Artistic`): each table is the list returned by `get_parameters`. Each entry has a name, a type (`int`, `float` or `bool`), a default and, for numbers, `min`, `max` and `step`.
- **Integer glue around OpenCV** inside the `process` methods:
  - pencil sketch: the odd blur size and the double inversion;
  - ink drawing: the inverted, optionally dilated edge map;
  - cartoon: the bitwise AND of the filtered colour image with the edge mask;
  - oil painting: the median-blur loop;
  - mosaic: the two resize targets;
  - cel shading: quantisation, the brightness floor and the edge blackout, all with numpy's uint8 wrap-around;
  - outline: the white canvas with black edges;
  - pointillism: the dot count, and dots painted in order, each with the colour under its centre.

OpenCV enters the model in two ways. Its calls are function parameters whose results the model does not look inside: `GaussianBlur`, `divide`, `Canny` (in ink drawing), `dilate`, `medianBlur`, `bilateralFilter`, and cel shading's per-pixel `HSV2BGR`. Results it computes up front are arguments: the filtered colour image, the adaptive-threshold map, outline's Canny map, the gray image and the `BGR2HSV` conversion.

numpy's vectorised in-place assignments are modelled as Dafny `forall` statements on `array3`/`array2`. Examples are `hsv[:, :, 0] = ...`, `result[edges < 128] = [0, 0, 0]` and `white_bg[edges != 0] = 0`. Pure per-pixel steps are functions on `seq` grids.

Samples are unbounded integers. `Wrap8` (mod 256) marks each place where numpy's uint8 arithmetic wraps.

Modules:
- `Pixels`: samples, grids, inversion, GRAY2BGR, AND, the kernel and the dilation guard.
- `Params`: parameter descriptors.
- `Sketch`, `Painting`, `Artistic`: one module per processor file.
- `Factory`: the registry.
- `Wrappers`: `Option` and `Result`.

## Model

| member | source | states |
|---|---|---|
| Pixels.Wrap8 | converter/processors/painting.py:212 | the uint8 result is a byte, equals the value when it already is one, and differs from it by a multiple of 256 |
| Pixels.Clip | converter/processors/painting.py:219 | np.clip lands in [lo, hi], keeps in-range values and sends values below/above to lo/hi |
| Pixels.Invert | converter/processors/sketch.py:38-40 | bitwise_not keeps the grid's shape, and every sample plus its inverse is 255 |
| Pixels.InvertInvolution | converter/processors/sketch.py:38-40 | bitwise_not applied twice gives back the grid |
| Pixels.InvertKeepsBytes | converter/processors/sketch.py:126 | bitwise_not keeps shape and byte range, swaps 0 and 255 exactly, and keeps a 0/255 map 0/255 |
| Pixels.ToBgr | converter/processors/sketch.py:42 | GRAY2BGR keeps the grid's shape and gives every pixel three channels, each equal to the gray sample |
| Pixels.ToBgrReplicates | converter/processors/sketch.py:42 | GRAY2BGR keeps height and width and puts the gray sample in all three channels |
| Pixels.BitAnd | converter/processors/painting.py:61 | bitwise AND never exceeds either operand |
| Pixels.BitAndAllOnes | converter/processors/painting.py:61 | AND with an all-ones mask of n bits keeps every n-bit number |
| Pixels.BitAndByte | converter/processors/painting.py:60-61 | for a byte, AND with a 0 mask gives 0 and AND with a 255 mask gives the byte |
| Pixels.OnesKernel | converter/processors/painting.py:56 | np.ones((n, n)) is an n x n grid of ones |
| Pixels.DilateAbove | converter/processors/painting.py:55-57 | the edge map is dilated with the n x n ones kernel exactly when the thickness exceeds the guard, and left as it is otherwise |
| Sketch.PencilSketchParameters | converter/processors/sketch.py:9-30 | the pencil-sketch table (blur_size, scale) is well formed: types match, min <= default <= max, step > 0, names distinct |
| Sketch.ColorPencilParameters | converter/processors/sketch.py:48-69 | the colour-pencil table (sigma_s, sigma_r) is well formed |
| Sketch.InkDrawingParameters | converter/processors/sketch.py:84-114 | the ink-drawing table (threshold1, threshold2, line_thickness) is well formed |
| Sketch.DetailedSketchParameters | converter/processors/sketch.py:133-145 | the detailed-sketch table (ksize) is well formed |
| Sketch.EffectiveBlurSize | converter/processors/sketch.py:34-35 | the Gaussian kernel side is odd, and is the request or the request plus one |
| Sketch.PencilDivisor | converter/processors/sketch.py:37-40 | the divisor has the blur's shape, and each divisor sample plus the blurred inverse sample is 255 |
| Sketch.PencilDivisorCancels | converter/processors/sketch.py:38-40 | the two inversions cancel: when the blur leaves the inverted gray image unchanged, the divisor is the gray image |
| Sketch.PencilSketch | converter/processors/sketch.py:32-42 | the output has the quotient's shape, with the quotient sample in each of three channels |
| Sketch.InkEdges | converter/processors/sketch.py:118-123 | the edge map is Canny's map dilated with the line_thickness x line_thickness ones kernel when line_thickness > 0, and Canny's map itself otherwise |
| Sketch.InkDrawing | converter/processors/sketch.py:116-127 | every output channel is 255 minus the (Canny, dilated when line_thickness > 0) edge sample, on an image of the edge map's shape |
| Sketch.InkDrawingDefaultDilates | converter/processors/sketch.py:105-123 | the advertised default line_thickness is 1, and at that value (the one the request handler runs with, converter/views.py:37) the Canny map is dilated with a 1 x 1 kernel |
| Sketch.InkDrawingBlackOrWhite | converter/processors/sketch.py:118-127 | with a 0/255 edge map every pixel is pure black or pure white |
| Painting.CartoonParameters | converter/processors/painting.py:9-39 | the cartoon table (color_levels, edge_thickness, line_thickness) is well formed |
| Painting.OilPaintingParameters | converter/processors/painting.py:69-90 | the oil-painting table (blur_iterations, blur_size) is well formed |
| Painting.WatercolorParameters | converter/processors/painting.py:104-125 | the watercolour table (sigma_s, sigma_r) is well formed |
| Painting.MosaicParameters | converter/processors/painting.py:135-147 | the mosaic table (tile_size) is well formed |
| Painting.CelShadingParameters | converter/processors/painting.py:170-197 | the cel-shading table (levels, with_edges, line_thickness) is well formed, the bool entry without bounds |
| Painting.ThickEdges | converter/processors/painting.py:55-57 | the adaptive-threshold map is dilated with the line_thickness x line_thickness ones kernel when line_thickness > 1, and left as it is otherwise (the same guard at lines 235-237) |
| Painting.DefaultLineThicknessKeepsEdges | converter/processors/painting.py:30-57 | cartoon and cel shading both advertise a default line_thickness of 1 (lines 30-38 and 188-196), and at that value, the one the request handler runs with, the edge map is not dilated |
| Painting.BitwiseAnd | converter/processors/painting.py:61 | cv2.bitwise_and keeps the images' size and ANDs each pair of samples |
| Painting.Cartoon | converter/processors/painting.py:54-63 | each channel is the AND of the filtered colour with the edge mask (dilated only when line_thickness > 1), never brighter than the colour, 0 under a 0 mask and the colour under a 255 mask |
| Painting.CartoonBlackOrColour | converter/processors/painting.py:59-61 | with a 0/255 edge map every cartoon pixel is black or exactly the filtered colour pixel |
| Painting.MedianTimes | converter/processors/painting.py:94-95 | no blur for a count <= 0 (range is empty), and an image the median blur leaves unchanged stays unchanged however many blurs follow |
| Painting.MedianTimesAdd | converter/processors/painting.py:94-95 | blurring a times and then b times is blurring a + b times |
| Painting.OilPainting | converter/processors/painting.py:92-98 | the result is the 9/75/75 bilateral filter of blur_iterations successive median blurs of the image (none when blur_iterations <= 0) |
| Painting.MosaicSizes | converter/processors/painting.py:149-164 | a zero tile fails with ZeroDivisionError; otherwise the resizes succeed exactly when 0 < tile_size <= w and tile_size <= h; the small size is the floor of (w, h) / tile_size and the final size is (w, h) |
| Painting.BucketCentre | converter/processors/painting.py:203-209 | the quantised sample is a byte (numpy's division by a zero width gives 0) |
| Painting.BucketCentreOfBucket | converter/processors/painting.py:208-209 | a sample in bucket q goes to that bucket's centre q * width + width // 2, modulo 256 |
| Painting.SaturationWrapsAtThreeLevels | converter/processors/painting.py:204-209 | with 3 levels a saturation of 255 wraps to 41 |
| Painting.DefaultLevelsDoNotWrap | converter/processors/painting.py:203-209 | at the default 8 levels hue goes to x // 22 * 22 + 11 and saturation/value to x // 32 * 32 + 16, with no wrap |
| Painting.Brighten | converter/processors/painting.py:215-217 | the value is a byte of at least 30, unchanged when already >= 30, and at most 38 when raised |
| Painting.BrightenWrapsAtSixteen | converter/processors/painting.py:216-217 | v * 50 wraps in uint8: a value of 16 becomes 31 |
| Painting.CelHsv | converter/processors/painting.py:203-219 | H and S go to their bucket centres; V is a byte >= 30 and equals its bucket centre whenever that centre is already >= 30 |
| Painting.QuantizeSlice | converter/processors/painting.py:208-209 | one channel of every pixel is replaced by its bucket centre and the other channels are unchanged |
| Painting.BrightenValue | converter/processors/painting.py:211-219 | channel 2 of every pixel becomes the clipped, brightened bucket centre and channels 0 and 1 are unchanged |
| Painting.QuantizeHsv | converter/processors/painting.py:201-219 | every HSV pixel becomes CelHsv of its old value, and samples stay bytes |
| Painting.BlackOutEdges | converter/processors/painting.py:240 | samples under an edge value below 128 become 0 and all others are unchanged |
| Painting.CelShading | converter/processors/painting.py:199-242 | a fresh image of the input's size: black where with_edges and the (conditionally dilated) threshold map is below 128, otherwise the HSV2BGR of the quantised pixel; the HSV buffer is left holding the quantised pixels, still bytes |
| Artistic.OutlineParameters | converter/processors/artistic.py:9-30 | the outline table (threshold1, threshold2) is well formed |
| Artistic.PointillismParameters | converter/processors/artistic.py:45-66 | the pointillism table (point_density, point_size) is well formed |
| Artistic.VintageParameters | converter/processors/artistic.py:91-103 | the vintage table (intensity) is well formed |
| Artistic.Outline | converter/processors/artistic.py:32-40 | a fresh buffer shaped like the image: 0 in every channel where Canny's map is nonzero and 255 elsewhere; the image is only read |
| Artistic.NumPoints | converter/processors/artistic.py:75 | the dot count is the floor of h * w / point_density, and 0 for a negative density |
| Artistic.LastCover | converter/processors/artistic.py:77-85 | finds the last of the first n dots whose disc covers a pixel, or reports that none does |
| Artistic.DotSample | converter/processors/artistic.py:77-85 | a pixel is white before any dot is drawn, and takes the centre colour of the latest dot when that dot covers it |
| Artistic.DotSampleIsLastCoveringDot | converter/processors/artistic.py:77-85 | a pixel no dot covers stays white, and a covered pixel holds the centre colour of the last dot covering it (later dots overwrite earlier ones) |
| Artistic.DotSampleUncovered | converter/processors/artistic.py:85 | drawing a dot that does not cover a pixel leaves that pixel as it was |
| Artistic.Pointillism | converter/processors/artistic.py:68-87 | a fresh white h x w x 3 canvas where each pixel holds the source colour at the centre of the last of the NumPoints dots covering it, or stays white; the image is only read |
| Factory.Parameters | converter/processors/factory.py:46 | every processor class's get_parameters table is well formed |
| Factory.Processors | converter/processors/factory.py:20-29 | the registry has eight distinct names, each class is registered at most once, and the pencil-sketch, colour-pencil, outline and vintage classes are not registered |
| Factory.Get | converter/processors/factory.py:34 | dict.get finds a class exactly when the name is a key; that class is stored under the name, and with distinct keys it is the class stored under the name |
| Factory.JoinQuotedListsItem | converter/processors/factory.py:36 | every item of a list appears, quoted, in the comma-joined repr |
| Factory.RegisteredNames | converter/processors/factory.py:20-29 | the registry's keys, in order, are ink_drawing, detailed_sketch, oil_painting, cartoon, watercolor, mosaic, cel_shading, pointillism |
| Factory.UnknownStyleMessage | converter/processors/factory.py:36 | the message starts with "Unknown style: " and the style, and every key of the listed dict appears in it, quoted |
| Factory.GetProcessor | converter/processors/factory.py:31-37 | succeeds exactly for the registered names, with the class registered under the name; any other name gets "Unknown style: <name>. Available: [<the keys in table order>]" |
| Factory.UnregisteredStylesRejected | converter/processors/factory.py:20-37 | pencil_sketch, color_pencil, outline and vintage are rejected with the unknown-style message |
| Factory.DefaultRequestStyleRejected | converter/views.py:24 | a request with no style defaults to pencil_sketch, which get_processor rejects |
| Factory.GetStyleInfo | converter/processors/factory.py:50-59 | succeeds exactly when get_processor does, with the name and that class's table; otherwise the error is "Unknown style: <name>" |
| Factory.AvailableStyles | converter/processors/factory.py:39-48 | the listing's keys are exactly the registered names, and each entry equals get_style_info of its name |

## Left out

- Image I/O is not modelled: decoding the upload, the RGB/BGR conversion, PNG encoding, base64 and the HTTP responses in converter/views.py. The request handler calls `process` with no keyword arguments, so every processor runs with its defaults.
- The OpenCV primitives are not modelled: the colour conversions, GaussianBlur, divide, Canny, dilate, medianBlur, bilateralFilter, adaptiveThreshold, resize, stylization, pencilSketch, Sobel, transform and circle rasterisation. Their results are parameters or arguments.
- Watercolour, colour-pencil, detailed-sketch and vintage `process` bodies are not modelled. Each is either one foreign call (stylization, pencilSketch) or floating-point work (the Sobel magnitude normalised by its maximum, the sepia matrix scaled by intensity). Only their parameter tables are modelled.
- Floating point is not modelled. Float parameters appear as `real` in the tables. Pencil sketch's `scale` is absorbed into the `divide` parameter.
- The descriptor `description` strings are not modelled, since they are display text only.
- Parameter validation against min/max/step is not modelled, because the source has no code that checks it.
- Factory.GetProcessor: returns the processor class, not a fresh instance. The processors hold no state, so the instance adds nothing.
- Factory.AvailableStyles: returns a map, so the dict's insertion order is not captured. Factory.GetProcessor's error message does keep the table order.
- Painting.CelHsv: requires levels >= 1. levels = 0 raises ZeroDivisionError, and negative levels make numpy mix a negative divisor into uint8 arithmetic. For levels = 1 the model gives 128 for S and V, the value NumPy 1 computes. NumPy 2 raises an OverflowError for the divisor 256 instead.
- Painting.CelShading: also requires that the threshold map has the image's size and that the HSV samples are bytes. OpenCV guarantees both.
- Artistic.NumPoints: requires a nonzero point_density; a zero density raises ZeroDivisionError.
- Artistic.Pointillism: numpy's random generator is replaced by the caller-supplied sequence `draws` of in-canvas centres, and the disc shape is the predicate `inDisc`. It requires a non-negative point_size because cv2.circle rejects a negative radius.
- base.py's abstract `process` and `to_gray` are represented only by the gray grid the processors receive.
