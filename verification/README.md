# oncrop: marker tracking and face compositing, modelled in Dafny

oncrop overlays a face image on a live video stream, at the position of a
detected fiducial marker. This project models the arithmetic and pixel logic
at the core of that pipeline, and proves properties of the model.

- **The rolling-average rectangle smoother.** This is `MyDeque` in deque.py,
  `SmoothRect` in cam_classes.py and `MyDeque` in blob_test.py. The three
  bodies are the same.
  - A smoother holds a window of `smooth_level` rectangles, pre-filled with
    `((0, 0), (0, 0))`.
  - `add` evicts the oldest rectangle and appends the new one.
  - It then returns the per-coordinate mean of the window, truncated toward
    zero (`int(x / n)`).
  - Modules: `Smoother` in smoother.dfy, with helpers in `Numeric` and `Shapes`.
- **`ProcessingEngine.get_frame` in debug mode** (source/api/cv_classes.py).
  - Marker centre and width come from the four ArUco corners.
  - The face is resized to `FACE_SCL * width` (`FACE_SCL = 4`), keeping its
    aspect ratio, then mirrored.
  - It is placed centred on the marker, and the region is clipped by shifting.
  - The oversize guard checks whether the face is too big for the frame. If it
    is, the frame is flipped, the "too close" text is drawn at a clamped
    anchor, and the frame is flipped back.
  - Otherwise the face is pasted. A 4-channel face goes through the
    `bitwise_and` / `bitwise_not` / saturating `add` alpha path. A 3-channel
    face is an opaque overwrite. Any other channel count leaves the frame
    unchanged.
  - Modules: `Placement`, `Raster`, `Compositor` and `Engine`.
- **The legacy colour-blob tracker `parse_markers`** (cam_classes.py and
  blob_test.py), with its table of three smoothers of level 10.
  - A pair of blob keypoints yields a box around their midpoint. The box is
    `SCL * d / 3` to either side and `SCL * d / 2` above and below, where
    `SCL = 2` and `d` is the distance between the blobs.
  - The box is fed to the channel's smoother.
  - Any other number of blobs redraws the smoother's last rectangle.
  - Module: `BlobPair`.

Python's run-time errors become error values of a `Result`:

| Python error | Error value | Module |
|---|---|---|
| `pop(0)` on an empty window | `EmptyWindow` | `Smoother` |
| unknown colour slot (`KeyError`) | `UnknownSlot` | `BlobPair` |
| division by a zero blob distance | `CoincidentBlobs` | `BlobPair` |
| missing face (the `assert`) | `NoFace` | `Engine` |
| face image with zero columns (the `ratio` division) | `EmptyFace` | `Engine` |
| empty resize target | `EmptyResize` | `Engine` |

Collaborators the code cannot see are parameters:

- the captured frame;
- the detected corner quadrilaterals;
- the blob keypoints and their Euclidean distance;
- a resizer promising an image of exactly the requested size;
- a glyph rasteriser: the set of pixels `cv2.putText` covers for an anchor.

The model follows the code in these details, where a reader might expect otherwise:

- `FACE_SCL` is 4.
- `add` averages over the whole window of `smooth_level` rectangles. Its docstring speaks of the previous four.
- The face height is truncated, not rounded.
- The blob box extends `SCL * d / 3` horizontally and `SCL * d / 2` vertically.
  For keypoints (100, 100) and (100, 140), it is ((73, 80), (126, 160)).

## Model

| member | source | states |
|---|---|---|
| Numeric.TruncDiv | deque.py:40 | `int(a / n)` for a positive `n` is the quotient rounded toward zero: for a non-negative `a` it is the largest multiple below or at `a`, for a negative `a` the smallest multiple at or above it |
| Numeric.TruncReal | cam_classes.py:106 | `int(x)` on a float truncates toward zero: within one unit below a non-negative value and within one unit above a negative one |
| Numeric.MeanWithin | deque.py:33-40 | the truncated mean of a non-empty list lies between its minimum and its maximum |
| Numeric.TruncRealHalf | cam_classes.py:118-119 | truncating half an integer computed in reals agrees with the integer truncating division by two |
| Numeric.Min | source/api/cv_classes.py:98 | the minimum is at most every element and is one of them |
| Numeric.Max | source/api/cv_classes.py:99 | the maximum is at least every element and is one of them |
| Smoother.Init | deque.py:16-20 | a new smoother has a window of exactly `smooth_level` zero rectangles (none for a level that is not positive) and shows the zero rectangle (the constructor is the same in cam_classes.py:26-30 and blob_test.py:26-30) |
| Smoother.Mean | deque.py:33-40 | each coordinate of the averaged rectangle is the truncated column mean and lies between that column's minimum and maximum |
| Smoother.Add | deque.py:30-41 | `add` fails exactly when the level is not positive (the window is empty); otherwise the window drops its oldest entry and gains the new one at the end, keeps its size and level, and the shown rectangle is the mean of the new window (the same `add` is at cam_classes.py:39-51 and blob_test.py:38-49) |
| Smoother.AddObservation | deque.py:33-40 | the accumulate-then-divide loop over the window computes the same result as the functional `Add` |
| Smoother.FeedWindow | deque.py:30-31 | after any number of adds the window is the last `smooth_level` entries of the old window followed by the new rectangles (FIFO); the shown rectangle is the mean of that window |
| Smoother.GetRectAfterAdds | deque.py:44-46 | `get_rect` on a fresh smoother is the zero rectangle before any add, and afterwards the mean of the last `smooth_level` entries of the zero-padded observation stream; `GetRect` is the accessor |
| Smoother.MeanOfConstant | deque.py:33-40 | averaging a window that holds one rectangle everywhere gives that rectangle back |
| Smoother.RepeatedAddConverges | deque.py:23-41 | after at least `smooth_level` adds of the same rectangle, whatever the window held before, the window is all that rectangle and it is shown exactly |
| Smoother.FirstAddDamped | deque.py:16-41 | the first add on a fresh smoother shows each coordinate divided by `smooth_level`, truncated, because of the zero pre-fill |
| Raster.Mirror | source/api/cv_classes.py:106 | a mirrored row has the same length and holds entry `n - 1 - j` at position `j` |
| Raster.Flip | source/api/cv_classes.py:106 | `cv2.flip(img, 1)` keeps the shape and moves pixel `(x, y)` to `(width - 1 - x, y)` |
| Raster.FlipInvolution | source/api/cv_classes.py:137-152 | flipping twice gives the original frame back, which is why the label sequence leaves the rest of the frame untouched |
| Raster.LabelOnlyInk | source/api/cv_classes.py:137-152 | flip, put white text, flip back: a pixel turns white exactly when its mirror image is covered by the glyphs; every other pixel keeps its value and the frame keeps its shape; `Label` is that sequence |
| Placement.MarkerGeometry | source/api/cv_classes.py:88-100 | the centre is the truncated mean of the corners; the width is non-negative, is attained by two truncated corner x values and bounds all of them; the centre lies within the truncated corners on each axis |
| Placement.MeanOfFourWithin | source/api/cv_classes.py:91-97 | the truncated mean of four corner coordinates lies between the smallest and largest of their truncations |
| Placement.FaceSize | source/api/cv_classes.py:103-105 | the face is `FACE_SCL` times the marker width wide and as tall as the largest height whose ratio to the width does not exceed the image's aspect ratio |
| Placement.Place | source/api/cv_classes.py:113-118 | the region has exactly the face's size and contains the marker centre, with the extra pixel of an odd size on the right or bottom |
| Placement.Clip | source/api/cv_classes.py:120-132 | clipping shifts the region and never shrinks it; on every axis along which the face fits the region lands inside the frame, flush against the edge it crossed (`x1 = 0` past the left or top edge, `x2 = frame_x` past the right or bottom one), and a region already inside is not moved: the least move that brings it inside |
| Placement.OversizeExactly | source/api/cv_classes.py:134-135 | the guard fires exactly when the face is at least as wide or as tall as the frame; when it does not, the region lies inside the frame with exactly the face's size; `Oversize` is the guard and `TargetRoi` the placed and clipped region |
| Placement.TextAnchor | source/api/cv_classes.py:138-148 | the text anchor is the mirrored marker x minus 150 and the marker y, each clamped into the frame bounds |
| Placement.CentredMarkerExample | source/api/cv_classes.py:88-135 | a 100-pixel marker at (320, 240) in a 640 x 480 frame with a 2:1 face gives a 400 x 200 face at [120, 520) x [140, 340); a 700-wide face trips the guard |
| Compositor.AlphaBlendCases | source/api/cv_classes.py:160-166 | the mask arithmetic keeps the frame pixel under a transparent face pixel, shows the face colour under an opaque one, and adds both with saturation at 255 under a partial one; `AlphaBlend` is that chain at one pixel |
| Compositor.Composite | source/api/cv_classes.py:157-170 | only region pixels change; a 4-channel face blends by alpha, a 3-channel face overwrites with its colour, any other channel count leaves the frame as it was (the region write itself is the helper `Paste`) |
| Engine.GetFrame | source/api/cv_classes.py:71-177 | fails with `NoFace` exactly when no face is set; any marker count other than one returns the frame unchanged; with one marker, a face with zero columns fails with `EmptyFace` (the `ratio` division) and otherwise an empty resize target fails with `EmptyResize`, and these are the only other failures; a successful result has the frame's shape |
| Engine.TooCloseShowsOnlyLabel | source/api/cv_classes.py:134-153 | when the face is too big, the result is the labelled frame: no face pixel is pasted, and only pixels whose mirror image the glyphs cover can change |
| Engine.FittingFaceStaysInRegion | source/api/cv_classes.py:154-173 | when the face fits, the clipped region lies in the frame with the face's size; the result is the composite of the mirrored resized face; nothing outside the region changes; an unknown channel count changes nothing |
| BlobPair.InitSlots | cam_classes.py:93 | three independent smoothers of level 10, each a window of ten zero rectangles showing the zero rectangle (also blob_test.py:58) |
| BlobPair.SortByY | cam_classes.py:115 | sorting the pair by y orders it, permutes it, and keeps the input order on a tie (Python's sort is stable) |
| BlobPair.ScaledHalf | cam_classes.py:118-119 | scaling a difference by half the distance and dividing by the distance halves it |
| BlobPair.HalfStep | cam_classes.py:116-119 | the direction vector is the half difference of the two points, truncated toward zero per component |
| BlobPair.PairCenter | cam_classes.py:116-120 | the centre is the second point plus the truncated half step; it lies within half a pixel of the exact midpoint and between the two points on each axis |
| BlobPair.PairBox | cam_classes.py:121-123 | each corner is `int()` of its exact value, truncated toward zero: `centre -/+ SCL * d / 3` across and `centre -/+ SCL * d / 2` along; so the corners are ordered, enclose the centre, and each lies less than a pixel from its exact value |
| BlobPair.ObserveSlot | cam_classes.py:122-125 | feeding the box to slot `i` changes only that slot, moves its window by one with the level kept, makes the slot show the truncated mean of the new window (the value `add` returns), keeps the table well formed, and draws that mean in the slot's colour |
| BlobPair.ParseMarkers | cam_classes.py:95-126 | an unknown slot fails with `UnknownSlot` (the `KeyError`) unless the pair is coincident, which fails first; a blob count other than two redraws the slot's last rectangle and changes nothing; two coincident blobs fail with a division by zero and two distinct blobs always succeed; a pair feeds its box to that slot alone, which then shows and draws the truncated mean of its new window (the same function is at blob_test.py:61-85) |
| BlobPair.VerticalPairExample | cam_classes.py:114-123 | dots at (100, 140) and (100, 100) sort upper-first, centre at (100, 120), and give the box ((73, 80), (126, 160)); `Observation` is the box a pair of keypoints yields |

## Left out

- Capture, JPEG encoding (`cv2.imencode`) and the non-debug byte return: frames are values, and the model returns the frame that would be encoded.
- ArUco detection, grayscale conversion, Gaussian blur, colour thresholding, erosion and blob detection: their outputs (corner quadrilaterals, keypoints) are inputs.
- `cv2.resize` interpolation: the resizer is a parameter that only promises the requested size.
- `cv2.putText` glyph rasterisation: the set of pixels covered at an anchor is a parameter. Font, scale and thickness are not modelled.
- `cv2.rectangle` rasterisation in `parse_markers`: the rectangle and colour to draw are returned instead of painted.
- `CamReader.get_frame` and `look_for_markers`: the capture loop that calls `parse_markers` once per colour channel is not modelled. It holds nothing beyond `ParseMarkers` applied three times.
- `ProcessingEngine.__init__`, `set_face`, `generate_markers` and `ByteCapture`: these are construction, file and directory handling.
- The web layer (Flask routes, uploads, sessions) and the JavaScript clients: out of the core.
- Numeric.TruncReal: floats are exact reals, so rounding of the float sums and quotients is not modelled. This covers `x_plus / 4`, `ratio`, `SCL * d / 3` and `direc_vec`'s `(diff * (d / 2)) / d`.
- BlobPair.ScaledHalf: `(diff * (d / 2)) / d` is treated as exactly half the difference. In floating point, an integer-valued half can come out just below it (2.9999999999999996 for 3) and then truncate one lower.
- The default `smooth_level=5` of the three smoother constructors is not modelled: every caller passes 10, and `Init` takes the level as an argument.
- BlobPair.ParseMarkers: the distance `d` is a parameter characterised by `d * d` being the squared distance; `math.sqrt` itself is not computed.
- Placement.FaceSize: the height is the exact rational `FACE_SCL * w * rows / cols`, truncated. Floating-point rounding of `ratio` is not modelled.
- Engine.GetFrame: a grayscale face (a 2-D array, where `face.shape[2]` raises `IndexError`) is not modelled. The face always has a channel count.
- Engine.GetFrame: a frame with no rows is treated as having width 0 (numpy would still report a width).
- Engine.GetFrame: only the frame-level outcome of the label path is stated. The exact glyph set depends on `putText`.
