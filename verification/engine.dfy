/** `ProcessingEngine.get_frame` (source/api/cv_classes.py) in debug mode:
    the frame that would be JPEG-encoded. Capture, marker detection,
    `cv2.resize` and `cv2.putText` are collaborators passed in: the captured
    frame, the detected corner quads, a resizer and a glyph rasteriser. */
module Engine {
  import opened Results
  import opened Shapes
  import opened Raster
  import opened Placement
  import opened Compositor

  /** Shape of the face loaded by `set_face`: `face.shape == (rows, cols, channels)`. */
  datatype FaceImage = FaceImage(rows: nat, cols: nat, channels: nat)

  datatype EngineError =
    | NoFace       // `assert self.face is not None`
    | EmptyFace    // `face.shape[0] / face.shape[1]` divides by zero columns
    | EmptyResize  // `cv2.resize` rejects a target with zero width or height

  /** The resizer promises an image of exactly the requested width and height. */
  ghost predicate ResizesExactly(resize: (nat, nat) -> seq<seq<FacePx>>)
  {
    forall w: nat, h: nat :: IsGrid(resize(w, h), w, h)
  }

  /** Size of the resized face for the single detected marker. */
  function TargetSize(q: Quad, face: FaceImage): (nat, nat)
    requires face.cols > 0
  {
    FaceSize(MarkerGeometry(q).width, face.rows, face.cols)
  }

  /** Processing of one captured frame. */
  function GetFrame(frame: seq<seq<Pixel>>, markers: seq<Quad>, face: Option<FaceImage>,
                    resize: (nat, nat) -> seq<seq<FacePx>>, ink: Point -> set<Point>)
    : (res: Result<seq<seq<Pixel>>, EngineError>)
    requires Rectangular(frame)
    requires ResizesExactly(resize)
    ensures face.None? <==> res == Err(NoFace)
    ensures face.Some? && |markers| != 1 ==> res == Ok(frame)
    ensures res.Ok? ==> IsGrid(res.value, Width(frame), |frame|)
    ensures face.Some? && |markers| == 1 && face.value.cols == 0 ==> res == Err(EmptyFace)
    ensures face.Some? && |markers| == 1 && face.value.cols > 0 ==>
      var (fx, fy) := TargetSize(markers[0], face.value);
      (fx == 0 || fy == 0 ==> res == Err(EmptyResize))
    ensures res.Err? && face.Some? ==>
      |markers| == 1 && (face.value.cols == 0 || TargetSize(markers[0], face.value).0 == 0 || TargetSize(markers[0], face.value).1 == 0)
  {
    if face.None? then Err(NoFace)
    else if |markers| != 1 then Ok(frame)
    else
      var m := MarkerGeometry(markers[0]);
      if face.value.cols == 0 then Err(EmptyFace)
      else
        var (fx, fy) := TargetSize(markers[0], face.value);
        if fx == 0 || fy == 0 then Err(EmptyResize)
        else
          var img := Flip(resize(fx, fy));
          var frameX, frameY := Width(frame), |frame|;
          var roi := TargetRoi(m.center, fx, fy, frameX, frameY);
          if Oversize(roi, frameX, frameY) then
            LabelOnlyInk(frame, TextAnchor(m.center, frameX, frameY), ink);
            Ok(Label(frame, TextAnchor(m.center, frameX, frameY), ink))
          else
            OversizeExactly(m.center, fx, fy, frameX, frameY);
            Ok(Composite(frame, roi, img, face.value.channels))
  }

  /** The face is too large for the frame exactly when it is at least as
      wide or as tall as the frame; the result is then the frame with the
      warning label and no face pixel: every pixel whose mirror image the
      glyphs do not cover keeps its value. */
  lemma TooCloseShowsOnlyLabel(frame: seq<seq<Pixel>>, q: Quad, face: FaceImage,
                               resize: (nat, nat) -> seq<seq<FacePx>>, ink: Point -> set<Point>)
    requires Rectangular(frame) && ResizesExactly(resize)
    requires face.cols > 0 && TargetSize(q, face).0 > 0 && TargetSize(q, face).1 > 0
    requires TargetSize(q, face).0 >= Width(frame) || TargetSize(q, face).1 >= |frame|
    ensures var anchor := TextAnchor(MarkerGeometry(q).center, Width(frame), |frame|);
      GetFrame(frame, [q], Some(face), resize, ink) == Ok(Label(frame, anchor, ink))
    ensures var res := GetFrame(frame, [q], Some(face), resize, ink).value;
      var anchor := TextAnchor(MarkerGeometry(q).center, Width(frame), |frame|);
      forall i, j :: 0 <= i < |frame| && 0 <= j < Width(frame) && Point(Width(frame) - 1 - j, i) !in ink(anchor) ==>
        res[i][j] == frame[i][j]
  {
    var (fx, fy) := TargetSize(q, face);
    OversizeExactly(MarkerGeometry(q).center, fx, fy, Width(frame), |frame|);
    LabelOnlyInk(frame, TextAnchor(MarkerGeometry(q).center, Width(frame), |frame|), ink);
  }

  /** When the face fits, its region lies inside the frame with exactly the
      face's size, and only pixels of that region can change: transparent face
      pixels keep the frame, opaque ones show the face, a 3-channel face
      replaces the region, and any other channel count changes nothing. */
  lemma FittingFaceStaysInRegion(frame: seq<seq<Pixel>>, q: Quad, face: FaceImage,
                                 resize: (nat, nat) -> seq<seq<FacePx>>, ink: Point -> set<Point>)
    requires Rectangular(frame) && ResizesExactly(resize)
    requires face.cols > 0 && TargetSize(q, face).0 > 0 && TargetSize(q, face).1 > 0
    requires TargetSize(q, face).0 < Width(frame) && TargetSize(q, face).1 < |frame|
    ensures var (fx, fy) := TargetSize(q, face);
      var roi := TargetRoi(MarkerGeometry(q).center, fx, fy, Width(frame), |frame|);
      && RoiInside(roi, Width(frame), |frame|) && roi.x2 - roi.x1 == fx && roi.y2 - roi.y1 == fy
      && GetFrame(frame, [q], Some(face), resize, ink) == Ok(Composite(frame, roi, Flip(resize(fx, fy)), face.channels))
    ensures var (fx, fy) := TargetSize(q, face);
      var roi := TargetRoi(MarkerGeometry(q).center, fx, fy, Width(frame), |frame|);
      var res := GetFrame(frame, [q], Some(face), resize, ink).value;
      forall i, j :: 0 <= i < |frame| && 0 <= j < Width(frame) && !InRoi(roi, i, j) ==> res[i][j] == frame[i][j]
    ensures face.channels != 3 && face.channels != 4 ==> GetFrame(frame, [q], Some(face), resize, ink) == Ok(frame)
  {
    var (fx, fy) := TargetSize(q, face);
    OversizeExactly(MarkerGeometry(q).center, fx, fy, Width(frame), |frame|);
  }
}
