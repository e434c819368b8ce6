/** Integer geometry of the overlay in `ProcessingEngine.get_frame`
    (source/api/cv_classes.py): marker centre and width, the resized face
    size, the region of interest centred on the marker, clipping by
    shifting, the oversize guard and the clamped warning-text anchor. */
module Placement {
  import opened Numeric
  import opened Shapes

  /** `FACE_SCL`: the face is this many times as wide as the marker. */
  const FaceScale := 4

  /** Horizontal distance from the mirrored marker centre to the warning text. */
  const TextOffset := 150

  /** A marker corner as ArUco reports it, in sub-pixel coordinates. */
  datatype Corner = Corner(x: real, y: real)

  /** The four corners of one marker, in ArUco's own winding order. */
  datatype Quad = Quad(p0: Corner, p1: Corner, p2: Corner, p3: Corner)

  /** Four values truncated toward zero (`int(corner[0])`, as `x_h_list` holds them). */
  function Truncs(a: real, b: real, c: real, d: real): seq<int>
  {
    [TruncReal(a), TruncReal(b), TruncReal(c), TruncReal(d)]
  }

  /** The truncated corner x coordinates. */
  function CornerXs(q: Quad): seq<int>
  {
    Truncs(q.p0.x, q.p1.x, q.p2.x, q.p3.x)
  }

  /** The truncated corner y coordinates. */
  function CornerYs(q: Quad): seq<int>
  {
    Truncs(q.p0.y, q.p1.y, q.p2.y, q.p3.y)
  }

  /** Axis-aligned summary of a marker: its centre and its width. */
  datatype Marker = Marker(center: Point, width: int)

  /** Centre as the truncated mean of the corners (summed as reals, divided
      by four, then truncated), width as the spread of the truncated corner
      x coordinates; rotation and skew are ignored. The centre lies within
      the truncated corners on each axis. */
  function MarkerGeometry(q: Quad): (m: Marker)
    ensures m.center.x == TruncReal((q.p0.x + q.p1.x + q.p2.x + q.p3.x) / 4.0)
    ensures m.center.y == TruncReal((q.p0.y + q.p1.y + q.p2.y + q.p3.y) / 4.0)
    ensures m.width >= 0
    ensures var xs := CornerXs(q);
      forall i :: 0 <= i < 4 ==> Min(xs) <= xs[i] <= Min(xs) + m.width
    ensures var xs := CornerXs(q);
      exists i, j :: 0 <= i < 4 && 0 <= j < 4 && xs[j] - xs[i] == m.width
    ensures Min(CornerXs(q)) <= m.center.x <= Max(CornerXs(q))
    ensures Min(CornerYs(q)) <= m.center.y <= Max(CornerYs(q))
  {
    var xs := CornerXs(q);
    Spread(xs);
    MeanOfFourWithin(q.p0.x, q.p1.x, q.p2.x, q.p3.x);
    MeanOfFourWithin(q.p0.y, q.p1.y, q.p2.y, q.p3.y);
    Marker(Point(TruncReal((q.p0.x + q.p1.x + q.p2.x + q.p3.x) / 4.0),
                 TruncReal((q.p0.y + q.p1.y + q.p2.y + q.p3.y) / 4.0)),
           Max(xs) - Min(xs))
  }

  /** Every element lies between the minimum and the minimum plus the
      spread, and the spread is the difference of two elements. */
  lemma Spread(xs: seq<int>)
    requires |xs| > 0
    ensures Max(xs) - Min(xs) >= 0
    ensures forall i :: 0 <= i < |xs| ==> Min(xs) <= xs[i] <= Min(xs) + (Max(xs) - Min(xs))
    ensures exists i, j :: 0 <= i < |xs| && 0 <= j < |xs| && xs[j] - xs[i] == Max(xs) - Min(xs)
  {
    var i :| 0 <= i < |xs| && xs[i] == Min(xs);
    var j :| 0 <= j < |xs| && xs[j] == Max(xs);
    assert xs[j] - xs[i] == Max(xs) - Min(xs);
  }

  /** The truncated mean of four reals lies between the smallest and the
      largest of their truncations. */
  lemma MeanOfFourWithin(a: real, b: real, c: real, d: real)
    ensures var t := TruncReal((a + b + c + d) / 4.0);
      Min(Truncs(a, b, c, d)) <= t <= Max(Truncs(a, b, c, d))
  {
    var xs := [a, b, c, d];
    var mean := (a + b + c + d) / 4.0;
    var lo := if a <= mean then 0 else if b <= mean then 1 else if c <= mean then 2 else 3;
    var hi := if a >= mean then 0 else if b >= mean then 1 else if c >= mean then 2 else 3;
    var ts := Truncs(a, b, c, d);
    assert ts[lo] == TruncReal(xs[lo]) && ts[hi] == TruncReal(xs[hi]);
    TruncRealMonotone(xs[lo], mean);
    TruncRealMonotone(mean, xs[hi]);
    assert Min(ts) <= ts[lo] && ts[hi] <= Max(ts);
  }

  /** Target size of the face for a marker of width `w` and a face image of
      `rows` x `cols`: `FACE_SCL * w` wide and as tall as keeps the image's
      aspect ratio, truncated. `ratio = rows / cols` divides by the column count. */
  function FaceSize(w: nat, rows: nat, cols: nat): (s: (nat, nat))
    requires cols > 0
    ensures s.0 == FaceScale * w
    ensures s.1 * cols <= s.0 * rows < (s.1 + 1) * cols
  {
    var fx := FaceScale * w;
    assert fx * rows >= 0;
    (fx, TruncDiv(fx * rows, cols))
  }

  /** A region of interest: columns `[x1, x2)` and rows `[y1, y2)`. */
  datatype Roi = Roi(x1: int, y1: int, x2: int, y2: int)

  /** The ROI of a `fx` x `fy` face centred on `c`: half the face (rounded
      down) to the left of and above the centre, the rest to the right and below. */
  function Place(c: Point, fx: nat, fy: nat): (r: Roi)
    ensures r.x2 - r.x1 == fx && r.y2 - r.y1 == fy
    ensures r.x1 <= c.x <= r.x2 && r.y1 <= c.y <= r.y2
    ensures 0 <= (r.x2 - c.x) - (c.x - r.x1) <= 1
    ensures 0 <= (r.y2 - c.y) - (c.y - r.y1) <= 1
  {
    var x1 := c.x - TruncDiv(fx, 2);
    var y1 := c.y - TruncDiv(fy, 2);
    Roi(x1, y1, x1 + fx, y1 + fy)
  }

  /** The four clipping steps, in the source's order: a region hanging over
      the left or top edge is moved to start at 0, then one hanging over the
      right or bottom edge is moved to end at the edge. The region is shifted,
      never shrunk; on every axis along which it fits it lands inside the
      frame, flush against the edge it crossed, and a region already inside
      the frame is left where it is: the least move that brings it inside. */
  function Clip(r: Roi, fx: int, fy: int, frameX: int, frameY: int): (c: Roi)
    requires r.x2 - r.x1 == fx && r.y2 - r.y1 == fy
    ensures c.x2 - c.x1 == fx && c.y2 - c.y1 == fy
    ensures 0 <= fx <= frameX ==> 0 <= c.x1 && c.x2 <= frameX
    ensures 0 <= fy <= frameY ==> 0 <= c.y1 && c.y2 <= frameY
    ensures 0 <= r.x1 && r.x2 <= frameX ==> c.x1 == r.x1
    ensures 0 <= r.y1 && r.y2 <= frameY ==> c.y1 == r.y1
    ensures 0 <= fx <= frameX && r.x1 < 0 ==> c.x1 == 0
    ensures 0 <= fx <= frameX && r.x2 > frameX ==> c.x2 == frameX
    ensures 0 <= fy <= frameY && r.y1 < 0 ==> c.y1 == 0
    ensures 0 <= fy <= frameY && r.y2 > frameY ==> c.y2 == frameY
  {
    var (x1, x2) := if r.x1 < 0 then (0, fx) else (r.x1, r.x2);
    var (y1, y2) := if r.y1 < 0 then (0, fy) else (r.y1, r.y2);
    var (x1', x2') := if x2 > frameX then (frameX - fx, frameX) else (x1, x2);
    var (y1', y2') := if y2 > frameY then (frameY - fy, frameY) else (y1, y2);
    Roi(x1', y1', x2', y2')
  }

  /** The guard `x2 - x1 >= frame_x or y2 - y1 >= frame_y`. */
  predicate Oversize(r: Roi, frameX: int, frameY: int)
  {
    r.x2 - r.x1 >= frameX || r.y2 - r.y1 >= frameY
  }

  /** The ROI actually used for a marker centre and face size. */
  function TargetRoi(c: Point, fx: nat, fy: nat, frameX: int, frameY: int): Roi
  {
    Clip(Place(c, fx, fy), fx, fy, frameX, frameY)
  }

  /** The guard fires exactly when the face is at least as wide or as tall as
      the frame; otherwise the clipped ROI lies inside the frame and has the
      face's size. */
  lemma OversizeExactly(c: Point, fx: nat, fy: nat, frameX: int, frameY: int)
    ensures Oversize(TargetRoi(c, fx, fy, frameX, frameY), frameX, frameY) <==> fx >= frameX || fy >= frameY
    ensures !Oversize(TargetRoi(c, fx, fy, frameX, frameY), frameX, frameY) ==>
      var r := TargetRoi(c, fx, fy, frameX, frameY);
      0 <= r.x1 && r.x2 - r.x1 == fx && r.x2 <= frameX && 0 <= r.y1 && r.y2 - r.y1 == fy && r.y2 <= frameY
  {
  }

  /** Anchor of the warning text on the flipped frame: the mirrored marker
      x minus a fixed offset, and the marker y, each clamped into
      `[0, frame_x]` x `[0, frame_y]`. */
  function TextAnchor(c: Point, frameX: nat, frameY: nat): (a: Point)
    ensures 0 <= a.x <= frameX && 0 <= a.y <= frameY
    ensures var raw := Abs(frameX - c.x) - TextOffset;
      (0 <= raw <= frameX ==> a.x == raw) && (raw < 0 ==> a.x == 0) && (raw > frameX ==> a.x == frameX)
    ensures (0 <= c.y <= frameY ==> a.y == c.y) && (c.y < 0 ==> a.y == 0) && (c.y > frameY ==> a.y == frameY)
  {
    var x := Abs(frameX - c.x) - TextOffset;
    var x := if x < 0 then 0 else x;
    var x := if x > frameX then frameX else x;
    var y := if c.y < 0 then 0 else c.y;
    var y := if y > frameY then frameY else y;
    Point(x, y)
  }

  /** Python's `abs` on integers. */
  function Abs(n: int): nat
  {
    if n < 0 then -n else n
  }

  /** A 100-pixel marker centred at (320, 240) in a 640 x 480 frame with a
      face image of 100 rows and 200 columns: the face becomes 400 x 200 and
      sits at columns [120, 520) and rows [140, 340), inside the frame. A
      175-pixel marker makes the face 700 wide, which trips the guard. */
  lemma CentredMarkerExample()
    ensures var m := MarkerGeometry(Quad(Corner(270.0, 190.0), Corner(370.0, 190.0), Corner(370.0, 290.0), Corner(270.0, 290.0)));
      && m == Marker(Point(320, 240), 100)
      && FaceSize(100, 100, 200) == (400, 200)
      && TargetRoi(m.center, 400, 200, 640, 480) == Roi(120, 140, 520, 340)
      && !Oversize(TargetRoi(m.center, 400, 200, 640, 480), 640, 480)
    ensures FaceSize(175, 100, 200).0 == 700
    ensures Oversize(TargetRoi(Point(320, 240), 700, 350, 640, 480), 640, 480)
  {
    var q := Quad(Corner(270.0, 190.0), Corner(370.0, 190.0), Corner(370.0, 290.0), Corner(270.0, 290.0));
    TruncRealOfInt(270);
    TruncRealOfInt(370);
    TruncRealOfInt(320);
    TruncRealOfInt(240);
    var xs := CornerXs(q);
    assert xs[0] == 270 && xs[1] == 370 && xs[2] == 370 && xs[3] == 270;
    assert Min(xs) == 270;
    assert Max(xs) == 370;
    assert (270.0 + 370.0 + 370.0 + 270.0) / 4.0 == 320 as real;
    assert (190.0 + 190.0 + 290.0 + 290.0) / 4.0 == 240 as real;
    var m := MarkerGeometry(q);
    assert m.center == Point(320, 240);
    assert m.width == 100;
  }
}
