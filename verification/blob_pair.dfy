/** The legacy colour-blob tracker: `parse_markers` in cam_classes.py
    (`CamReader`) and blob_test.py (module level), which have the same body.
    For one colour channel `i`, a pair of blob keypoints becomes a box that
    is fed to that channel's smoother; any other number of blobs reuses the
    smoother's last rectangle. The drawn rectangle is returned with its
    colour instead of being rasterised into the frame. */
module BlobPair {
  import opened Results
  import opened Numeric
  import opened Shapes
  import opened Raster
  import opened Smoother

  /** `SCL`: box half-extents are `SCL * d / 3` across and `SCL * d / 2` along. */
  const Scale := 2

  /** Three colour channels, hence three smoother slots (`deque_dict`). */
  const SlotCount := 3

  /** Each slot smooths over this many rectangles (`MyDeque(10)`, `SmoothRect(10)`). */
  const SlotLevel := 10

  /** A blob keypoint centre (`marker.pt`), in floating-point pixels. */
  datatype KeyPoint = KeyPoint(x: real, y: real)

  /** `tuple(int(i) for i in marker.pt)`. */
  function ToCoord(k: KeyPoint): Point
  {
    Point(TruncReal(k.x), TruncReal(k.y))
  }

  /** `colors_dict`: red, green and blue in OpenCV's BGR order. */
  function SlotColor(i: int): Pixel
    requires 0 <= i < SlotCount
  {
    if i == 0 then Pixel(0, 0, 255) else if i == 1 then Pixel(0, 255, 0) else Pixel(255, 0, 0)
  }

  /** A well-formed slot table: one valid smoother of level ten per channel. */
  predicate SlotsValid(slots: seq<Smoother>)
  {
    |slots| == SlotCount && forall k :: 0 <= k < SlotCount ==> Valid(slots[k]) && slots[k].level == SlotLevel
  }

  /** `deque_dict = {0: MyDeque(10), 1: MyDeque(10), 2: MyDeque(10)}`: three
      independent smoothers, each a window of ten zero rectangles showing the zero rectangle. */
  function InitSlots(): (slots: seq<Smoother>)
    ensures SlotsValid(slots)
    ensures forall k :: 0 <= k < SlotCount ==>
      slots[k].level == SlotLevel && |slots[k].history| == SlotLevel && GetRect(slots[k]) == ZeroRect
  {
    [Init(SlotLevel), Init(SlotLevel), Init(SlotLevel)]
  }

  /** `coords.sort(key=lambda x: x[1])` on two points: a stable sort by y. */
  function SortByY(a: Point, b: Point): (p: (Point, Point))
    ensures p.0.y <= p.1.y
    ensures p == (a, b) || p == (b, a)
    ensures a.y <= b.y ==> p == (a, b)
  {
    if b.y < a.y then (b, a) else (a, b)
  }

  /** `d` is the Euclidean distance between `a` and `b` (`math.sqrt` of the
      squared differences); it is characterised, not computed. The last
      conjunct, zero exactly for coincident points, follows from the first two. */
  predicate IsDistance(d: real, a: Point, b: Point)
  {
    && d >= 0.0
    && d * d == ((a.x - b.x) * (a.x - b.x) + (a.y - b.y) * (a.y - b.y)) as real
    && (d == 0.0 <==> a == b)
  }

  /** One component of `direc_vec` before truncation: the difference scaled
      by half the distance and divided by the distance, which halves it.
      Dividing by `d` fails when `d` is zero. */
  function ScaledHalf(diff: int, d: real): (r: real)
    requires d != 0.0
    ensures r == diff as real / 2.0
  {
    (diff as real * (d / 2.0)) / d
  }

  /** `direc_vec`: the half step from `b` toward `a`, each component truncated. */
  function HalfStep(a: Point, b: Point, d: real): (h: Point)
    requires d != 0.0
    ensures h == Point(TruncDiv(a.x - b.x, 2), TruncDiv(a.y - b.y, 2))
  {
    TruncRealHalf(a.x - b.x);
    TruncRealHalf(a.y - b.y);
    Point(TruncReal(ScaledHalf(a.x - b.x, d)), TruncReal(ScaledHalf(a.y - b.y, d)))
  }

  /** Centre of the box: `b` plus the half step from `b` toward `a`. It is
      the truncated midpoint of the pair, within half a pixel of the exact
      midpoint on each axis and between the two points. */
  function PairCenter(a: Point, b: Point, d: real): (c: Point)
    requires d != 0.0
    ensures c == Point(b.x + TruncDiv(a.x - b.x, 2), b.y + TruncDiv(a.y - b.y, 2))
    ensures -1 <= 2 * c.x - (a.x + b.x) <= 1 && -1 <= 2 * c.y - (a.y + b.y) <= 1
    ensures (a.x <= c.x <= b.x || b.x <= c.x <= a.x) && (a.y <= c.y <= b.y || b.y <= c.y <= a.y)
  {
    var h := HalfStep(a, b, d);
    Point(h.x + b.x, h.y + b.y)
  }

  /** The observation box around centre `c`: `SCL * d / 3` to either side
      horizontally and `SCL * d / 2` above and below, each corner truncated
      toward zero as `int()` does.
      The corners are ordered, enclose the centre, and each lies less than one
      pixel from its exact value. */
  function PairBox(c: Point, d: real): (r: Rect)
    requires d >= 0.0
    ensures r == Rect(Point(TruncReal(c.x as real - Scale as real * d / 3.0), TruncReal(c.y as real - Scale as real * d / 2.0)),
                      Point(TruncReal(c.x as real + Scale as real * d / 3.0), TruncReal(c.y as real + Scale as real * d / 2.0)))
    ensures r.tl.x <= c.x <= r.br.x && r.tl.y <= c.y <= r.br.y
    ensures -1.0 < r.tl.x as real - (c.x as real - Scale as real * d / 3.0) < 1.0
    ensures -1.0 < r.br.x as real - (c.x as real + Scale as real * d / 3.0) < 1.0
    ensures -1.0 < r.tl.y as real - (c.y as real - Scale as real * d / 2.0) < 1.0
    ensures -1.0 < r.br.y as real - (c.y as real + Scale as real * d / 2.0) < 1.0
  {
    var across, along := Scale as real * d / 3.0, Scale as real * d / 2.0;
    TruncRealOfInt(c.x);
    TruncRealOfInt(c.y);
    TruncRealMonotone(c.x as real - across, c.x as real);
    TruncRealMonotone(c.x as real, c.x as real + across);
    TruncRealMonotone(c.y as real - along, c.y as real);
    TruncRealMonotone(c.y as real, c.y as real + along);
    Rect(Point(TruncReal(c.x as real - across), TruncReal(c.y as real - along)),
         Point(TruncReal(c.x as real + across), TruncReal(c.y as real + along)))
  }

  datatype BlobError =
    | UnknownSlot      // `deque_dict[i]` raises `KeyError`
    | CoincidentBlobs  // `... / dist_btw` with a zero distance raises `ZeroDivisionError`

  /** The filled rectangle `cv2.rectangle` is asked to draw, and its colour. */
  datatype Drawn = Drawn(rect: Rect, color: Pixel)

  /** The box a pair of keypoints yields, given their distance. */
  function Observation(kps: seq<KeyPoint>, d: real): Rect
    requires |kps| == 2 && d > 0.0
  {
    var (p, q) := SortByY(ToCoord(kps[0]), ToCoord(kps[1]));
    PairBox(PairCenter(p, q, d), d)
  }

  /** Feeding one observation to slot `i` changes that slot alone: its
      window moves by one, it shows the truncated mean of the new window, and
      that mean is what gets drawn; the table stays well formed. */
  function ObserveSlot(slots: seq<Smoother>, i: int, box: Rect): (res: (seq<Smoother>, Drawn))
    requires SlotsValid(slots) && 0 <= i < SlotCount
    ensures SlotsValid(res.0)
    ensures forall k :: 0 <= k < SlotCount && k != i ==> res.0[k] == slots[k]
    ensures res.0[i].level == slots[i].level
    ensures res.0[i].history == slots[i].history[1..] + [box]
    ensures res.0[i].latest == Mean(res.0[i].history)
    ensures res.1 == Drawn(Mean(res.0[i].history), SlotColor(i))
  {
    var s := Add(slots[i], box).value;
    var slots' := slots[i := s];
    assert forall k :: 0 <= k < SlotCount ==> Valid(slots'[k]) && slots'[k].level == SlotLevel;
    (slots', Drawn(GetRect(s), SlotColor(i)))
  }

  /** `parse_markers(frame, keypoints, i)`, with `d` the distance between the
      two keypoints when there are two. The new slot table and the drawn
      rectangle are returned. */
  function ParseMarkers(slots: seq<Smoother>, kps: seq<KeyPoint>, i: int, d: real)
    : (res: Result<(seq<Smoother>, Drawn), BlobError>)
    requires SlotsValid(slots)
    requires |kps| == 2 ==> IsDistance(d, ToCoord(kps[0]), ToCoord(kps[1]))
    // Summary of the next clause and the coincident-pair clause: an unknown slot never succeeds.
    ensures !(0 <= i < SlotCount) ==> res.Err?
    ensures !(0 <= i < SlotCount) && !(|kps| == 2 && ToCoord(kps[0]) == ToCoord(kps[1])) ==> res == Err(UnknownSlot)
    ensures 0 <= i < SlotCount && |kps| != 2 ==> res == Ok((slots, Drawn(GetRect(slots[i]), SlotColor(i))))
    ensures |kps| == 2 ==> (res == Err(CoincidentBlobs) <==> ToCoord(kps[0]) == ToCoord(kps[1]))
    ensures 0 <= i < SlotCount && |kps| == 2 && ToCoord(kps[0]) != ToCoord(kps[1]) ==> res.Ok?
    ensures res.Ok? ==> SlotsValid(res.value.0)
    ensures res.Ok? ==> forall k :: 0 <= k < SlotCount && k != i ==> res.value.0[k] == slots[k]
    ensures res.Ok? && |kps| == 2 ==>
      && res.value.0[i].level == slots[i].level
      && res.value.0[i].history == slots[i].history[1..] + [Observation(kps, d)]
      && res.value.0[i].latest == Mean(res.value.0[i].history)
      && res.value.1 == Drawn(Mean(res.value.0[i].history), SlotColor(i))
  {
    if |kps| != 2 then
      if !(0 <= i < SlotCount) then Err(UnknownSlot)
      else Ok((slots, Drawn(GetRect(slots[i]), SlotColor(i))))
    else if d == 0.0 then Err(CoincidentBlobs)
    else if !(0 <= i < SlotCount) then Err(UnknownSlot)
    else Ok(ObserveSlot(slots, i, Observation(kps, d)))
  }

  /** Two dots 40 pixels apart on a vertical line, at (100, 100) and
      (100, 140): after the sort the upper dot comes first, the centre is
      (100, 120), and the box spans x in [73, 126] and y in [80, 160]. */
  lemma VerticalPairExample()
    ensures var kps := [KeyPoint(100.0, 140.0), KeyPoint(100.0, 100.0)];
      && SortByY(ToCoord(kps[0]), ToCoord(kps[1])) == (Point(100, 100), Point(100, 140))
      && PairCenter(Point(100, 100), Point(100, 140), 40.0) == Point(100, 120)
      && Observation(kps, 40.0) == Rect(Point(73, 80), Point(126, 160))
  {
    var kps := [KeyPoint(100.0, 140.0), KeyPoint(100.0, 100.0)];
    TruncRealOfInt(100);
    TruncRealOfInt(140);
    assert ToCoord(kps[0]) == Point(100, 140) && ToCoord(kps[1]) == Point(100, 100);
    var c := PairCenter(Point(100, 100), Point(100, 140), 40.0);
    assert c == Point(100, 120);
    var across: real := 2.0 * 40.0 / 3.0;
    assert 26.0 < across < 27.0;
    assert TruncReal(100.0 - across) == 73;
    assert TruncReal(100.0 + across) == 126;
    assert TruncReal(120.0 - 40.0) == 80;
    assert TruncReal(120.0 + 40.0) == 160;
  }
}
