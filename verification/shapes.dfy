/** Points and axis-aligned rectangles in frame pixel coordinates
    (x grows to the right, y grows downward, as in OpenCV). */
module Shapes {

  /** A pixel position; a Python `(x, y)` tuple. */
  datatype Point = Point(x: int, y: int)

  /** A rectangle given by two corners; a Python `((x1, y1), (x2, y2))` tuple. */
  datatype Rect = Rect(tl: Point, br: Point)

  /** The `((0, 0), (0, 0))` rectangle the smoother is pre-filled with. */
  const ZeroRect := Rect(Point(0, 0), Point(0, 0))

  /** Coordinate `k` of a rectangle in the order x1, y1, x2, y2. */
  function Coord(r: Rect, k: nat): int
    requires k < 4
  {
    match k
    case 0 => r.tl.x
    case 1 => r.tl.y
    case 2 => r.br.x
    case _ => r.br.y
  }

  /** Coordinate `k` of every rectangle of a history. */
  function Column(h: seq<Rect>, k: nat): (c: seq<int>)
    requires k < 4
    ensures |c| == |h|
  {
    seq(|h|, i requires 0 <= i < |h| => Coord(h[i], k))
  }

  /** Two rectangles are equal when all four coordinates agree. */
  lemma CoordsDetermine(r: Rect, s: Rect)
    requires forall k :: 0 <= k < 4 ==> Coord(r, k) == Coord(s, k)
    ensures r == s
  {
    assert Coord(r, 0) == Coord(s, 0) && Coord(r, 1) == Coord(s, 1);
    assert Coord(r, 2) == Coord(s, 2) && Coord(r, 3) == Coord(s, 3);
  }
}
