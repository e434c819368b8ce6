/** Frames as grids of 8-bit BGR pixels (`frame[y][x]`, as a numpy array of
    shape `(rows, cols, 3)` is indexed), and the two whole-frame operations
    the engine applies: horizontal flip (`cv2.flip(img, 1)`) and painting
    the pixels a text label covers. */
module Raster {
  import opened Shapes

  /** One unsigned 8-bit channel value. */
  type byte = x: int | 0 <= x < 256

  /** A frame pixel, channels in OpenCV's blue-green-red order. */
  datatype Pixel = Pixel(b: byte, g: byte, r: byte)

  const Black := Pixel(0, 0, 0)
  const White := Pixel(255, 255, 255)

  /** `g` has `h` rows of `w` entries each. */
  predicate IsGrid<T>(g: seq<seq<T>>, w: nat, h: nat)
  {
    |g| == h && forall i :: 0 <= i < h ==> |g[i]| == w
  }

  /** Number of columns (`shape[1]`); a frame with no rows has none. */
  function Width<T>(g: seq<seq<T>>): nat
  {
    if |g| == 0 then 0 else |g[0]|
  }

  /** All rows have the same length. */
  predicate Rectangular<T>(g: seq<seq<T>>)
  {
    IsGrid(g, Width(g), |g|)
  }

  /** A row read right to left. */
  function Mirror<T>(row: seq<T>): (m: seq<T>)
    ensures |m| == |row|
    ensures forall j :: 0 <= j < |row| ==> m[j] == row[|row| - 1 - j]
  {
    if |row| == 0 then [] else Mirror(row[1..]) + [row[0]]
  }

  /** `cv2.flip(img, 1)`: every row mirrored about the vertical axis. */
  function Flip<T>(g: seq<seq<T>>): (f: seq<seq<T>>)
    ensures |f| == |g|
    ensures forall i :: 0 <= i < |g| ==> |f[i]| == |g[i]|
    ensures forall i, j :: 0 <= i < |g| && 0 <= j < |g[i]| ==> f[i][j] == g[i][|g[i]| - 1 - j]
  {
    seq(|g|, i requires 0 <= i < |g| => Mirror(g[i]))
  }

  /** Flipping twice restores the image. */
  lemma FlipInvolution<T>(g: seq<seq<T>>)
    ensures Flip(Flip(g)) == g
  {
    var ff := Flip(Flip(g));
    forall i | 0 <= i < |g|
      ensures ff[i] == g[i]
    {
      assert |ff[i]| == |g[i]|;
      forall j | 0 <= j < |g[i]|
        ensures ff[i][j] == g[i][j]
      {
        assert ff[i][j] == Flip(g)[i][|g[i]| - 1 - j];
      }
    }
  }

  /** The pixels at the given positions (x, y) turn white; the label is
      drawn in white (`(255, 255, 255)`) and positions outside the frame are ignored. */
  function Paint(f: seq<seq<Pixel>>, ink: set<Point>): (p: seq<seq<Pixel>>)
    ensures |p| == |f|
    ensures forall i :: 0 <= i < |f| ==> |p[i]| == |f[i]|
  {
    seq(|f|, i requires 0 <= i < |f| =>
      seq(|f[i]|, j requires 0 <= j < |f[i]| => if Point(j, i) in ink then White else f[i][j]))
  }

  /** The oversize warning: flip the frame, paint the label text at its
      anchor, flip back. `ink` stands for `cv2.putText`'s glyph rasteriser:
      the set of pixels it covers for a given anchor. */
  function Label(f: seq<seq<Pixel>>, anchor: Point, ink: Point -> set<Point>): seq<seq<Pixel>>
  {
    Flip(Paint(Flip(f), ink(anchor)))
  }

  /** Because flip is its own inverse, the label touches only the mirror
      images of the inked pixels: pixel (x, y) turns white exactly when
      (width - 1 - x, y) is inked, and every other pixel is unchanged. */
  lemma LabelOnlyInk(f: seq<seq<Pixel>>, anchor: Point, ink: Point -> set<Point>)
    requires Rectangular(f)
    ensures IsGrid(Label(f, anchor, ink), Width(f), |f|)
    ensures forall i, j :: 0 <= i < |f| && 0 <= j < Width(f) ==>
      Label(f, anchor, ink)[i][j] == (if Point(Width(f) - 1 - j, i) in ink(anchor) then White else f[i][j])
  {
    var l := Label(f, anchor, ink);
    var w := Width(f);
    forall i, j | 0 <= i < |f| && 0 <= j < w
      ensures l[i][j] == (if Point(w - 1 - j, i) in ink(anchor) then White else f[i][j])
    {
      assert l[i][j] == Paint(Flip(f), ink(anchor))[i][w - 1 - j];
      assert Flip(f)[i][w - 1 - j] == f[i][j];
    }
  }
}
