/** The rolling-average rectangle smoother: a fixed-capacity FIFO window of
    rectangles, pre-filled with zero rectangles, whose truncated
    per-coordinate mean is the smoothed rectangle.

    The same class appears three times in the repository (`MyDeque` in
    deque.py, `SmoothRect` in cam_classes.py, `MyDeque` in blob_test.py) with
    identical bodies; this module models all three. The Python object is
    mutable; here a call that mutates it returns the new state instead. */
module Smoother {
  import opened Results
  import opened Numeric
  import opened Shapes

  /** `smooth_level`, `rect_list` and `latest_rect` of the Python object. */
  datatype Smoother = Smoother(level: int, history: seq<Rect>, latest: Rect)

  /** `add` on an empty window: `rect_list.pop(0)` raises `IndexError`. */
  datatype SmoothError = EmptyWindow

  /** Number of rectangles the constructor puts in the window:
      `range(smooth_level)` is empty for a level that is not positive. */
  function Capacity(level: int): nat
  {
    if level > 0 then level else 0
  }

  /** The invariant every reachable smoother keeps: the window holds exactly
      as many rectangles as the constructor put there. */
  predicate Valid(s: Smoother)
  {
    |s.history| == Capacity(s.level)
  }

  /** `smooth_level` copies of the zero rectangle. */
  function Zeros(n: nat): (z: seq<Rect>)
    ensures |z| == n
  {
    seq(n, _ => ZeroRect)
  }

  /** The constructor `__init__(smooth_level)`. */
  function Init(level: int): (s: Smoother)
    ensures Valid(s)
    ensures s.level == level
    ensures s.latest == ZeroRect
    ensures forall i :: 0 <= i < |s.history| ==> s.history[i] == ZeroRect
  {
    Smoother(level, Zeros(Capacity(level)), ZeroRect)
  }

  /** Truncated mean of coordinate `k` over a window. */
  function MeanCoord(h: seq<Rect>, k: nat): int
    requires |h| > 0 && k < 4
  {
    TruncDiv(Sum(Column(h, k)), |h|)
  }

  /** The averaged rectangle of a non-empty window. Each coordinate lies
      between the smallest and largest value that coordinate takes in the window. */
  function Mean(h: seq<Rect>): (m: Rect)
    requires |h| > 0
    ensures forall k :: 0 <= k < 4 ==> Coord(m, k) == MeanCoord(h, k)
    ensures forall k :: 0 <= k < 4 ==> Min(Column(h, k)) <= Coord(m, k) <= Max(Column(h, k))
  {
    var m := Rect(Point(MeanCoord(h, 0), MeanCoord(h, 1)), Point(MeanCoord(h, 2), MeanCoord(h, 3)));
    MeanCoordsWithin(h, m);
    m
  }

  /** Each coordinate of the averaged rectangle, one at a time. */
  lemma MeanCoordsWithin(h: seq<Rect>, m: Rect)
    requires |h| > 0
    requires m == Rect(Point(MeanCoord(h, 0), MeanCoord(h, 1)), Point(MeanCoord(h, 2), MeanCoord(h, 3)))
    ensures forall k :: 0 <= k < 4 ==> Coord(m, k) == MeanCoord(h, k)
    ensures forall k :: 0 <= k < 4 ==> Min(Column(h, k)) <= Coord(m, k) <= Max(Column(h, k))
  {
    forall k | 0 <= k < 4
      ensures Coord(m, k) == MeanCoord(h, k)
      ensures Min(Column(h, k)) <= Coord(m, k) <= Max(Column(h, k))
    {
      MeanWithin(Column(h, k));
      // `Coord(m, k)` unfolds only once `k` is a literal, so each case is visited.
      match k
      case 0 =>
      case 1 =>
      case 2 =>
      case _ =>
    }
  }

  /** `add(rect)`: evict the oldest rectangle, append `rect`, and return the
      new state whose `latest` is the truncated mean of the new window. */
  function Add(s: Smoother, r: Rect): (res: Result<Smoother, SmoothError>)
    requires Valid(s)
    ensures res.Err? <==> s.level <= 0
    ensures res.Ok? ==> Valid(res.value) && res.value.level == s.level
    ensures res.Ok? ==> res.value.history == s.history[1..] + [r]
    ensures res.Ok? ==> res.value.latest == Mean(res.value.history)
  {
    if |s.history| == 0 then Err(EmptyWindow)
    else
      var h := s.history[1..] + [r];
      Ok(Smoother(s.level, h, Mean(h)))
  }

  /** `get_rect()`: the last averaged rectangle; the window is not consulted. */
  function GetRect(s: Smoother): Rect
  {
    s.latest
  }

  /** `add` written as the Python loop: the four coordinate sums are
      accumulated by indexing the window `smooth_level` times, then each is
      divided with truncation. It computes exactly the functional `Add`. */
  method AddObservation(s: Smoother, r: Rect) returns (res: Result<Smoother, SmoothError>)
    requires Valid(s)
    ensures res == Add(s, r)
  {
    if |s.history| == 0 {
      return Err(EmptyWindow);
    }
    var h := s.history[1..] + [r];
    var x1, y1, x2, y2 := 0, 0, 0, 0;
    var i := 0;
    while i < s.level
      invariant 0 <= i <= s.level
      invariant x1 == Sum(Column(h[..i], 0)) && y1 == Sum(Column(h[..i], 1))
      invariant x2 == Sum(Column(h[..i], 2)) && y2 == Sum(Column(h[..i], 3))
    {
      ColumnSnoc(h, i);
      x1 := x1 + h[i].tl.x;
      y1 := y1 + h[i].tl.y;
      x2 := x2 + h[i].br.x;
      y2 := y2 + h[i].br.y;
      i := i + 1;
    }
    assert h[..i] == h;
    var m := Rect(Point(TruncDiv(x1, s.level), TruncDiv(y1, s.level)),
                  Point(TruncDiv(x2, s.level), TruncDiv(y2, s.level)));
    CoordsDetermine(m, Mean(h));
    res := Ok(Smoother(s.level, h, m));
  }

  /** Extending a window prefix by one rectangle extends each column sum by its coordinate. */
  lemma ColumnSnoc(h: seq<Rect>, i: nat)
    requires i < |h|
    ensures forall k :: 0 <= k < 4 ==> Sum(Column(h[..i + 1], k)) == Sum(Column(h[..i], k)) + Coord(h[i], k)
  {
    forall k | 0 <= k < 4
      ensures Sum(Column(h[..i + 1], k)) == Sum(Column(h[..i], k)) + Coord(h[i], k)
    {
      assert Column(h[..i + 1], k) == Column(h[..i], k) + [Coord(h[i], k)];
      SumSnoc(Column(h[..i], k), Coord(h[i], k));
    }
  }

  /** Feed a sequence of observations to `add`, one after another. */
  function Feed(s: Smoother, rs: seq<Rect>): Result<Smoother, SmoothError>
    requires Valid(s)
    decreases |rs|
  {
    if |rs| == 0 then Ok(s)
    else
      match Add(s, rs[0])
      case Err(e) => Err(e)
      case Ok(s') => Feed(s', rs[1..])
  }

  /** FIFO window: after feeding `rs` to a smoother of positive level, the
      window holds the last `level` rectangles of the old window followed by
      `rs`, the level is unchanged, and the visible rectangle is the mean of
      that window (or the old one when nothing was fed). */
  lemma {:induction false} FeedWindow(s: Smoother, rs: seq<Rect>)
    requires Valid(s) && s.level > 0
    ensures Feed(s, rs).Ok?
    ensures Valid(Feed(s, rs).value) && Feed(s, rs).value.level == s.level
    ensures Feed(s, rs).value.history == (s.history + rs)[|rs|..]
    ensures |rs| == 0 ==> Feed(s, rs).value.latest == s.latest
    ensures |rs| > 0 ==> Feed(s, rs).value.latest == Mean(Feed(s, rs).value.history)
    decreases |rs|
  {
    if |rs| > 0 {
      var a := Add(s, rs[0]);
      assert a.Ok? && Valid(a.value) && a.value.level == s.level;
      var s' := a.value;
      assert Feed(s, rs) == Feed(s', rs[1..]);
      FeedWindow(s', rs[1..]);
      WindowShift(s.history, rs);
      if |rs| == 1 {
        CoordsDetermine(s'.latest, Mean(s'.history));
      }
    }
  }

  /** Dropping the head of the window and appending the first observation,
      then keeping the last entries, is keeping the last entries of the whole stream. */
  lemma WindowShift(h: seq<Rect>, rs: seq<Rect>)
    requires |h| > 0 && |rs| > 0
    ensures (h[1..] + [rs[0]] + rs[1..])[|rs| - 1..] == (h + rs)[|rs|..]
  {
    assert h[1..] + [rs[0]] + rs[1..] == (h + rs)[1..];
  }

  /** `get_rect` after any sequence of `add` calls on a fresh smoother: the
      zero rectangle before the first call, afterwards the mean of the last
      `smooth_level` entries of the zero-padded observation stream. */
  lemma GetRectAfterAdds(level: int, rs: seq<Rect>)
    requires level > 0
    ensures Feed(Init(level), rs).Ok?
    ensures |rs| == 0 ==> GetRect(Feed(Init(level), rs).value) == ZeroRect
    ensures |rs| > 0 ==> GetRect(Feed(Init(level), rs).value) == Mean((Zeros(level) + rs)[|rs|..])
  {
    FeedWindow(Init(level), rs);
  }

  /** The mean of a window holding one rectangle everywhere is that rectangle. */
  lemma MeanOfConstant(h: seq<Rect>, r: Rect)
    requires |h| > 0
    requires forall i :: 0 <= i < |h| ==> h[i] == r
    ensures Mean(h) == r
  {
    forall k | 0 <= k < 4
      ensures Coord(Mean(h), k) == Coord(r, k)
    {
      SumConstant(Column(h, k), Coord(r, k));
      TruncDivExact(Coord(r, k), |h|);
    }
    CoordsDetermine(Mean(h), r);
  }

  /** `n` copies of one rectangle. */
  function Repeat(r: Rect, n: nat): (rs: seq<Rect>)
    ensures |rs| == n
    ensures forall i :: 0 <= i < n ==> rs[i] == r
  {
    seq(n, _ => r)
  }

  /** Convergence: after at least `smooth_level` consecutive adds of the same
      rectangle, whatever the window held before, the result is exactly that rectangle. */
  lemma RepeatedAddConverges(s: Smoother, r: Rect, n: nat)
    requires Valid(s) && s.level > 0 && n >= s.level
    ensures Feed(s, Repeat(r, n)).Ok?
    ensures Feed(s, Repeat(r, n)).value.latest == r
    ensures Feed(s, Repeat(r, n)).value.history == Repeat(r, s.level)
  {
    var rs := Repeat(r, n);
    var res := Feed(s, rs);
    FeedWindow(s, rs);
    var h := res.value.history;
    TailOfRepeat(s.history, r, n);
    assert h == Repeat(r, s.level);
    assert res.value.latest == Mean(h);
    MeanOfConstant(h, r);
  }

  /** Once at least as many copies of `r` as the window holds have been
      appended, the last window-full is all `r`. */
  lemma TailOfRepeat(h: seq<Rect>, r: Rect, n: nat)
    requires n >= |h|
    ensures (h + Repeat(r, n))[n..] == Repeat(r, |h|)
  {
    var t := (h + Repeat(r, n))[n..];
    forall i | 0 <= i < |h|
      ensures t[i] == r
    {
      assert t[i] == Repeat(r, n)[n + i - |h|];
    }
  }

  /** The first observation given to a fresh smoother is damped by the zero
      pre-fill: every coordinate comes out as that coordinate divided by
      `smooth_level`, truncated. */
  lemma FirstAddDamped(level: int, r: Rect)
    requires level > 0
    ensures Add(Init(level), r).Ok?
    ensures forall k :: 0 <= k < 4 ==> Coord(Add(Init(level), r).value.latest, k) == TruncDiv(Coord(r, k), level)
  {
    var s := Init(level);
    var a := Add(s, r);
    var h := a.value.history;
    assert |h| == level;
    assert forall i :: 0 <= i < level - 1 ==> h[i] == ZeroRect;
    assert h[level - 1] == r;
    forall k | 0 <= k < 4
      ensures Coord(a.value.latest, k) == TruncDiv(Coord(r, k), level)
    {
      ZeroPaddedSum(h, r, k);
    }
  }

  /** A window of zero rectangles ending in `r` sums, per coordinate, to `r`'s coordinate. */
  lemma ZeroPaddedSum(h: seq<Rect>, r: Rect, k: nat)
    requires |h| > 0 && k < 4
    requires forall i :: 0 <= i < |h| - 1 ==> h[i] == ZeroRect
    requires h[|h| - 1] == r
    ensures Sum(Column(h, k)) == Coord(r, k)
  {
    var zs := Column(h[..|h| - 1], k);
    assert forall i :: 0 <= i < |zs| ==> zs[i] == 0;
    SumConstant(zs, 0);
    assert Column(h, k) == zs + [Coord(r, k)];
    SumSnoc(zs, Coord(r, k));
  }
}
