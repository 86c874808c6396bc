/**
 * The integer line walk shared by `DrawLine` (core/render_3d.go) and
 * `drawLine` (samples/triscratch.go): Bresenham's algorithm for all octants,
 * with an error term that decides at each step whether x, y or both move one
 * pixel toward the end point. The two copies differ only in whether the
 * tests against the error are inclusive (`>=`, `<=`) or strict (`>`, `<`).
 */
module Bresenham {
  import opened GoInt

  datatype Variant = Inclusive | Strict

  /** A line from (x0, y0) to (x1, y1), walked by one of the two variants. */
  datatype Line = Line(variant: Variant, x0: int, y0: int, x1: int, y1: int) {
    /** dx: the horizontal extent. */
    function Dx(): int { Abs(x1 - x0) }
    /** The vertical extent (the code keeps it as dy, or as -dy in the inclusive copy). */
    function Dy(): int { Abs(y1 - y0) }
    function Sx(): int { if x0 < x1 then 1 else -1 }
    function Sy(): int { if y0 < y1 then 1 else -1 }
    /** How many columns x has moved from x0 toward x1. */
    function U(x: int): int { if x0 < x1 then x - x0 else x0 - x }
    /** How many rows y has moved from y0 toward y1. */
    function V(y: int): int { if y0 < y1 then y - y0 else y0 - y }
  }

  /** The loop variables: the current pixel and the error term. */
  datatype Pen = Pen(x: int, y: int, err: int)

  /** How far a pixel has gone toward the end of the line, in columns plus rows. */
  ghost function Reach(l: Line, q: (int, int)): int {
    l.U(q.0) + l.V(q.1)
  }

  /** The pen before the first pixel: at the start point, error dx - dy. */
  function StartPen(l: Line): Pen {
    Pen(l.x0, l.y0, l.Dx() - l.Dy())
  }

  /**
   * The invariant of the walk: the pen has moved u columns and v rows toward
   * the end, never past it, and the error is dx(v+1) - dy(u+1).
   */
  ghost predicate OnTrack(l: Line, p: Pen) {
    var u, v := l.U(p.x), l.V(p.y);
    && 0 <= u <= l.Dx() && 0 <= v <= l.Dy()
    && p.err == l.Dx() * (v + 1) - l.Dy() * (u + 1)
  }

  predicate AtEnd(l: Line, p: Pen) {
    p.x == l.x1 && p.y == l.y1
  }

  /** The test on e2 = 2 err that moves x. */
  predicate StepsX(l: Line, e2: int) {
    if l.variant == Inclusive then e2 >= -l.Dy() else e2 > -l.Dy()
  }

  /** The test on e2 = 2 err that moves y. */
  predicate StepsY(l: Line, e2: int) {
    if l.variant == Inclusive then e2 <= l.Dx() else e2 < l.Dx()
  }

  /** One pass of the loop after the pixel is drawn: both tests use the error from before the pass. */
  function Advance(l: Line, p: Pen): Pen {
    var e2 := 2 * p.err;
    var q := if StepsX(l, e2) then Pen(p.x + l.Sx(), p.y, p.err - l.Dy()) else p;
    if StepsY(l, e2) then Pen(q.x, q.y + l.Sy(), q.err + l.Dx()) else q
  }

  /** What remains of the walk: columns and rows still to go. */
  function Remaining(l: Line, p: Pen): int {
    (l.Dx() - l.U(p.x)) + (l.Dy() - l.V(p.y))
  }

  lemma StartOnTrack(l: Line)
    ensures OnTrack(l, StartPen(l))
  {
  }

  /** On track, the pen is at the end point exactly when it has gone all columns and all rows. */
  lemma AtEndIff(l: Line, p: Pen)
    ensures AtEnd(l, p) <==> l.U(p.x) == l.Dx() && l.V(p.y) == l.Dy()
  {
  }

  lemma MulStep(a: int, b: int)
    ensures a * (b + 1) == a * b + a
  {
  }

  /** a * b <= 0 for a >= 0 >= b. */
  lemma ProductNonPositive(a: int, b: int)
    requires a >= 0 && b <= 0
    ensures a * b <= 0
  {
  }

  /** All columns gone but rows left: the error is at most -dy, so x does not move. */
  lemma ColumnsDone(l: Line, p: Pen)
    requires OnTrack(l, p) && l.U(p.x) == l.Dx() && l.V(p.y) < l.Dy()
    ensures 2 * p.err <= -2 * l.Dy()
  {
    var v := l.V(p.y);
    ProductNonPositive(l.Dx(), v + 1 - l.Dy());
    assert p.err == l.Dx() * (v + 1 - l.Dy()) - l.Dy();
  }

  /** All rows gone but columns left: the error is at least dx, so y does not move. */
  lemma RowsDone(l: Line, p: Pen)
    requires OnTrack(l, p) && l.V(p.y) == l.Dy() && l.U(p.x) < l.Dx()
    ensures p.err >= l.Dx()
  {
    var u := l.U(p.x);
    ProductNonPositive(l.Dy(), u + 1 - l.Dx());
    assert p.err == l.Dx() - l.Dy() * (u + 1 - l.Dx());
  }

  /**
   * A step off the end point stays on track, moves x by 0 or sx and y by 0
   * or sy, moves at least one of them, and shortens what remains.
   */
  lemma AdvanceOnTrack(l: Line, p: Pen)
    requires OnTrack(l, p) && !AtEnd(l, p)
    ensures var q := Advance(l, p);
      && OnTrack(l, q)
      && (q.x == p.x || q.x == p.x + l.Sx())
      && (q.y == p.y || q.y == p.y + l.Sy())
      && (q.x, q.y) != (p.x, p.y)
      && l.U(q.x) + l.V(q.y) > l.U(p.x) + l.V(p.y)
      && Remaining(l, q) < Remaining(l, p)
  {
    var u, v, dx, dy := l.U(p.x), l.V(p.y), l.Dx(), l.Dy();
    var e2 := 2 * p.err;
    var movesX, movesY := StepsX(l, e2), StepsY(l, e2);
    if u == dx && v < dy {
      ColumnsDone(l, p);
    }
    if v == dy && u < dx {
      RowsDone(l, p);
    }
    assert movesX ==> u < dx;
    assert movesY ==> v < dy;
    assert movesX || movesY;
    var u', v' := u + (if movesX then 1 else 0), v + (if movesY then 1 else 0);
    var q := Advance(l, p);
    assert l.U(q.x) == u' && l.V(q.y) == v';
    assert q.err == p.err - (if movesX then dy else 0) + (if movesY then dx else 0);
    if movesY {
      MulStep(dx, v + 1);
    }
    if movesX {
      MulStep(dy, u + 1);
    }
  }

  /** The pixels the walk from p visits, up to and including the end point. */
  ghost function Path(l: Line, p: Pen): (path: seq<(int, int)>)
    requires OnTrack(l, p)
    ensures |path| >= 1 && path[0] == (p.x, p.y)
    decreases Remaining(l, p)
  {
    if AtEnd(l, p) then [(p.x, p.y)]
    else
      AdvanceOnTrack(l, p);
      [(p.x, p.y)] + Path(l, Advance(l, p))
  }

  /** Off the end point, the walk is the current pixel followed by the walk from the next pen. */
  lemma PathUnfold(l: Line, p: Pen)
    requires OnTrack(l, p) && !AtEnd(l, p)
    ensures OnTrack(l, Advance(l, p)) && Path(l, p) == [(p.x, p.y)] + Path(l, Advance(l, p))
  {
    AdvanceOnTrack(l, p);
  }

  /** The pixels of the whole line. */
  ghost function Pixels(l: Line): (path: seq<(int, int)>)
  {
    StartOnTrack(l);
    Path(l, StartPen(l))
  }

  /** The walk ends at the end point. */
  lemma {:induction false} PathEnds(l: Line, p: Pen)
    requires OnTrack(l, p)
    ensures Path(l, p)[|Path(l, p)| - 1] == (l.x1, l.y1)
    decreases Remaining(l, p)
  {
    if !AtEnd(l, p) {
      AdvanceOnTrack(l, p);
      PathEnds(l, Advance(l, p));
    }
  }

  /** Consecutive pixels are 8-neighbours, each axis moving by 0 or by its step toward the end. */
  lemma {:induction false} PathSteps(l: Line, p: Pen)
    requires OnTrack(l, p)
    ensures forall i :: 0 <= i < |Path(l, p)| - 1 ==>
      var a, b := Path(l, p)[i], Path(l, p)[i + 1];
      && (b.0 == a.0 || b.0 == a.0 + l.Sx())
      && (b.1 == a.1 || b.1 == a.1 + l.Sy())
      && a != b
    decreases Remaining(l, p)
  {
    if !AtEnd(l, p) {
      AdvanceOnTrack(l, p);
      PathSteps(l, Advance(l, p));
    }
  }

  /**
   * Every pixel from p on has gone at least as far as p, and at most to the
   * end, in columns and in rows; later pixels have gone strictly further.
   */
  lemma {:induction false} PathProgress(l: Line, p: Pen)
    requires OnTrack(l, p)
    ensures forall i :: 0 <= i < |Path(l, p)| ==>
      var q := Path(l, p)[i];
      && l.U(p.x) <= l.U(q.0) <= l.Dx() && l.V(p.y) <= l.V(q.1) <= l.Dy()
      && (i > 0 ==> l.U(q.0) + l.V(q.1) > l.U(p.x) + l.V(p.y))
    ensures forall i, j :: 0 <= i < j < |Path(l, p)| ==>
      l.U(Path(l, p)[i].0) + l.V(Path(l, p)[i].1) < l.U(Path(l, p)[j].0) + l.V(Path(l, p)[j].1)
    decreases Remaining(l, p)
  {
    if !AtEnd(l, p) {
      AdvanceOnTrack(l, p);
      PathProgress(l, Advance(l, p));
    }
  }

  /** No pixel is visited twice. */
  lemma PathDistinct(l: Line, p: Pen)
    requires OnTrack(l, p)
    ensures forall i, j :: 0 <= i < j < |Path(l, p)| ==> Path(l, p)[i] != Path(l, p)[j]
  {
    PathProgress(l, p);
  }

  /** Every pixel of the line lies in the bounding box of its end points. */
  lemma PixelsInBox(l: Line)
    ensures forall i :: 0 <= i < |Pixels(l)| ==>
      && Min(l.x0, l.x1) <= Pixels(l)[i].0 <= Min(l.x0, l.x1) + l.Dx()
      && Min(l.y0, l.y1) <= Pixels(l)[i].1 <= Min(l.y0, l.y1) + l.Dy()
  {
    StartOnTrack(l);
    PathProgress(l, StartPen(l));
  }

  /** The line starts at the start point, ends at the end point, and has at most dx + dy + 1 pixels. */
  lemma PixelsEnds(l: Line)
    ensures Pixels(l)[0] == (l.x0, l.y0)
    ensures Pixels(l)[|Pixels(l)| - 1] == (l.x1, l.y1)
    ensures |Pixels(l)| <= l.Dx() + l.Dy() + 1
  {
    StartOnTrack(l);
    PathEnds(l, StartPen(l));
    PathLength(l, StartPen(l));
  }

  /** Each pixel after the first has gone at least one step further, so the walk is at most as long as what remains. */
  lemma {:induction false} PathLength(l: Line, p: Pen)
    requires OnTrack(l, p)
    ensures |Path(l, p)| <= Remaining(l, p) + 1
    decreases Remaining(l, p)
  {
    if !AtEnd(l, p) {
      AdvanceOnTrack(l, p);
      PathLength(l, Advance(l, p));
    }
  }
}
