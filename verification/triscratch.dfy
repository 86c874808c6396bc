/**
 * The integer parts of the triangle scratch sample (samples/triscratch.go):
 * the strict Bresenham line that overwrites pixels, and the vertex sort and
 * flat-bottom / flat-top dispatch of `renderTriangle`. The flat fills
 * themselves interpolate in floating point and are not part of this model;
 * `RenderTriangle` returns the fill calls it makes, in order.
 */
module TriScratch {
  import opened GoInt
  import opened Colors
  import opened Bresenham
  import opened Canvas

  /** The pixels `drawLine` sets, in order. */
  ghost function LinePixels(x1: int, y1: int, x2: int, y2: int): seq<(int, int)> {
    Pixels(Line(Strict, x1, y1, x2, y2))
  }

  /**
   * `drawLine`: every pixel of the line that lies inside the image takes the
   * colour; no other pixel changes.
   */
  method DrawLine(x1: int, y1: int, x2: int, y2: int, img: array2<RGBA>, col: RGBA)
    modifies img
    ensures forall px, py :: InImage(img, px, py) ==>
      img[px, py] == if (px, py) in LinePixels(x1, y1, x2, y2) then col else old(img[px, py])
  {
    ghost var l := Line(Strict, x1, y1, x2, y2);
    var dx: int := Abs(x2 - x1);
    var dy: int := Abs(y2 - y1);
    var sx := -1;
    var sy := -1;
    if x1 < x2 {
      sx := 1;
    }
    if y1 < y2 {
      sy := 1;
    }
    var err: int := dx - dy;
    var x, y := x1, y1;
    StartOnTrack(l);
    ghost var drawn: seq<(int, int)> := [];
    ghost var pixels := Pixels(l);
    while true
      invariant dx == l.Dx() && dy == l.Dy() && sx == l.Sx() && sy == l.Sy()
      invariant OnTrack(l, Pen(x, y, err))
      invariant pixels == drawn + Path(l, Pen(x, y, err))
      invariant forall k :: 0 <= k < |drawn| ==> Reach(l, drawn[k]) < Reach(l, (x, y))
      invariant forall px, py :: InImage(img, px, py) ==>
        img[px, py] == if (px, py) in drawn then col else old(img[px, py])
      decreases Remaining(l, Pen(x, y, err))
    {
      Set(img, x, y, col);
      if x == x2 && y == y2 {
        drawn := drawn + [(x, y)];
        break;
      }
      ghost var pen := Pen(x, y, err);
      AdvanceOnTrack(l, pen);
      PathUnfold(l, pen);
      x, y, err := StepPen(l, x, y, err, dx, dy, sx, sy);
      assert Reach(l, (pen.x, pen.y)) < Reach(l, (x, y));
      assert drawn + Path(l, pen) == (drawn + [(pen.x, pen.y)]) + Path(l, Pen(x, y, err));
      drawn := drawn + [(pen.x, pen.y)];
    }
  }

  /** The error update of one pass of `drawLine`'s loop: x moves when 2 err > -dy, y when 2 err < dx. */
  method StepPen(ghost l: Line, x: int, y: int, err: int, dx: int, dy: int, sx: int, sy: int)
    returns (x': int, y': int, err': int)
    requires l.variant == Strict
    requires dx == l.Dx() && dy == l.Dy() && sx == l.Sx() && sy == l.Sy()
    ensures Pen(x', y', err') == Advance(l, Pen(x, y, err))
  {
    x', y', err' := x, y, err;
    var e2 := err * 2;
    if e2 > -dy {
      err' := err' - dy;
      x' := x' + sx;
    }
    if e2 < dx {
      err' := err' + dx;
      y' := y' + sy;
    }
  }

  /** `abs` gives the same value for x and -x. */
  lemma AbsSymmetric(x: int)
    ensures Abs(x) == Abs(-x) >= 0
  {
  }

  /** `Vertex2`: a screen position with texture coordinates. */
  datatype Vertex2 = Vertex2(x: int, y: int, u: int, v: int)

  /** One compare-swap of `renderTriangle`: entries i and i + 1 are exchanged when out of order in y. */
  function CompareSwap(s: seq<Vertex2>, i: int): (r: seq<Vertex2>)
    requires 0 <= i < |s| - 1
    ensures |r| == |s| && r[i].y <= r[i + 1].y
    ensures multiset(r) == multiset(s)
    ensures {r[i], r[i + 1]} == {s[i], s[i + 1]}
    ensures forall k :: 0 <= k < |s| && k != i && k != i + 1 ==> r[k] == s[k]
  {
    if s[i].y > s[i + 1].y then s[i := s[i + 1]][i + 1 := s[i]] else s
  }

  predicate SortedByY(s: seq<Vertex2>)
    requires |s| == 3
  {
    s[0].y <= s[1].y <= s[2].y
  }

  /**
   * The three compare-swaps, on entries 0-1, 1-2 and 0-1 again: they leave
   * the vertices in ascending y and lose or duplicate none.
   */
  function SortByY(s: seq<Vertex2>): (r: seq<Vertex2>)
    requires |s| == 3
    ensures |r| == 3 && SortedByY(r)
    ensures multiset(r) == multiset(s)
  {
    var a := CompareSwap(s, 0);
    var b := CompareSwap(a, 1);
    var c := CompareSwap(b, 0);
    assert b[2].y >= a[0].y && b[2].y >= a[1].y;
    assert c[1].y <= c[2].y by {
      assert c[1] == b[0] || c[1] == b[1];
      assert b[0] == a[0];
    }
    c
  }

  /** The swaps of `renderTriangle` on its copy of the vertex array. */
  method SortVertices(v: array<Vertex2>)
    requires v.Length == 3
    modifies v
    ensures v[..] == SortByY(old(v[..]))
  {
    SwapIfBelow(v, 0);
    SwapIfBelow(v, 1);
    SwapIfBelow(v, 0);
  }

  /** `if v[i].Y > v[i+1].Y { v[i], v[i+1] = v[i+1], v[i] }` */
  method SwapIfBelow(v: array<Vertex2>, i: int)
    requires 0 <= i < v.Length - 1
    modifies v
    ensures v[..] == CompareSwap(old(v[..]), i)
  {
    if v[i].y > v[i + 1].y {
      v[i], v[i + 1] := v[i + 1], v[i];
    }
  }

  /** A call `renderTriangle` makes: a flat-bottom or a flat-top fill with its three vertices. */
  datatype Fill = FlatBottom(a: Vertex2, b: Vertex2, c: Vertex2) | FlatTop(a: Vertex2, b: Vertex2, c: Vertex2)

  /**
   * The vertex where the horizontal line through the middle vertex meets the
   * long edge from the top vertex to the bottom one. The code computes it in
   * floating point and truncates toward zero; here the arithmetic is exact.
   */
  function SplitVertex(v0: Vertex2, v1: Vertex2, v2: Vertex2): (w: Vertex2)
    requires v0.y < v1.y < v2.y
    ensures w.y == v1.y
  {
    var num, den := v1.y - v0.y, v2.y - v0.y;
    Vertex2(
      v0.x + Quo(num * (v2.x - v0.x), den),
      v1.y,
      v0.u + Quo(num * (v2.u - v0.u), den),
      v0.v + Quo(num * (v2.v - v0.v), den))
  }

  /** A quotient by a positive divisor is at most d when the dividend is at most d times the divisor. */
  lemma QuotientAtMost(m: nat, den: int, d: int)
    requires den > 0 && m <= d * den
    ensures m / den <= d
  {
    var q := m / den;
    assert q * den <= m;
    if q > d {
      MulMonotone(d + 1, q, den);
    }
  }

  /** A fraction num / den of d, truncated toward zero, lies between 0 and d. */
  lemma FractionBetween(num: int, den: int, d: int)
    requires 0 < num < den
    ensures d >= 0 ==> 0 <= Quo(num * d, den) <= d
    ensures d < 0 ==> d <= Quo(num * d, den) <= 0
  {
    var e := Abs(d);
    MulMonotone(num, den, e);
    assert Abs(num * d) == num * e;
    QuotientAtMost(num * e, den, e);
  }

  /** The split vertex lies between the top and bottom vertices, in x and in both texture coordinates. */
  lemma SplitVertexBetween(v0: Vertex2, v1: Vertex2, v2: Vertex2)
    requires v0.y < v1.y < v2.y
    ensures var w := SplitVertex(v0, v1, v2);
      && Min(v0.x, v2.x) <= w.x <= v0.x + v2.x - Min(v0.x, v2.x)
      && Min(v0.u, v2.u) <= w.u <= v0.u + v2.u - Min(v0.u, v2.u)
      && Min(v0.v, v2.v) <= w.v <= v0.v + v2.v - Min(v0.v, v2.v)
  {
    var num, den := v1.y - v0.y, v2.y - v0.y;
    FractionBetween(num, den, v2.x - v0.x);
    FractionBetween(num, den, v2.u - v0.u);
    FractionBetween(num, den, v2.v - v0.v);
  }

  /** The fills for vertices already in ascending y. */
  function Dispatch(s: seq<Vertex2>): (fills: seq<Fill>)
    requires |s| == 3 && SortedByY(s)
    ensures 1 <= |fills| <= 2
  {
    if s[1].y == s[2].y then [FlatBottom(s[0], s[1], s[2])]
    else if s[0].y == s[1].y then [FlatTop(s[0], s[1], s[2])]
    else
      var w := SplitVertex(s[0], s[1], s[2]);
      [FlatBottom(s[0], w, s[1]), FlatTop(w, s[1], s[2])]
  }

  /** What each fill assumes of its vertices: a flat-bottom one a flat lower edge, a flat-top one a flat upper edge. */
  predicate FillIsFlat(f: Fill) {
    match f
    case FlatBottom(a, b, c) => a.y <= b.y == c.y
    case FlatTop(a, b, c) => a.y == b.y <= c.y
  }

  /** The topmost and bottommost rows a fill covers. */
  function TopRow(f: Fill): int { f.a.y }
  function BottomRow(f: Fill): int { f.c.y }

  /**
   * `renderTriangle`: sorts its copy of the vertices and returns the fills it
   * calls.
   */
  method RenderTriangle(tri: seq<Vertex2>) returns (fills: seq<Fill>)
    requires |tri| == 3
    ensures fills == Dispatch(SortByY(tri))
  {
    var v := new Vertex2[3](i requires 0 <= i < 3 => tri[i]);
    assert v[..] == tri;
    SortVertices(v);
    if v[1].y == v[2].y {
      fills := [FlatBottom(v[0], v[1], v[2])];
    } else if v[0].y == v[1].y {
      fills := [FlatTop(v[0], v[1], v[2])];
    } else {
      var num, den := v[1].y - v[0].y, v[2].y - v[0].y;
      var x := v[0].x + Quo(num * (v[2].x - v[0].x), den);
      var a := v[0].u + Quo(num * (v[2].u - v[0].u), den);
      var b := v[0].v + Quo(num * (v[2].v - v[0].v), den);
      fills := [FlatBottom(v[0], Vertex2(x, v[1].y, a, b), v[1]), FlatTop(Vertex2(x, v[1].y, a, b), v[1], v[2])];
    }
  }

  /**
   * Every fill gets the vertex layout it assumes; the fills run from the
   * topmost input row to the bottommost one, and with two fills the first
   * ends on the row where the second starts, the middle vertex's row.
   */
  lemma DispatchCovers(tri: seq<Vertex2>)
    requires |tri| == 3
    ensures var s := SortByY(tri);
      var fills := Dispatch(s);
      && (forall i :: 0 <= i < |fills| ==> FillIsFlat(fills[i]))
      && TopRow(fills[0]) == s[0].y && BottomRow(fills[|fills| - 1]) == s[2].y
      && (|fills| == 2 ==> BottomRow(fills[0]) == TopRow(fills[1]) == s[1].y && s[0].y < s[1].y < s[2].y)
      && (|fills| == 1 ==> s[0].y == s[1].y || s[1].y == s[2].y)
  {
  }

  /** The sorted vertices' rows are the lowest, middle and highest of the input rows. */
  lemma SortByYRows(tri: seq<Vertex2>)
    requires |tri| == 3
    ensures var s := SortByY(tri);
      && (forall i :: 0 <= i < 3 ==> s[0].y <= tri[i].y <= s[2].y)
      && (exists i :: 0 <= i < 3 && tri[i] == s[0])
      && (exists i :: 0 <= i < 3 && tri[i] == s[2])
  {
    var s := SortByY(tri);
    forall i | 0 <= i < 3
      ensures s[0].y <= tri[i].y <= s[2].y
    {
      assert tri[i] in multiset(s);
    }
    assert s[0] in multiset(tri) && s[2] in multiset(tri);
  }
}
