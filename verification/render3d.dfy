/**
 * The integer raster primitives of core/render_3d.go: painting a clipped
 * square, drawing a line pixel by pixel, and the nearest-first order of the
 * 16x16x16 grid positions. An image is a width x height array of colours
 * indexed [x, y]; `CombineColors` and the camera distance are parameters.
 */
module Render3D {
  import opened GoInt
  import opened Colors
  import opened Vectors
  import opened Cells
  import opened Bresenham
  import opened Canvas

  /** The offsets `DrawBox2D` loops over: from `-size / 2` to `size / 2`, with Go's truncating division. */
  function BoxLow(size: int): int { Quo(-size, 2) }
  function BoxHigh(size: int): int { Quo(size, 2) }

  /** (px, py) is in the square of `DrawBox2D` centred on (x, y). */
  predicate InSquare(x: int, y: int, size: int, px: int, py: int) {
    BoxLow(size) <= px - x <= BoxHigh(size) && BoxLow(size) <= py - y <= BoxHigh(size)
  }

  /** A square of size 1 is the centre pixel alone; so is one of size -1. */
  lemma UnitSquare(x: int, y: int, px: int, py: int)
    ensures InSquare(x, y, 1, px, py) <==> px == x && py == y
    ensures InSquare(x, y, -1, px, py) <==> px == x && py == y
  {
    assert Quo(-1, 2) == 0 && Quo(1, 2) == 0;
  }

  /** For an even size the square reaches size / 2 on both sides, so it is size + 1 pixels wide. */
  lemma SquareSpan(size: nat)
    ensures BoxLow(size) == -(size / 2) && BoxHigh(size) == size / 2
  {
  }

  /** Painted so far by `DrawBox2D`: offsets before column i, and column i before row j. */
  ghost predicate BoxPainted(x: int, y: int, size: int, px: int, py: int, i: int, j: int) {
    && InSquare(x, y, size, px, py)
    && (px - x < i || (px - x == i && py - y < j))
  }

  /**
   * `DrawBox2D`: every pixel of the square that lies inside the image is
   * combined with `col` once; no other pixel changes.
   */
  method DrawBox2D(x: int, y: int, size: int, col: RGBA, img: array2<RGBA>, combine: (RGBA, RGBA) -> RGBA)
    modifies img
    ensures forall px, py :: InImage(img, px, py) ==>
      img[px, py] == if InSquare(x, y, size, px, py) then combine(col, old(img[px, py])) else old(img[px, py])
  {
    var lo, hi := Quo(-size, 2), Quo(size, 2);
    var i := lo;
    while i <= hi
      invariant lo <= i && (i <= hi + 1 || i == lo)
      invariant forall px, py :: InImage(img, px, py) ==>
        img[px, py] == if BoxPainted(x, y, size, px, py, i, lo) then combine(col, old(img[px, py])) else old(img[px, py])
    {
      var j := lo;
      while j <= hi
        invariant lo <= j <= hi + 1
        invariant forall px, py :: InImage(img, px, py) ==>
          img[px, py] == if BoxPainted(x, y, size, px, py, i, j) then combine(col, old(img[px, py])) else old(img[px, py])
      {
        var px, py := x + i, y + j;
        if px >= 0 && px < img.Length0 && py >= 0 && py < img.Length1 {
          var currentColor := img[px, py];
          var newColor := combine(col, currentColor);
          img[px, py] := newColor;
        }
        j := j + 1;
      }
      i := i + 1;
    }
  }

  /** The pixels `DrawLine` draws, in order. */
  ghost function LinePixels(x0: int, y0: int, x1: int, y1: int): seq<(int, int)> {
    Pixels(Line(Inclusive, x0, y0, x1, y1))
  }

  /**
   * `DrawLine` on integer end points: each pixel of the line that lies inside
   * the image is combined with `col` once (the line never revisits a pixel);
   * no other pixel changes.
   */
  method DrawLine(img: array2<RGBA>, x0: int, y0: int, x1: int, y1: int, col: RGBA, combine: (RGBA, RGBA) -> RGBA)
    modifies img
    ensures forall px, py :: InImage(img, px, py) ==>
      img[px, py] == if (px, py) in LinePixels(x0, y0, x1, y1) then combine(col, old(img[px, py])) else old(img[px, py])
  {
    ghost var l := Line(Inclusive, x0, y0, x1, y1);
    var dx: int := Abs(x1 - x0);
    var sx := -1;
    if x0 < x1 {
      sx := 1;
    }
    var dy: int := Abs(y1 - y0);
    dy := -dy;
    var sy := -1;
    if y0 < y1 {
      sy := 1;
    }
    var err := dx + dy;
    var x, y := x0, y0;
    StartOnTrack(l);
    ghost var drawn: seq<(int, int)> := [];
    ghost var pixels := Pixels(l);
    while true
      invariant dx == l.Dx() && dy == -l.Dy() && sx == l.Sx() && sy == l.Sy()
      invariant OnTrack(l, Pen(x, y, err))
      invariant pixels == drawn + Path(l, Pen(x, y, err))
      invariant forall k :: 0 <= k < |drawn| ==> Reach(l, drawn[k]) < Reach(l, (x, y))
      invariant forall px, py :: InImage(img, px, py) ==>
        img[px, py] == if (px, py) in drawn then combine(col, old(img[px, py])) else old(img[px, py])
      decreases Remaining(l, Pen(x, y, err))
    {
      assert (x, y) !in drawn;
      UnitSquareAll(x, y);
      DrawBox2D(x, y, 1, col, img, combine);
      if x == x1 && y == y1 {
        drawn := drawn + [(x, y)];
        break;
      }
      ghost var pen := Pen(x, y, err);
      AdvanceOnTrack(l, pen);
      PathUnfold(l, pen);
      x, y, err := StepPen(l, x, y, err, dx, dy, sx, sy);
      assert Reach(l, (pen.x, pen.y)) < Reach(l, (x, y));
      assert drawn + Path(l, pen) == (drawn + [(pen.x, pen.y)]) + Path(l, Pen(x, y, err));
      drawn := drawn + [(pen.x, pen.y)];
    }
  }

  /** The error update of one pass of `DrawLine`'s loop: x moves when 2 err >= dy, y when 2 err <= dx. */
  method StepPen(ghost l: Line, x: int, y: int, err: int, dx: int, dy: int, sx: int, sy: int)
    returns (x': int, y': int, err': int)
    requires l.variant == Inclusive
    requires dx == l.Dx() && dy == -l.Dy() && sx == l.Sx() && sy == l.Sy()
    ensures Pen(x', y', err') == Advance(l, Pen(x, y, err))
  {
    x', y', err' := x, y, err;
    var e2 := 2 * err;
    if e2 >= dy {
      err' := err' + dy;
      x' := x' + sx;
    }
    if e2 <= dx {
      err' := err' + dx;
      y' := y' + sy;
    }
  }

  lemma UnitSquareAll(x: int, y: int)
    ensures forall px, py :: InSquare(x, y, 1, px, py) <==> px == x && py == y
  {
    assert Quo(-1, 2) == 0 && Quo(1, 2) == 0;
  }

  /** A grid position with its distance from the camera (`BlockDistance`). */
  datatype BlockDistance = BlockDistance(position: Vec3, distance: real)

  /** The k-th position `GetSortedBlockPositions` generates: x outermost, z innermost. */
  function GridPoint(k: int): (p: Vec3)
    requires 0 <= k < CellCount
    ensures InBox(p, Vec3(0, 0, 0), Vec3(16, 16, 16))
  {
    var q := PositionOf(k);
    Vec3(q.z, q.y, q.x)
  }

  /** The position (x, y, z) is generated at step x * 256 + y * 16 + z. */
  lemma GridPointAt(x: int, y: int, z: int)
    requires 0 <= x < 16 && 0 <= y < 16 && 0 <= z < 16
    ensures 0 <= x * 256 + y * 16 + z < CellCount
    ensures GridPoint(x * 256 + y * 16 + z) == Vec3(x, y, z)
  {
    PositionOfIndex(Vec3(z, y, x));
  }

  /** The blocks in the order they are appended, before sorting. */
  function Generated(distance: Vec3 -> real): (blocks: seq<BlockDistance>)
    ensures |blocks| == CellCount
  {
    seq(CellCount, k requires 0 <= k < CellCount => BlockDistance(GridPoint(k), distance(GridPoint(k))))
  }

  predicate SortedByDistance(s: seq<BlockDistance>) {
    forall i, j :: 0 <= i < j < |s| ==> s[i].distance <= s[j].distance
  }

  /**
   * `GetSortedBlockPositions`: every position of the 16x16x16 grid with its
   * distance from the camera, nearest first. `distance` stands for the
   * Euclidean distance to the camera's origin.
   */
  method GetSortedBlockPositions(distance: Vec3 -> real) returns (blocks: seq<BlockDistance>)
    ensures SortedByDistance(blocks)
    ensures multiset(blocks) == multiset(Generated(distance))
  {
    var generated := GenerateBlocks(distance);
    var a := new BlockDistance[|generated|](k requires 0 <= k < |generated| => generated[k]);
    assert a[..] == generated;
    SortByDistance(a);
    blocks := a[..];
  }

  /** The three nested loops that append the grid positions. */
  method GenerateBlocks(distance: Vec3 -> real) returns (blocks: seq<BlockDistance>)
    ensures blocks == Generated(distance)
  {
    blocks := [];
    var gridSize := 16;
    for x := 0 to gridSize
      invariant |blocks| == x * 256
      invariant forall k :: 0 <= k < |blocks| ==> blocks[k] == Generated(distance)[k]
    {
      for y := 0 to gridSize
        invariant |blocks| == x * 256 + y * 16
        invariant forall k :: 0 <= k < |blocks| ==> blocks[k] == Generated(distance)[k]
      {
        for z := 0 to gridSize
          invariant |blocks| == x * 256 + y * 16 + z
          invariant forall k :: 0 <= k < |blocks| ==> blocks[k] == Generated(distance)[k]
        {
          var p := Vec3(x, y, z);
          GridPointAt(x, y, z);
          blocks := blocks + [BlockDistance(p, distance(p))];
        }
      }
    }
  }

  /**
   * `sort.Sort(ByDistance(blocks))`: the blocks are reordered so that the
   * distances do not decrease. Go's sort is not stable, so only a sorted
   * permutation is promised; the insertion sort here keeps that promise.
   */
  method SortByDistance(a: array<BlockDistance>)
    modifies a
    ensures SortedByDistance(a[..])
    ensures multiset(a[..]) == multiset(old(a[..]))
  {
    for i := 0 to a.Length
      invariant SortedByDistance(a[..i])
      invariant multiset(a[..]) == multiset(old(a[..]))
    {
      var j := i;
      while j > 0 && a[j - 1].distance > a[j].distance
        invariant 0 <= j <= i
        invariant multiset(a[..]) == multiset(old(a[..]))
        invariant forall m, n :: 0 <= m < n <= i && m != j && n != j ==> a[m].distance <= a[n].distance
        invariant forall n :: j < n <= i ==> a[j].distance < a[n].distance
      {
        SwapDown(a, j);
        j := j - 1;
      }
    }
  }

  /** `ByDistance.Swap(j - 1, j)`. */
  method SwapDown(a: array<BlockDistance>, j: int)
    requires 0 < j < a.Length
    modifies a
    ensures a[j - 1] == old(a[j]) && a[j] == old(a[j - 1])
    ensures forall k :: 0 <= k < a.Length && k != j - 1 && k != j ==> a[k] == old(a[k])
    ensures multiset(a[..]) == multiset(old(a[..]))
  {
    a[j - 1], a[j] := a[j], a[j - 1];
  }

  /** Distinct steps generate distinct positions. */
  lemma GridPointInjective(i: int, j: int)
    requires 0 <= i < CellCount && 0 <= j < CellCount
    ensures GridPoint(i) == GridPoint(j) ==> i == j
  {
    var p, q := PositionOf(i), PositionOf(j);
    assert GetIndex(p) == i && GetIndex(q) == j;
  }

  /**
   * Before sorting: every position of the grid is generated, no position
   * twice, each with its own distance.
   */
  lemma GeneratedCoversGrid(distance: Vec3 -> real)
    ensures forall p :: InBox(p, Vec3(0, 0, 0), Vec3(16, 16, 16)) ==>
      Generated(distance)[p.x * 256 + p.y * 16 + p.z].position == p
    ensures forall i, j :: 0 <= i < j < CellCount ==> Generated(distance)[i].position != Generated(distance)[j].position
    ensures forall k :: 0 <= k < CellCount ==> Generated(distance)[k].distance == distance(Generated(distance)[k].position)
  {
    var g := Generated(distance);
    forall p | InBox(p, Vec3(0, 0, 0), Vec3(16, 16, 16))
      ensures g[p.x * 256 + p.y * 16 + p.z].position == p
    {
      GridPointAt(p.x, p.y, p.z);
    }
    forall i, j | 0 <= i < j < CellCount
      ensures g[i].position != g[j].position
    {
      GridPointInjective(i, j);
    }
  }

  /** Every generated block is a grid position paired with its own distance. */
  lemma GeneratedMember(distance: Vec3 -> real, e: BlockDistance)
    requires e in multiset(Generated(distance))
    ensures InBox(e.position, Vec3(0, 0, 0), Vec3(16, 16, 16)) && e.distance == distance(e.position)
  {
    var g := Generated(distance);
    assert e in g;
    var k :| 0 <= k < |g| && g[k] == e;
    assert e.position == GridPoint(k);
  }

  /** No block is generated twice. */
  lemma GeneratedCountsOnce(distance: Vec3 -> real, e: BlockDistance)
    ensures multiset(Generated(distance))[e] <= 1
  {
    GeneratedCoversGrid(distance);
    DistinctCountsOnce(Generated(distance), e);
  }

  /** A value at two indices is counted at least twice. */
  lemma RepeatCountsTwice<T>(s: seq<T>, i: int, j: int)
    requires 0 <= i < j < |s|
    ensures s[i] == s[j] ==> multiset(s)[s[i]] >= 2
  {
    assert s == s[..j] + s[j..];
    assert s[..j][i] == s[i] && s[j..][0] == s[j];
  }

  /** In a sequence without repeats every value is counted at most once. */
  lemma {:induction false} DistinctCountsOnce<T>(s: seq<T>, x: T)
    requires forall i, j :: 0 <= i < j < |s| ==> s[i] != s[j]
    ensures multiset(s)[x] <= 1
  {
    if s != [] {
      var last := |s| - 1;
      assert s == s[..last] + [s[last]];
      DistinctCountsOnce(s[..last], x);
      if x == s[last] {
        assert x !in s[..last];
      }
    }
  }

  /** After sorting the result still has one block per grid position. */
  lemma SortedBlocksCount(distance: Vec3 -> real, blocks: seq<BlockDistance>)
    requires multiset(blocks) == multiset(Generated(distance))
    ensures |blocks| == CellCount
  {
    assert |blocks| == |multiset(blocks)| == |multiset(Generated(distance))| == CellCount;
  }

  /** After sorting every position of the grid is still there. */
  lemma SortedBlocksCoverGrid(distance: Vec3 -> real, blocks: seq<BlockDistance>)
    requires multiset(blocks) == multiset(Generated(distance))
    ensures forall p :: InBox(p, Vec3(0, 0, 0), Vec3(16, 16, 16)) ==> exists k :: 0 <= k < |blocks| && blocks[k].position == p
  {
    var g := Generated(distance);
    forall p | InBox(p, Vec3(0, 0, 0), Vec3(16, 16, 16))
      ensures exists k :: 0 <= k < |blocks| && blocks[k].position == p
    {
      GridPointAt(p.x, p.y, p.z);
      var e := g[p.x * 256 + p.y * 16 + p.z];
      assert e in multiset(g);
      var k :| 0 <= k < |blocks| && blocks[k] == e;
    }
  }

  /** After sorting every block is still a grid position with its own distance, and none repeats. */
  lemma SortedBlocksDistinct(distance: Vec3 -> real, blocks: seq<BlockDistance>)
    requires multiset(blocks) == multiset(Generated(distance))
    ensures forall k :: 0 <= k < |blocks| ==>
      InBox(blocks[k].position, Vec3(0, 0, 0), Vec3(16, 16, 16)) && blocks[k].distance == distance(blocks[k].position)
    ensures forall i, j :: 0 <= i < j < |blocks| ==> blocks[i].position != blocks[j].position
  {
    forall k | 0 <= k < |blocks|
      ensures InBox(blocks[k].position, Vec3(0, 0, 0), Vec3(16, 16, 16)) && blocks[k].distance == distance(blocks[k].position)
    {
      assert blocks[k] in multiset(blocks);
      GeneratedMember(distance, blocks[k]);
    }
    forall i, j | 0 <= i < j < |blocks|
      ensures blocks[i].position != blocks[j].position
    {
      RepeatCountsTwice(blocks, i, j);
      GeneratedCountsOnce(distance, blocks[i]);
    }
  }
}
