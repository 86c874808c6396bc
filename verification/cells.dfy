/**
 * The 16x16x16 grid of the 3D world (core/world.go) as a sequence of 4096
 * cells: index arithmetic and reading a cell.
 */
module Cells {
  import opened Vectors
  import opened Blocks

  const WorldWidth: int := 16
  const WorldHeight: int := 16
  const WorldDepth: int := 16
  const CellCount: int := 4096

  /** The cells of a world, stored z-major, then y, then x. */
  type Cells = s: seq<Block> | |s| == 4096 witness seq(4096, _ => Air)

  /** A position the world can hold: `InRange` against [0, 16) reports it as not out of range. */
  predicate InGrid(p: Vec3) {
    !InRange(p, FromScalar(0), FromScalar(16))
  }

  /** `World.GetIndex`: z * 16 * 16 + y * 16 + x. */
  function GetIndex(p: Vec3): int {
    p.z * 256 + p.y * 16 + p.x
  }

  /** Every position of the grid gets an index inside the cell array. */
  lemma IndexInGrid(p: Vec3)
    requires InGrid(p)
    ensures 0 <= GetIndex(p) < CellCount
  {
  }

  /** The coordinates can be read back from the index. */
  lemma IndexDecodes(p: Vec3)
    requires InGrid(p)
    ensures GetIndex(p) % 16 == p.x
    ensures (GetIndex(p) / 16) % 16 == p.y
    ensures (GetIndex(p) / 16) / 16 == p.z
  {
    var row := p.z * 16 + p.y;
    assert GetIndex(p) == row * 16 + p.x;
    assert GetIndex(p) / 16 == row;
  }

  /** Distinct positions of the grid get distinct indices. */
  lemma IndexInjective(p: Vec3, q: Vec3)
    requires InGrid(p) && InGrid(q)
    ensures GetIndex(p) == GetIndex(q) <==> p == q
  {
    IndexDecodes(p);
    IndexDecodes(q);
  }

  /** The position stored at index i; GetIndex undoes it. */
  function PositionOf(i: int): (p: Vec3)
    requires 0 <= i < CellCount
    ensures InGrid(p) && GetIndex(p) == i
  {
    var row := i / 16;
    assert i == row * 16 + i % 16;
    assert row == (row / 16) * 16 + row % 16;
    Vec3(i % 16, row % 16, row / 16)
  }

  /** Every position of the grid is stored at exactly one index. */
  lemma PositionOfIndex(p: Vec3)
    requires InGrid(p)
    ensures PositionOf(GetIndex(p)) == p
  {
    IndexInGrid(p);
    IndexInjective(PositionOf(GetIndex(p)), p);
  }

  /**
   * `World.GetBlock`: air outside the grid, otherwise the stored block (an
   * empty cell is stored as air, so it also reads as air).
   */
  function BlockAt(cells: Cells, p: Vec3): (b: Block)
    ensures !InGrid(p) ==> b == Air
    ensures InGrid(p) ==> 0 <= GetIndex(p) < CellCount && b == cells[GetIndex(p)]
  {
    if InRange(p, FromScalar(0), FromScalar(16)) then Air else cells[GetIndex(p)]
  }

  /** After storing b at p, reading p gives b and reading anywhere else gives what was there. */
  lemma BlockAtAfterStore(cells: Cells, p: Vec3, b: Block, q: Vec3)
    requires InGrid(p)
    ensures 0 <= GetIndex(p) < CellCount
    ensures BlockAt(cells[GetIndex(p) := b], q) == if q == p then b else BlockAt(cells, q)
  {
    if InGrid(q) {
      IndexInjective(p, q);
    }
  }
}
