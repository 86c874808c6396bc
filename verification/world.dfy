/**
 * `World` (core/world.go): a fixed array of 4096 cells, written in place by
 * `SetBlock`, and `UpdateWorld`, which fills a fresh world from the old one
 * and then replaces the old one with it.
 */
module WorldModel {
  import opened Vectors
  import opened Blocks
  import opened Cells
  import opened BlockUpdates

  class World {
    var blocks: array<Block>

    ghost predicate Valid()
      reads this
    {
      blocks.Length == CellCount
    }

    /** The current cells. */
    ghost function Contents(): Cells
      reads this, blocks
      requires Valid()
    {
      blocks[..]
    }

    /** `World{}`: every cell empty, which reads as air. */
    constructor ()
      ensures Valid() && fresh(blocks)
      ensures forall i :: 0 <= i < CellCount ==> blocks[i] == Air
    {
      blocks := new Block[CellCount](_ => Air);
    }

    /** `GetBlock`: air outside the grid, otherwise the stored block. */
    function GetBlock(p: Vec3): (b: Block)
      reads this, blocks
      requires Valid()
      ensures b == BlockAt(Contents(), p)
    {
      if InRange(p, FromScalar(0), FromScalar(16)) then Air else blocks[GetIndex(p)]
    }

    /**
     * `SetBlock`: refuses a position outside the grid and changes nothing;
     * otherwise stores b at p and leaves every other cell alone.
     */
    method SetBlock(p: Vec3, b: Block) returns (ok: bool)
      requires Valid()
      modifies blocks
      ensures ok <==> InGrid(p)
      ensures ok ==> 0 <= GetIndex(p) < CellCount && blocks[..] == old(blocks[..])[GetIndex(p) := b]
      ensures !ok ==> blocks[..] == old(blocks[..])
    {
      if InRange(p, FromScalar(0), FromScalar(16)) {
        return false;
      }
      blocks[GetIndex(p)] := b;
      return true;
    }

    /** Replaces every cell in place: the effect of a whole-world update whose rules are not part of this model. */
    method Overwrite(cells: Cells)
      requires Valid()
      modifies blocks
      ensures Contents() == cells
    {
      forall i | 0 <= i < CellCount {
        blocks[i] := cells[i];
      }
    }

    /** `UpdateBlock`: the block at p updated against the current world. */
    method UpdateBlock(p: Vec3) returns (b: Block, hasUpdated: bool)
      requires Valid()
      ensures (b, hasUpdated) == UpdateAt(Contents(), p)
    {
      b := GetBlock(p);
      if b.RedstoneTorch? {
        b, hasUpdated := TorchUpdate(b, p, blocks[..]).0, TorchUpdate(b, p, blocks[..]).1;
      } else if b.RedstoneLamp? {
        b, hasUpdated := LampUpdate(b, p, blocks[..]);
      } else {
        hasUpdated := false;
      }
    }

    /**
     * `UpdateWorld`: visit x, then y, then z, update each cell against the
     * old world into a fresh world, count the updates, then replace the world.
     */
    method UpdateWorld() returns (numUpdates: int)
      requires Valid()
      modifies this
      ensures Valid() && fresh(blocks)
      ensures Contents() == NextCells(old(Contents()))
      ensures numUpdates == CountUpdates(old(Contents()), CellCount)
    {
      ghost var cells := Contents();
      ghost var flags := VisitFlags(cells);
      var nextWorld := new World();
      assert Filled(cells, nextWorld.blocks[..], 0);
      numUpdates := 0;
      for x := 0 to 16
        invariant nextWorld.Valid() && fresh(nextWorld.blocks) && blocks == old(blocks) && Contents() == cells
        invariant numUpdates == CountTrue(flags, x * 256)
        invariant Filled(cells, nextWorld.blocks[..], x * 256)
      {
        for y := 0 to 16
          invariant nextWorld.Valid() && fresh(nextWorld.blocks) && blocks == old(blocks) && Contents() == cells
          invariant numUpdates == CountTrue(flags, x * 256 + y * 16)
          invariant Filled(cells, nextWorld.blocks[..], x * 256 + y * 16)
        {
          for z := 0 to 16
            invariant nextWorld.Valid() && fresh(nextWorld.blocks) && blocks == old(blocks) && Contents() == cells
            invariant numUpdates == CountTrue(flags, x * 256 + y * 16 + z)
            invariant Filled(cells, nextWorld.blocks[..], x * 256 + y * 16 + z)
          {
            var hasUpdated := UpdateInto(nextWorld, Vec3(x, y, z), cells, flags);
            if hasUpdated {
              numUpdates := numUpdates + 1;
            }
          }
        }
      }
      FullyVisited(cells, nextWorld.blocks[..]);
      blocks := nextWorld.blocks;
    }

    /** One step of `UpdateWorld`: the update of p is stored into next and its flag returned. */
    method UpdateInto(next: World, p: Vec3, ghost cells: Cells, ghost flags: seq<bool>) returns (hasUpdated: bool)
      requires Valid() && next.Valid() && next.blocks != blocks && InGrid(p)
      requires cells == Contents() && FlagsOf(cells, flags)
      requires Filled(cells, next.blocks[..], VisitOrdinal(p))
      modifies next.blocks
      ensures Filled(cells, next.blocks[..], VisitOrdinal(p) + 1)
      ensures 0 <= VisitOrdinal(p) < CellCount && hasUpdated == flags[VisitOrdinal(p)]
    {
      var block;
      block, hasUpdated := UpdateBlock(p);
      VisitOrdinalDecodes(p);
      ghost var before := next.blocks[..];
      var _ := next.SetBlock(p, block);
      VisitedStep(cells, p, before, next.blocks[..]);
    }
  }

  /** flags[k] is the update flag of the k-th position visited. */
  ghost predicate FlagsOf(cells: Cells, flags: seq<bool>) {
    && |flags| == CellCount
    && forall k {:trigger UpdateAt(cells, VisitPosition(k))} ::
         0 <= k < CellCount ==> flags[k] == UpdateAt(cells, VisitPosition(k)).1
  }

  /** The flags `UpdateWorld` counts, whose total is the number of updates. */
  lemma VisitFlags(cells: Cells) returns (flags: seq<bool>)
    ensures FlagsOf(cells, flags)
    ensures CountTrue(flags, CellCount) == CountUpdates(cells, CellCount)
  {
    flags := UpdateFlags(cells);
  }

  /** The fresh world holds the updates of the first n visited positions and air elsewhere. */
  ghost predicate Filled(cells: Cells, next: seq<Block>, n: int) {
    && |next| == CellCount
    && forall i {:trigger next[i]} :: 0 <= i < CellCount ==> next[i] == Visited(cells, PositionOf(i), n)
  }

  /** What the fresh world holds at p once the first n positions have been visited. */
  ghost function Visited(cells: Cells, p: Vec3, n: int): Block {
    if VisitOrdinal(p) < n then UpdateAt(cells, p).0 else Air
  }

  /** Storing p's update extends the visited part by p. */
  lemma VisitedStep(cells: Cells, p: Vec3, before: seq<Block>, after: seq<Block>)
    requires InGrid(p) && Filled(cells, before, VisitOrdinal(p))
    requires 0 <= GetIndex(p) < CellCount && after == before[GetIndex(p) := UpdateAt(cells, p).0]
    ensures Filled(cells, after, VisitOrdinal(p) + 1)
  {
    forall i | 0 <= i < CellCount
      ensures after[i] == Visited(cells, PositionOf(i), VisitOrdinal(p) + 1)
    {
      var q := PositionOf(i);
      IndexInjective(p, q);
      VisitOrdinalDecodes(p);
      VisitOrdinalDecodes(q);
    }
  }

  /** Once every position is visited, the fresh world is the next world. */
  lemma FullyVisited(cells: Cells, next: seq<Block>)
    requires Filled(cells, next, CellCount)
    ensures next == NextCells(cells)
  {
    forall i | 0 <= i < CellCount
      ensures next[i] == NextCells(cells)[i]
    {
      VisitOrdinalDecodes(PositionOf(i));
    }
  }
}
