/**
 * The 2D redstone-torch prototype (core2/main.go): an int8-coded block grid
 * held twice, in `Blocks0` and `Blocks1`; each step computes the next buffer
 * from the current one, and the parity of `Iteration` says which is which.
 */
module Redstone2D {

  datatype Direction = Left | Right | Up | Down

  datatype Vec2i = Vec2i(x: int, y: int)

  datatype Power = On | Off

  /** The ten block codes, in their `iota` order 0..9. */
  datatype Block =
    | Air
    | RedstoneTorchOnLeft | RedstoneTorchOnRight | RedstoneTorchOnUp | RedstoneTorchOnDown
    | RedstoneTorchOffLeft | RedstoneTorchOffRight | RedstoneTorchOffUp | RedstoneTorchOffDown
    | RedstoneBlock

  function Opposite(d: Direction): (r: Direction)
    ensures r != d
  {
    match d
    case Left => Right
    case Right => Left
    case Up => Down
    case Down => Up
  }

  /** A unit step along one axis; Up is +y. */
  function ToVector(d: Direction): (v: Vec2i)
    ensures (v.x == 0) != (v.y == 0)
    ensures -1 <= v.x <= 1 && -1 <= v.y <= 1
  {
    match d
    case Left => Vec2i(-1, 0)
    case Right => Vec2i(1, 0)
    case Up => Vec2i(0, 1)
    case Down => Vec2i(0, -1)
  }

  lemma OppositeInvolution(d: Direction)
    ensures Opposite(Opposite(d)) == d
  {
  }

  lemma ToVectorOfOpposite(d: Direction)
    ensures ToVector(Opposite(d)) == Vec2i(-ToVector(d).x, -ToVector(d).y)
  {
    match d
    case Left =>
    case Right =>
    case Up =>
    case Down =>
  }

  predicate IsRedstoneTorch(b: Block) {
    || b == RedstoneTorchOnLeft || b == RedstoneTorchOnRight
    || b == RedstoneTorchOnUp || b == RedstoneTorchOnDown
    || b == RedstoneTorchOffLeft || b == RedstoneTorchOffRight
    || b == RedstoneTorchOffUp || b == RedstoneTorchOffDown
  }

  /** Panics in Go for a non-torch block, hence the precondition. */
  function GetPower(b: Block): Power
    requires IsRedstoneTorch(b)
  {
    match b
    case RedstoneTorchOnLeft | RedstoneTorchOnRight | RedstoneTorchOnUp | RedstoneTorchOnDown => On
    case _ => Off
  }

  /** Panics in Go for a non-torch block, hence the precondition. */
  function GetDirection(b: Block): Direction
    requires IsRedstoneTorch(b)
  {
    match b
    case RedstoneTorchOnLeft | RedstoneTorchOffLeft => Left
    case RedstoneTorchOnRight | RedstoneTorchOffRight => Right
    case RedstoneTorchOnUp | RedstoneTorchOffUp => Up
    case _ => Down
  }

  /** The power block b feeds into a neighbour that lies in `direction` from it. */
  function GetPowerInDirection(b: Block, direction: Direction): (p: Power)
    ensures b == RedstoneBlock ==> p == On
    ensures IsRedstoneTorch(b) ==>
              (p == On <==> GetPower(b) == On && GetDirection(b) != Opposite(direction))
    ensures b == Air ==> p == Off
  {
    if b == RedstoneBlock then On
    else if IsRedstoneTorch(b) && GetPower(b) == On && GetDirection(b) != Opposite(direction) then On
    else Off
  }

  /** The torch code for a power and a facing. */
  function BuildRedstoneTorch(power: Power, direction: Direction): (b: Block)
    ensures IsRedstoneTorch(b)
    ensures GetPower(b) == power && GetDirection(b) == direction
  {
    match (power, direction)
    case (On, Left) => RedstoneTorchOnLeft
    case (On, Right) => RedstoneTorchOnRight
    case (On, Up) => RedstoneTorchOnUp
    case (On, Down) => RedstoneTorchOnDown
    case (Off, Left) => RedstoneTorchOffLeft
    case (Off, Right) => RedstoneTorchOffRight
    case (Off, Up) => RedstoneTorchOffUp
    case (Off, Down) => RedstoneTorchOffDown
  }

  /** Every torch code is rebuilt from its own power and facing. */
  lemma TorchRoundTrip(b: Block)
    requires IsRedstoneTorch(b)
    ensures BuildRedstoneTorch(GetPower(b), GetDirection(b)) == b
  {
  }

  // ----- the grid, read through a buffer -----

  /**
   * y * width, written as repeated addition so that reasoning about rows stays
   * linear; ScaleIsProduct shows that it is the product.
   */
  function Scale(width: nat, y: int): int
    decreases if y < 0 then -y else y
  {
    if y == 0 then 0
    else if y > 0 then Scale(width, y - 1) + width
    else Scale(width, y + 1) - width
  }

  lemma {:induction false} ScaleIsProduct(width: nat, y: int)
    ensures Scale(width, y) == y * width
    decreases if y < 0 then -y else y
  {
    if y > 0 {
      ScaleIsProduct(width, y - 1);
    } else if y < 0 {
      ScaleIsProduct(width, y + 1);
    }
  }

  /** Rows start at non-negative offsets, and row a ends before row b starts when a < b. */
  lemma {:induction false} RowsOrdered(width: nat, a: int, b: int)
    requires 0 <= a <= b
    ensures 0 <= Scale(width, a) <= Scale(width, b)
    ensures a < b ==> Scale(width, a) + width <= Scale(width, b)
    decreases b, a
  {
    if a < b {
      RowsOrdered(width, a, b - 1);
    } else if a > 0 {
      RowsOrdered(width, a - 1, a);
    }
  }

  /** Row-major index of (x, y): x + y * width. */
  function GetIndex(width: nat, x: int, y: int): int {
    x + Scale(width, y)
  }

  /** The cells of a width x height grid have indices in [0, width * height). */
  lemma IndexInGrid(width: nat, height: nat, x: int, y: int)
    requires 0 <= x < width && 0 <= y < height
    ensures 0 <= GetIndex(width, x, y) < Scale(width, height)
  {
    RowsOrdered(width, y, height);
  }

  /** Distinct cells have distinct indices. */
  lemma IndexInjective(width: nat, x1: int, y1: int, x2: int, y2: int)
    requires 0 <= x1 < width && 0 <= x2 < width && 0 <= y1 && 0 <= y2
    requires GetIndex(width, x1, y1) == GetIndex(width, x2, y2)
    ensures x1 == x2 && y1 == y2
  {
    if y1 < y2 {
      RowsOrdered(width, y1, y2);
    } else if y2 < y1 {
      RowsOrdered(width, y2, y1);
    }
  }

  /** Outside the grid every position reads as Air; inside, the buffer is indexed. */
  function GetBlock(width: nat, height: nat, x: int, y: int, blocks: seq<Block>): (b: Block)
    requires |blocks| == Scale(width, height)
    ensures !(0 <= x < width && 0 <= y < height) ==> b == Air
    ensures 0 <= x < width && 0 <= y < height ==>
              0 <= GetIndex(width, x, y) < |blocks| && b == blocks[GetIndex(width, x, y)]
  {
    if x < 0 || x >= width || y < 0 || y >= height then Air
    else
      IndexInGrid(width, height, x, y);
      blocks[GetIndex(width, x, y)]
  }

  /** The torch at (x, y) flips when its power equals what its neighbour feeds it. */
  function UpdateRedstoneTorch(width: nat, height: nat, self: Block, x: int, y: int, blocks: seq<Block>): (r: (Block, bool))
    requires |blocks| == Scale(width, height)
    requires IsRedstoneTorch(self)
    ensures IsRedstoneTorch(r.0) && GetDirection(r.0) == GetDirection(self)
    ensures var v := ToVector(GetDirection(self));
            var input := GetPowerInDirection(GetBlock(width, height, x - v.x, y - v.y, blocks), GetDirection(self));
            r.1 <==> GetPower(self) == input
    ensures r.1 <==> r.0 != self
    ensures r.1 <==> GetPower(r.0) != GetPower(self)
  {
    var d0 := GetDirection(self);
    var v0 := ToVector(d0);
    var neighbour := GetBlock(width, height, x - v0.x, y - v0.y, blocks);
    var p0 := GetPower(self);
    var p1 := GetPowerInDirection(neighbour, d0);
    if p0 == Off && p1 == Off then
      TorchRoundTrip(self);
      (BuildRedstoneTorch(On, d0), true)
    else if p0 == On && p1 == On then
      TorchRoundTrip(self);
      (BuildRedstoneTorch(Off, d0), true)
    else
      (self, false)
  }

  /** Only torches change; every other cell is carried over. */
  function UpdateBlock(width: nat, height: nat, x: int, y: int, blocks: seq<Block>): (r: (Block, bool))
    requires |blocks| == Scale(width, height)
  {
    var self := GetBlock(width, height, x, y, blocks);
    if IsRedstoneTorch(self) then UpdateRedstoneTorch(width, height, self, x, y, blocks)
    else (self, false)
  }

  /**
   * A cell reports an update exactly when its block changes, and only a torch
   * can change; a torch keeps its facing.
   */
  lemma UpdateBlockChanges(width: nat, height: nat, x: int, y: int, blocks: seq<Block>)
    requires |blocks| == Scale(width, height)
    ensures var self := GetBlock(width, height, x, y, blocks);
            var r := UpdateBlock(width, height, x, y, blocks);
            && (r.1 <==> r.0 != self)
            && (!IsRedstoneTorch(self) ==> r == (self, false))
            && (IsRedstoneTorch(self) ==> IsRedstoneTorch(r.0) && GetDirection(r.0) == GetDirection(self))
  {
  }

  /** Number of updated cells in row y whose column is below x. */
  function RowUpdates(width: nat, height: nat, blocks: seq<Block>, y: int, x: nat): nat
    requires |blocks| == Scale(width, height)
  {
    if x == 0 then 0
    else RowUpdates(width, height, blocks, y, x - 1) + (if UpdateBlock(width, height, x - 1, y, blocks).1 then 1 else 0)
  }

  /** Number of updated cells in the rows below y. */
  function RowsUpdates(width: nat, height: nat, blocks: seq<Block>, y: nat): nat
    requires |blocks| == Scale(width, height)
  {
    if y == 0 then 0
    else RowsUpdates(width, height, blocks, y - 1) + RowUpdates(width, height, blocks, y - 1, width)
  }

  /** The first x cells of row y of the next grid. */
  function NextRow(width: nat, height: nat, blocks: seq<Block>, y: int, x: nat): (r: seq<Block>)
    requires |blocks| == Scale(width, height)
    ensures |r| == x
  {
    if x == 0 then []
    else NextRow(width, height, blocks, y, x - 1) + [UpdateBlock(width, height, x - 1, y, blocks).0]
  }

  /** The first y rows of the next grid. */
  function NextRows(width: nat, height: nat, blocks: seq<Block>, y: nat): (r: seq<Block>)
    requires |blocks| == Scale(width, height)
    ensures |r| == Scale(width, y)
  {
    if y == 0 then []
    else NextRows(width, height, blocks, y - 1) + NextRow(width, height, blocks, y - 1, width)
  }

  /** The next grid: what one step of `UpdateBlocks` writes into the next buffer. */
  function NextBlocks(width: nat, height: nat, blocks: seq<Block>): (next: seq<Block>)
    requires |blocks| == Scale(width, height)
    ensures |next| == |blocks|
  {
    NextRows(width, height, blocks, height)
  }

  lemma {:induction false} NextRowAt(width: nat, height: nat, blocks: seq<Block>, y: int, x: nat, xx: int)
    requires |blocks| == Scale(width, height)
    requires 0 <= xx < x
    ensures NextRow(width, height, blocks, y, x)[xx] == UpdateBlock(width, height, xx, y, blocks).0
  {
    if xx < x - 1 {
      NextRowAt(width, height, blocks, y, x - 1, xx);
    }
  }

  lemma {:induction false} NextRowsAt(width: nat, height: nat, blocks: seq<Block>, rows: nat, x: int, y: int)
    requires |blocks| == Scale(width, height)
    requires 0 <= x < width && 0 <= y < rows
    ensures 0 <= GetIndex(width, x, y) < Scale(width, rows)
    ensures NextRows(width, height, blocks, rows)[GetIndex(width, x, y)] == UpdateBlock(width, height, x, y, blocks).0
  {
    RowsOrdered(width, y, rows);
    if y == rows - 1 {
      NextRowAt(width, height, blocks, y, width, x);
    } else {
      NextRowsAt(width, height, blocks, rows - 1, x, y);
    }
  }

  /**
   * Every cell of the next grid is the update of the same cell, computed from
   * the current grid alone.
   */
  lemma NextBlocksAt(width: nat, height: nat, blocks: seq<Block>, x: int, y: int)
    requires |blocks| == Scale(width, height)
    requires 0 <= x < width && 0 <= y < height
    ensures 0 <= GetIndex(width, x, y) < |blocks|
    ensures NextBlocks(width, height, blocks)[GetIndex(width, x, y)] == UpdateBlock(width, height, x, y, blocks).0
  {
    NextRowsAt(width, height, blocks, height, x, y);
  }

  /** Every index of the grid is the index of some cell. */
  lemma {:induction false} IndexCovers(width: nat, height: nat, i: int) returns (x: int, y: int)
    requires 0 <= i < Scale(width, height)
    ensures 0 <= x < width && 0 <= y < height && GetIndex(width, x, y) == i
  {
    RowsOrdered(width, height - 1, height);
    if i < Scale(width, height - 1) {
      x, y := IndexCovers(width, height - 1, i);
    } else {
      x, y := i - Scale(width, height - 1), height - 1;
    }
  }

  /** A row prefix reports no update exactly when none of its cells reports one. */
  lemma {:induction false} RowNoUpdates(width: nat, height: nat, blocks: seq<Block>, y: int, x: nat)
    requires |blocks| == Scale(width, height)
    ensures RowUpdates(width, height, blocks, y, x) == 0
            <==> forall xx :: 0 <= xx < x ==> !UpdateBlock(width, height, xx, y, blocks).1
  {
    if x > 0 {
      RowNoUpdates(width, height, blocks, y, x - 1);
    }
  }

  /** The first y rows report no update exactly when none of their cells reports one. */
  lemma {:induction false} RowsNoUpdates(width: nat, height: nat, blocks: seq<Block>, y: nat)
    requires |blocks| == Scale(width, height)
    ensures RowsUpdates(width, height, blocks, y) == 0
            <==> forall xx, yy :: 0 <= xx < width && 0 <= yy < y ==> !UpdateBlock(width, height, xx, yy, blocks).1
  {
    if y > 0 {
      RowsNoUpdates(width, height, blocks, y - 1);
      RowNoUpdates(width, height, blocks, y - 1, width);
    }
  }

  /** The next grid equals the current one exactly when no cell reports an update. */
  lemma StableIffFixedPoint(width: nat, height: nat, blocks: seq<Block>)
    requires |blocks| == Scale(width, height)
    ensures (forall x, y :: 0 <= x < width && 0 <= y < height ==> !UpdateBlock(width, height, x, y, blocks).1)
            <==> NextBlocks(width, height, blocks) == blocks
  {
    var next := NextBlocks(width, height, blocks);
    if forall x, y :: 0 <= x < width && 0 <= y < height ==> !UpdateBlock(width, height, x, y, blocks).1 {
      forall i | 0 <= i < |blocks|
        ensures next[i] == blocks[i]
      {
        var x, y := IndexCovers(width, height, i);
        NextBlocksAt(width, height, blocks, x, y);
        UpdateBlockChanges(width, height, x, y, blocks);
      }
    } else {
      var x, y :| 0 <= x < width && 0 <= y < height && UpdateBlock(width, height, x, y, blocks).1;
      NextBlocksAt(width, height, blocks, x, y);
      UpdateBlockChanges(width, height, x, y, blocks);
      assert next[GetIndex(width, x, y)] != blocks[GetIndex(width, x, y)];
    }
  }

  /** A step counts zero updates exactly when it leaves the grid unchanged. */
  lemma NoUpdatesIffFixedPoint(width: nat, height: nat, blocks: seq<Block>)
    requires |blocks| == Scale(width, height)
    ensures RowsUpdates(width, height, blocks, height) == 0 <==> NextBlocks(width, height, blocks) == blocks
  {
    RowsNoUpdates(width, height, blocks, height);
    StableIffFixedPoint(width, height, blocks);
  }

  /**
   * What `RunIterations` computes from a current buffer and iteration count:
   * the final current buffer and iteration.
   */
  function Run(width: nat, height: nat, blocks: seq<Block>, iteration: int): (r: (seq<Block>, int))
    requires |blocks| == Scale(width, height)
    ensures |r.0| == |blocks|
    decreases 200 - iteration
  {
    if iteration >= 200 then (blocks, iteration)
    else
      var next := NextBlocks(width, height, blocks);
      if RowsUpdates(width, height, blocks, height) == 0 then (next, iteration + 1)
      else Run(width, height, next, iteration + 1)
  }

  /**
   * The run ends at iteration 200 at the latest, after at least one step when
   * it starts below 200, and either at 200 or on a grid the last step left unchanged.
   */
  lemma {:induction false} RunStops(width: nat, height: nat, blocks: seq<Block>, iteration: int)
    requires |blocks| == Scale(width, height)
    ensures iteration >= 200 ==> Run(width, height, blocks, iteration) == (blocks, iteration)
    ensures iteration < 200 ==> iteration < Run(width, height, blocks, iteration).1 <= 200
    ensures var r := Run(width, height, blocks, iteration);
            r.1 == iteration || r.1 == 200 || NextBlocks(width, height, r.0) == r.0
    decreases 200 - iteration
  {
    if iteration < 200 {
      var next := NextBlocks(width, height, blocks);
      if RowsUpdates(width, height, blocks, height) != 0 {
        RunStops(width, height, next, iteration + 1);
      } else {
        NoUpdatesIffFixedPoint(width, height, blocks);
      }
    }
  }

  /**
   * The double loop of `UpdateBlocks` (y outer, x inner): writes the update of
   * every cell of `blocks` into `updatedBlocks` and counts the cells that changed.
   */
  method FillNextBlocks(width: nat, height: nat, blocks: seq<Block>, updatedBlocks: array<Block>)
    returns (updateCount: nat)
    requires |blocks| == Scale(width, height) && updatedBlocks.Length == Scale(width, height)
    modifies updatedBlocks
    ensures updatedBlocks[..] == NextBlocks(width, height, blocks)
    ensures updateCount == RowsUpdates(width, height, blocks, height)
  {
    updateCount := 0;
    var y := 0;
    while y < height
      invariant 0 <= y <= height
      invariant updateCount == RowsUpdates(width, height, blocks, y)
      invariant 0 <= Scale(width, y) <= updatedBlocks.Length
      invariant updatedBlocks[..Scale(width, y)] == NextRows(width, height, blocks, y)
    {
      var rowCount := FillRow(width, height, blocks, updatedBlocks, y);
      updateCount := updateCount + rowCount;
      y := y + 1;
    }
    assert updatedBlocks[..] == updatedBlocks[..Scale(width, height)];
  }

  /** The inner loop of `UpdateBlocks`: row y, x ascending, after the rows already written. */
  method FillRow(width: nat, height: nat, blocks: seq<Block>, updatedBlocks: array<Block>, y: int)
    returns (rowCount: nat)
    requires |blocks| == Scale(width, height) && updatedBlocks.Length == Scale(width, height)
    requires 0 <= y < height
    modifies updatedBlocks
    ensures 0 <= Scale(width, y) && Scale(width, y + 1) <= updatedBlocks.Length
    ensures rowCount == RowUpdates(width, height, blocks, y, width)
    ensures updatedBlocks[..Scale(width, y + 1)]
            == old(updatedBlocks[..Scale(width, y)]) + NextRow(width, height, blocks, y, width)
  {
    RowsOrdered(width, y, height);
    ghost var s := Scale(width, y);
    ghost var done := updatedBlocks[..s];
    rowCount := 0;
    var x := 0;
    while x < width
      invariant 0 <= x <= width
      invariant rowCount == RowUpdates(width, height, blocks, y, x)
      invariant updatedBlocks[..s + x] == done + NextRow(width, height, blocks, y, x)
    {
      var r := UpdateBlock(width, height, x, y, blocks);
      ghost var before := updatedBlocks[..];
      updatedBlocks[GetIndex(width, x, y)] := r.0;
      assert updatedBlocks[..s + x + 1] == before[..s + x] + [r.0];
      if r.1 {
        rowCount := rowCount + 1;
      }
      x := x + 1;
    }
  }

  class State {
    var width: nat
    var height: nat
    var blocks0: array<Block>
    var blocks1: array<Block>
    var iteration: int

    ghost predicate Valid()
      reads this
    {
      && blocks0 != blocks1
      && blocks0.Length == Scale(width, height)
      && blocks1.Length == Scale(width, height)
    }

    /** Both buffers all Air, iteration 0. */
    constructor Initialise(width: nat, height: nat)
      ensures Valid()
      ensures this.width == width && this.height == height && iteration == 0
      ensures fresh(blocks0) && fresh(blocks1)
      ensures blocks0.Length == width * height
      ensures forall i :: 0 <= i < blocks0.Length ==> blocks0[i] == Air && blocks1[i] == Air
    {
      var n := width * height;
      ScaleIsProduct(width, height);
      this.width := width;
      this.height := height;
      blocks0 := new Block[n](_ => Air);
      blocks1 := new Block[n](_ => Air);
      iteration := 0;
    }

    function GetCurrentIterationBlocks(): (b: array<Block>)
      reads this
    {
      if iteration % 2 == 0 then blocks0 else blocks1
    }

    function GetNextIterationBlocks(): (b: array<Block>)
      reads this
    {
      if iteration % 2 == 0 then blocks1 else blocks0
    }

    /** The current and next buffers are always the two different buffers. */
    lemma BuffersAreDistinct()
      requires Valid()
      ensures GetCurrentIterationBlocks() != GetNextIterationBlocks()
      ensures {GetCurrentIterationBlocks(), GetNextIterationBlocks()} == {blocks0, blocks1}
    {
    }

    /** Writes one cell of the given buffer (Go panics if the index is outside the slice). */
    method SetBlock(x: int, y: int, b: Block, blocks: array<Block>)
      requires 0 <= GetIndex(width, x, y) < blocks.Length
      modifies blocks
      ensures blocks[..] == old(blocks[..])[GetIndex(width, x, y) := b]
    {
      blocks[GetIndex(width, x, y)] := b;
    }

    /**
     * One step: every cell of the next buffer is computed from the current
     * buffer, which is left unchanged; the buffers then swap roles.
     */
    method UpdateBlocks() returns (updateCount: int)
      requires Valid()
      modifies this, GetNextIterationBlocks()
      ensures Valid()
      ensures width == old(width) && height == old(height)
      ensures blocks0 == old(blocks0) && blocks1 == old(blocks1)
      ensures iteration == old(iteration) + 1
      ensures GetNextIterationBlocks() == old(GetCurrentIterationBlocks())
      ensures GetNextIterationBlocks()[..] == old(GetCurrentIterationBlocks()[..])
      ensures GetCurrentIterationBlocks()[..] == NextBlocks(width, height, old(GetCurrentIterationBlocks()[..]))
      ensures updateCount == RowsUpdates(width, height, old(GetCurrentIterationBlocks()[..]), height)
    {
      var blocks := GetCurrentIterationBlocks();
      var updatedBlocks := GetNextIterationBlocks();
      ghost var cur := blocks[..];
      updateCount := FillNextBlocks(width, height, blocks[..], updatedBlocks);
      ghost var next := updatedBlocks[..];
      assert next == NextBlocks(width, height, cur);
      iteration := iteration + 1;
      assert GetCurrentIterationBlocks() == updatedBlocks;
    }

    /**
     * Steps until a step changes nothing or `Iteration` reaches 200; the
     * per-step callback is not modelled.
     */
    method RunIterations()
      requires Valid()
      modifies this, blocks0, blocks1
      ensures Valid()
      ensures width == old(width) && height == old(height)
      ensures (GetCurrentIterationBlocks()[..], iteration)
              == Run(width, height, old(GetCurrentIterationBlocks()[..]), old(iteration))
    {
      ghost var result := Run(width, height, GetCurrentIterationBlocks()[..], iteration);
      while iteration < 200
        invariant Valid()
        invariant width == old(width) && height == old(height)
        invariant blocks0 == old(blocks0) && blocks1 == old(blocks1)
        invariant Run(width, height, GetCurrentIterationBlocks()[..], iteration) == result
        decreases 200 - iteration
      {
        var updateCount := UpdateBlocks();
        if updateCount == 0 {
          break;
        }
      }
    }
  }
}
