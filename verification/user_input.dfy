/**
 * The scripted world edits of core/user_input.go: `createWorld` builds the
 * demonstration circuit, and `ProcessUserInputs` toggles two redstone blocks
 * on a 32-iteration cycle. Both only call `SetBlock`: each loop iteration is
 * specified by the writes it performs, and each loop by the cells after its
 * iterations so far.
 */
module UserInput {
  import Wrappers
  import opened Vectors
  import opened Directions
  import opened Blocks
  import opened Cells
  import opened WorldModel
  import GoInt

  /** One `SetBlock(p, b)` call. */
  type Write = (Vec3, Block)

  /** The cells after one `SetBlock`: a position outside the grid changes nothing. */
  function Store(cells: Cells, w: Write): Cells {
    if InGrid(w.0) then cells[GetIndex(w.0) := w.1] else cells
  }

  /** The cells after performing the writes in order. */
  function Apply(cells: Cells, ws: seq<Write>): Cells
    decreases |ws|
  {
    if |ws| == 0 then cells else Store(Apply(cells, ws[..|ws| - 1]), ws[|ws| - 1])
  }

  /** Performing one more write. */
  lemma ApplySnoc(cells: Cells, ws: seq<Write>, w: Write)
    ensures Apply(cells, ws + [w]) == Store(Apply(cells, ws), w)
  {
    assert (ws + [w])[..|ws|] == ws;
  }

  /** The block of the last write to p, if any. */
  function LastWrite(ws: seq<Write>, p: Vec3): Wrappers.Option<Block>
    decreases |ws|
  {
    if |ws| == 0 then Wrappers.None
    else if ws[|ws| - 1].0 == p then Wrappers.Some(ws[|ws| - 1].1)
    else LastWrite(ws[..|ws| - 1], p)
  }

  /** After the writes, a grid position holds its last write, or what it held before if it was never written. */
  lemma {:induction false} ApplyReads(cells: Cells, ws: seq<Write>, p: Vec3)
    requires InGrid(p)
    ensures BlockAt(Apply(cells, ws), p) == match LastWrite(ws, p)
                                           case Some(b) => b
                                           case None => BlockAt(cells, p)
    decreases |ws|
  {
    if |ws| > 0 {
      var w := ws[|ws| - 1];
      ApplyReads(cells, ws[..|ws| - 1], p);
      if InGrid(w.0) {
        BlockAtAfterStore(Apply(cells, ws[..|ws| - 1]), w.0, w.1, p);
      }
    }
  }

  /** A position no write touches has no last write. */
  lemma {:induction false} LastWriteNone(ws: seq<Write>, p: Vec3)
    requires forall w :: w in ws ==> w.0 != p
    ensures LastWrite(ws, p) == Wrappers.None
    decreases |ws|
  {
    if |ws| > 0 {
      assert forall w :: w in ws[..|ws| - 1] ==> w in ws;
      assert ws[|ws| - 1] in ws;
      LastWriteNone(ws[..|ws| - 1], p);
    }
  }

  /** Writes away from p leave p alone. */
  lemma ApplyElsewhere(cells: Cells, ws: seq<Write>, p: Vec3)
    requires forall w :: w in ws ==> w.0 != p
    ensures BlockAt(Apply(cells, ws), p) == BlockAt(cells, p)
  {
    if InGrid(p) {
      ApplyReads(cells, ws, p);
      LastWriteNone(ws, p);
    }
  }

  /** A write of `createWorld` lands in the grid, and a lamp it places is unpowered. */
  predicate Placed(w: Write) {
    InGrid(w.0) && (w.1.RedstoneLamp? ==> w.1.inputPowerType == None)
  }

  /** The centre of the circuit: a redstone block with four torches around it. */
  const Centre: Vec3 := Vec3(8, 2, 4)

  /** The four directions the centre's torches face, in loop order. */
  const Around: seq<Direction> := [Left, Right, Front, Back]

  /** Torch iteration k: a powered torch facing the k-th direction, on that side of the centre. */
  function TorchWrite(k: int): Write
    requires 0 <= k < 4
  {
    (Move(Centre, Around[k]), RedstoneTorch(Around[k], true))
  }

  /** Column iteration i (x = 3..4, y = i): lamp and torch swap sides with the parity of i. */
  function ColumnWrites(i: int): seq<Write> {
    var p := Vec3(3, i, 0);
    if i % 2 == 0 then [(p, RedstoneLamp(None)), (Move(p, Right), RedstoneTorch(Right, true))]
    else [(Move(p, Right), RedstoneLamp(None)), (p, RedstoneTorch(Left, false))]
  }

  /** Row iteration i: a lamp at (3 + i, 7, 0) under an unpowered upward torch. */
  function RowWrites(i: int): seq<Write> {
    [(Vec3(3 + i, 7, 0), RedstoneLamp(None)), (Vec3(3 + i, 8, 0), RedstoneTorch(Up, false))]
  }

  /** Pillar iteration i: an upward torch at (1, i, 0), powered for odd i, with a lamp to its left for even i. */
  function PillarWrites(i: int): seq<Write> {
    var p := Vec3(1, i, 0);
    [(p, RedstoneTorch(Up, i % 2 == 1))] + if i % 2 == 0 then [(Move(p, Left), RedstoneLamp(None))] else []
  }

  /** The cells after torch iterations 0 to k - 1. */
  function TorchLoop(cells: Cells, k: int): Cells
    requires 0 <= k <= 4
  {
    if k == 0 then cells else Store(TorchLoop(cells, k - 1), TorchWrite(k - 1))
  }

  /** The cells after column iterations 2 to i - 1. */
  function ColumnLoop(cells: Cells, i: int): Cells
    decreases i
  {
    if i <= 2 then cells else Apply(ColumnLoop(cells, i - 1), ColumnWrites(i - 1))
  }

  /** The cells after row iterations 0 to i - 1. */
  function RowLoop(cells: Cells, i: int): Cells
    decreases i
  {
    if i <= 0 then cells else Apply(RowLoop(cells, i - 1), RowWrites(i - 1))
  }

  /** The cells after pillar iterations 3 to i - 1. */
  function PillarLoop(cells: Cells, i: int): Cells
    decreases i
  {
    if i <= 3 then cells else Apply(PillarLoop(cells, i - 1), PillarWrites(i - 1))
  }

  /** The cells once the centre block and its torches are placed. */
  function CentreCells(cells: Cells): Cells {
    TorchLoop(Store(cells, (Centre, RedstoneBlock)), 4)
  }

  /** The cells after `createWorld`. */
  function CreateWorldCells(cells: Cells): Cells {
    PillarLoop(RowLoop(ColumnLoop(CentreCells(cells), 7), 4), 8)
  }

  /**
   * Every write of `createWorld` lands in the grid, so every `SetBlock`
   * succeeds, and every lamp it places starts unpowered. All writes but the
   * centre's lie in the layer z = 0.
   */
  lemma CreateWorldPlaced()
    ensures Placed((Centre, RedstoneBlock))
    ensures forall k :: 0 <= k < 4 ==> Placed(TorchWrite(k))
    ensures forall i, w :: 2 <= i < 7 && w in ColumnWrites(i) ==> Placed(w) && w.0.z == 0
    ensures forall i, w :: 0 <= i < 4 && w in RowWrites(i) ==> Placed(w) && w.0.z == 0
    ensures forall i, w :: 3 <= i < 8 && w in PillarWrites(i) ==> Placed(w) && w.0.z == 0
  {
  }

  /** The column loop leaves every cell outside the layer z = 0 alone. */
  lemma {:induction false} ColumnLoopOffLayer(cells: Cells, i: int, q: Vec3)
    requires i <= 7 && q.z != 0
    ensures BlockAt(ColumnLoop(cells, i), q) == BlockAt(cells, q)
    decreases i
  {
    if i > 2 {
      CreateWorldPlaced();
      ColumnLoopOffLayer(cells, i - 1, q);
      ApplyElsewhere(ColumnLoop(cells, i - 1), ColumnWrites(i - 1), q);
    }
  }

  /** The row loop leaves every cell outside the layer z = 0 alone. */
  lemma {:induction false} RowLoopOffLayer(cells: Cells, i: int, q: Vec3)
    requires i <= 4 && q.z != 0
    ensures BlockAt(RowLoop(cells, i), q) == BlockAt(cells, q)
    decreases i
  {
    if i > 0 {
      CreateWorldPlaced();
      RowLoopOffLayer(cells, i - 1, q);
      ApplyElsewhere(RowLoop(cells, i - 1), RowWrites(i - 1), q);
    }
  }

  /** The pillar loop leaves every cell outside the layer z = 0 alone. */
  lemma {:induction false} PillarLoopOffLayer(cells: Cells, i: int, q: Vec3)
    requires i <= 8 && q.z != 0
    ensures BlockAt(PillarLoop(cells, i), q) == BlockAt(cells, q)
    decreases i
  {
    if i > 3 {
      CreateWorldPlaced();
      PillarLoopOffLayer(cells, i - 1, q);
      ApplyElsewhere(PillarLoop(cells, i - 1), PillarWrites(i - 1), q);
    }
  }

  /** After torch iterations 0 to k - 1, the j-th side of the centre holds its torch and the centre is untouched. */
  lemma {:induction false} TorchLoopReads(cells: Cells, k: int, j: int)
    requires 0 <= j < k <= 4
    ensures BlockAt(TorchLoop(cells, k), Move(Centre, Around[j])) == RedstoneTorch(Around[j], true)
    ensures BlockAt(TorchLoop(cells, k), Centre) == BlockAt(cells, Centre)
  {
    var prev := TorchLoop(cells, k - 1);
    var w := TorchWrite(k - 1);
    CreateWorldPlaced();
    MoveInjective(Centre, Around[k - 1], Around[j]);
    BlockAtAfterStore(prev, w.0, w.1, Centre);
    BlockAtAfterStore(prev, w.0, w.1, Move(Centre, Around[j]));
    if j < k - 1 {
      TorchLoopReads(cells, k - 1, j);
    } else if k > 1 {
      TorchLoopReads(cells, k - 1, 0);
    }
  }

  /** The loops after the torches leave every cell outside the layer z = 0 alone. */
  lemma LayerLoopsOffLayer(cells: Cells, q: Vec3)
    requires q.z != 0
    ensures BlockAt(PillarLoop(RowLoop(ColumnLoop(cells, 7), 4), 8), q) == BlockAt(cells, q)
  {
    ColumnLoopOffLayer(cells, 7, q);
    RowLoopOffLayer(ColumnLoop(cells, 7), 4, q);
    PillarLoopOffLayer(RowLoop(ColumnLoop(cells, 7), 4), 8, q);
  }

  /** The four sides of the centre lie in its layers z = 3 to 5. */
  lemma AroundOffLayer(j: int)
    requires 0 <= j < 4
    ensures 3 <= Move(Centre, Around[j]).z <= 5
  {
    var d := Around[j];
    assert d == Left || d == Right || d == Front || d == Back;
    assert Move(Centre, d) == Add(Vec3(8, 2, 4), ToVec3(d));
  }

  /** `createWorld` leaves a redstone block at the centre and, on each of its four sides, a powered torch facing away from it. */
  lemma CreateWorldCentre(cells: Cells)
    ensures BlockAt(CreateWorldCells(cells), Centre) == RedstoneBlock
    ensures forall j :: 0 <= j < 4 ==> BlockAt(CreateWorldCells(cells), Move(Centre, Around[j])) == RedstoneTorch(Around[j], true)
  {
    var first := Store(cells, (Centre, RedstoneBlock));
    var centre := CentreCells(cells);
    BlockAtAfterStore(cells, Centre, RedstoneBlock, Centre);
    TorchLoopReads(first, 4, 0);
    LayerLoopsOffLayer(centre, Centre);
    forall j | 0 <= j < 4
      ensures BlockAt(CreateWorldCells(cells), Move(Centre, Around[j])) == RedstoneTorch(Around[j], true)
    {
      TorchLoopReads(first, 4, j);
      AroundOffLayer(j);
      LayerLoopsOffLayer(centre, Move(Centre, Around[j]));
    }
  }

  /** After, at q: what was there before, or not a lamp, or an unpowered lamp. */
  predicate NoPoweredLampAdded(before: Cells, after: Cells, q: Vec3) {
    var b := BlockAt(after, q);
    b == BlockAt(before, q) || !b.RedstoneLamp? || b.inputPowerType == None
  }

  /** Every cell `createWorld` changes into a lamp holds an unpowered one. */
  lemma CreateWorldLamps(cells: Cells, q: Vec3)
    requires BlockAt(CreateWorldCells(cells), q) != BlockAt(cells, q)
    requires BlockAt(CreateWorldCells(cells), q).RedstoneLamp?
    ensures BlockAt(CreateWorldCells(cells), q).inputPowerType == None
  {
    var c1 := Store(cells, (Centre, RedstoneBlock));
    var c2 := TorchLoop(c1, 4);
    var c3 := ColumnLoop(c2, 7);
    var c4 := RowLoop(c3, 4);
    CreateWorldPlaced();
    StoreLamps(cells, (Centre, RedstoneBlock), q);
    TorchLoopLamps(c1, 4, q);
    ColumnLoopLamps(c2, 7, q);
    RowLoopLamps(c3, 4, q);
    PillarLoopLamps(c4, 8, q);
  }

  lemma StoreLamps(cells: Cells, w: Write, q: Vec3)
    requires Placed(w)
    ensures NoPoweredLampAdded(cells, Store(cells, w), q)
  {
    BlockAtAfterStore(cells, w.0, w.1, q);
  }

  lemma {:induction false} ApplyLamps(cells: Cells, ws: seq<Write>, q: Vec3)
    requires forall w :: w in ws ==> Placed(w)
    ensures NoPoweredLampAdded(cells, Apply(cells, ws), q)
    decreases |ws|
  {
    if |ws| > 0 {
      assert forall w :: w in ws[..|ws| - 1] ==> w in ws;
      assert ws[|ws| - 1] in ws;
      ApplyLamps(cells, ws[..|ws| - 1], q);
      StoreLamps(Apply(cells, ws[..|ws| - 1]), ws[|ws| - 1], q);
    }
  }

  lemma {:induction false} TorchLoopLamps(cells: Cells, k: int, q: Vec3)
    requires 0 <= k <= 4
    ensures NoPoweredLampAdded(cells, TorchLoop(cells, k), q)
  {
    if k > 0 {
      CreateWorldPlaced();
      TorchLoopLamps(cells, k - 1, q);
      StoreLamps(TorchLoop(cells, k - 1), TorchWrite(k - 1), q);
    }
  }

  lemma {:induction false} ColumnLoopLamps(cells: Cells, i: int, q: Vec3)
    requires i <= 7
    ensures NoPoweredLampAdded(cells, ColumnLoop(cells, i), q)
    decreases i
  {
    if i > 2 {
      CreateWorldPlaced();
      ColumnLoopLamps(cells, i - 1, q);
      ApplyLamps(ColumnLoop(cells, i - 1), ColumnWrites(i - 1), q);
    }
  }

  lemma {:induction false} RowLoopLamps(cells: Cells, i: int, q: Vec3)
    requires i <= 4
    ensures NoPoweredLampAdded(cells, RowLoop(cells, i), q)
    decreases i
  {
    if i > 0 {
      CreateWorldPlaced();
      RowLoopLamps(cells, i - 1, q);
      ApplyLamps(RowLoop(cells, i - 1), RowWrites(i - 1), q);
    }
  }

  lemma {:induction false} PillarLoopLamps(cells: Cells, i: int, q: Vec3)
    requires i <= 8
    ensures NoPoweredLampAdded(cells, PillarLoop(cells, i), q)
    decreases i
  {
    if i > 3 {
      CreateWorldPlaced();
      PillarLoopLamps(cells, i - 1, q);
      ApplyLamps(PillarLoop(cells, i - 1), PillarWrites(i - 1), q);
    }
  }

  /** One `SetBlock` call. */
  method Set(world: World, w: Write)
    requires world.Valid()
    modifies world.blocks
    ensures world.Valid() && world.blocks == old(world.blocks)
    ensures world.Contents() == Store(old(world.Contents()), w)
  {
    var _ := world.SetBlock(w.0, w.1);
  }

  /** Two `SetBlock` calls in a row. */
  method SetTwo(world: World, w1: Write, w2: Write)
    requires world.Valid()
    modifies world.blocks
    ensures world.Valid() && world.blocks == old(world.blocks)
    ensures world.Contents() == Apply(old(world.Contents()), [w1, w2])
  {
    ghost var start := world.Contents();
    var _ := world.SetBlock(w1.0, w1.1);
    var _ := world.SetBlock(w2.0, w2.1);
    ApplySnoc(start, [], w1);
    ApplySnoc(start, [w1], w2);
    assert [] + [w1] == [w1];
    assert [w1] + [w2] == [w1, w2];
  }

  /** `createWorld`: the centre block, then its four counted loops of `SetBlock` calls. */
  method CreateWorld(world: World)
    requires world.Valid()
    modifies world.blocks
    ensures world.Valid() && world.blocks == old(world.blocks)
    ensures world.Contents() == CreateWorldCells(old(world.Contents()))
  {
    ghost var c0 := world.Contents();
    var cp := Centre;
    Set(world, (cp, RedstoneBlock));
    ghost var c1 := world.Contents();
    PlaceTorches(world, cp);
    ghost var c2 := world.Contents();
    PlaceColumns(world);
    ghost var c3 := world.Contents();
    PlaceRows(world);
    ghost var c4 := world.Contents();
    PlacePillars(world);
    CreateWorldSteps(c0, c1, c2, c3, c4, world.Contents());
  }

  /** The stages of `createWorld` compose to `CreateWorldCells`. */
  lemma CreateWorldSteps(c0: Cells, c1: Cells, c2: Cells, c3: Cells, c4: Cells, c5: Cells)
    requires c1 == Store(c0, (Centre, RedstoneBlock)) && c2 == TorchLoop(c1, 4)
    requires c3 == ColumnLoop(c2, 7) && c4 == RowLoop(c3, 4) && c5 == PillarLoop(c4, 8)
    ensures c5 == CreateWorldCells(c0)
  {
  }

  /** The first loop of `createWorld`: a powered torch on four sides of the centre. */
  method PlaceTorches(world: World, cp: Vec3)
    requires world.Valid() && cp == Centre
    modifies world.blocks
    ensures world.Valid() && world.blocks == old(world.blocks)
    ensures world.Contents() == TorchLoop(old(world.Contents()), 4)
  {
    ghost var start := world.Contents();
    for k := 0 to 4
      invariant world.Contents() == TorchLoop(start, k)
    {
      var d := Around[k];
      Set(world, (Move(cp, d), RedstoneTorch(d, true)));
    }
  }

  /** The second loop of `createWorld`: lamp and torch pairs at x = 3..4, y = 2..6. */
  method PlaceColumns(world: World)
    requires world.Valid()
    modifies world.blocks
    ensures world.Valid() && world.blocks == old(world.blocks)
    ensures world.Contents() == ColumnLoop(old(world.Contents()), 7)
  {
    ghost var start := world.Contents();
    for i := 2 to 7
      invariant world.Contents() == ColumnLoop(start, i)
    {
      var p := Vec3(3, i, 0);
      if i % 2 == 0 {
        SetTwo(world, (p, RedstoneLamp(None)), (Move(p, Right), RedstoneTorch(Right, true)));
      } else {
        SetTwo(world, (Move(p, Right), RedstoneLamp(None)), (p, RedstoneTorch(Left, false)));
      }
    }
  }

  /** The third loop of `createWorld`: four lamps in row y = 7 under four torches. */
  method PlaceRows(world: World)
    requires world.Valid()
    modifies world.blocks
    ensures world.Valid() && world.blocks == old(world.blocks)
    ensures world.Contents() == RowLoop(old(world.Contents()), 4)
  {
    ghost var start := world.Contents();
    for i := 0 to 4
      invariant world.Contents() == RowLoop(start, i)
    {
      SetTwo(world, (Vec3(3 + i, 7, 0), RedstoneLamp(None)), (Vec3(3 + i, 8, 0), RedstoneTorch(Up, false)));
    }
  }

  /** The fourth loop of `createWorld`: a torch pillar at x = 1 with lamps beside its even rows. */
  method PlacePillars(world: World)
    requires world.Valid()
    modifies world.blocks
    ensures world.Valid() && world.blocks == old(world.blocks)
    ensures world.Contents() == PillarLoop(old(world.Contents()), 8)
  {
    ghost var start := world.Contents();
    for i := 3 to 8
      invariant world.Contents() == PillarLoop(start, i)
    {
      var p := Vec3(1, i, 0);
      var torch := RedstoneTorch(Up, i % 2 == 1);
      if i % 2 == 0 {
        SetTwo(world, (p, torch), (Move(p, Left), RedstoneLamp(None)));
        assert PillarWrites(i) == [(p, torch), (Move(p, Left), RedstoneLamp(None))];
      } else {
        ghost var before := world.Contents();
        Set(world, (p, torch));
        ApplySnoc(before, [], (p, torch));
        assert PillarWrites(i) == [] + [(p, torch)];
      }
    }
  }

  /** The first toggled cell; the second is two to its right. */
  const Switch: Vec3 := Vec3(1, 2, 0)

  /** The two writes of a toggle. */
  function ToggleWrites(b: Block): seq<Write> {
    [(Switch, b), (Add(Switch, Vec3(2, 0, 0)), b)]
  }

  /** Whether `ProcessUserInputs` edits the world at this iteration, with Go's truncating `%`. */
  predicate InputFires(iteration: int) {
    iteration == 0 || GoInt.Rem(iteration, 32) == 4 || GoInt.Rem(iteration, 32) == 20
  }

  /** The cells after `ProcessUserInputs` at a given iteration, with Go's truncating `%`. */
  function InputCells(iteration: int, cells: Cells): Cells {
    if iteration == 0 then CreateWorldCells(cells)
    else if GoInt.Rem(iteration, 32) == 4 then Apply(cells, ToggleWrites(RedstoneBlock))
    else if GoInt.Rem(iteration, 32) == 20 then Apply(cells, ToggleWrites(Air))
    else cells
  }

  /** `ProcessUserInputs`: the scripted edit for this iteration, and whether there was one. */
  method ProcessUserInputs(iteration: int, world: World) returns (hasAnyBlockUpdated: bool)
    requires world.Valid()
    modifies world.blocks
    ensures world.Valid() && world.blocks == old(world.blocks)
    ensures hasAnyBlockUpdated <==> InputFires(iteration)
    ensures world.Contents() == InputCells(iteration, old(world.Contents()))
  {
    hasAnyBlockUpdated := false;
    if iteration == 0 {
      CreateWorld(world);
      hasAnyBlockUpdated := true;
    } else if GoInt.Rem(iteration, 32) == 4 {
      Toggle(world, RedstoneBlock);
      hasAnyBlockUpdated := true;
    } else if GoInt.Rem(iteration, 32) == 20 {
      Toggle(world, Air);
      hasAnyBlockUpdated := true;
    }
  }

  /** The two `SetBlock` calls of a toggle. */
  method Toggle(world: World, b: Block)
    requires world.Valid()
    modifies world.blocks
    ensures world.Valid() && world.blocks == old(world.blocks)
    ensures world.Contents() == Apply(old(world.Contents()), ToggleWrites(b))
  {
    var p := Switch;
    SetTwo(world, (p, b), (Add(p, Vec3(2, 0, 0)), b));
  }

  /** A toggle sets (1,2,0) and (3,2,0) to b and leaves every other cell alone. */
  lemma ToggleEffect(cells: Cells, b: Block, q: Vec3)
    ensures BlockAt(Apply(cells, ToggleWrites(b)), q)
            == if q == Vec3(1, 2, 0) || q == Vec3(3, 2, 0) then b else BlockAt(cells, q)
  {
    var p := Vec3(1, 2, 0);
    var r := Vec3(3, 2, 0);
    assert ToggleWrites(b) == [(p, b)] + [(r, b)];
    assert [(p, b)] == [] + [(p, b)];
    ApplySnoc(cells, [], (p, b));
    ApplySnoc(cells, [(p, b)], (r, b));
    BlockAtAfterStore(cells, p, b, q);
    BlockAtAfterStore(Store(cells, (p, b)), r, b, q);
  }

  /** The edits repeat every 32 iterations after the first. */
  lemma InputPeriodic(iteration: int, cells: Cells)
    requires iteration > 0
    ensures InputCells(iteration + 32, cells) == InputCells(iteration, cells)
  {
  }

  /**
   * Go's `%` keeps the sign of the dividend, so a negative iteration never
   * edits the world, although its Euclidean remainder can be 4 or 20.
   */
  lemma NegativeIterationsNoInput(iteration: int, cells: Cells)
    requires iteration < 0
    ensures InputCells(iteration, cells) == cells
  {
  }
}
