/**
 * The per-block update rules of the 3D world: torch `Update`
 * (core/redstone_torch.go), lamp `Update` (core/redstone_lamp.go), and
 * `World.UpdateBlock` / `UpdateWorld` (core/world.go) stated over the cells
 * of the current world.
 */
module BlockUpdates {
  import opened Vectors
  import opened Directions
  import opened Blocks
  import opened Cells

  /** The neighbour a block attached in direction d hangs from. */
  function Behind(p: Vec3, d: Direction): Vec3 {
    Move(p, Opposite(d))
  }

  /**
   * Torch `Update`: a torch is lit unless the block it hangs from powers it in
   * the torch's own direction; anything that emits no power at all (air)
   * leaves it lit. Reports whether the torch switched.
   */
  function TorchUpdate(b: Block, p: Vec3, cells: Cells): (r: (Block, bool))
    requires b.RedstoneTorch?
    ensures r.0.RedstoneTorch? && r.0.direction == b.direction
    ensures r.1 <==> r.0.isPowered != b.isPowered
  {
    var neighbour := BlockAt(cells, Behind(p, b.direction));
    var powered := if IsPowerEmitting(neighbour) then !OutputsPower(neighbour, b.direction) else true;
    (b.(isPowered := powered), b.isPowered != powered)
  }

  /** The torch's new state in terms of the block behind it. */
  lemma TorchUpdateRule(b: Block, p: Vec3, cells: Cells)
    requires b.RedstoneTorch?
    ensures var n := BlockAt(cells, Behind(p, b.direction));
            && (n == Air ==> TorchUpdate(b, p, cells).0.isPowered)
            && (n == RedstoneBlock ==> !TorchUpdate(b, p, cells).0.isPowered)
            && (n.Lever? ==> TorchUpdate(b, p, cells).0.isPowered == !n.isOn)
            && (IsPowerEmitting(n) ==> TorchUpdate(b, p, cells).0.isPowered == !OutputsPower(n, b.direction))
    ensures TorchUpdate(b, p, cells).1 <==> TorchUpdate(b, p, cells).0 != b
  {
  }

  /** n is a strong power emitter and outputs strong power in direction d. */
  predicate GivesStrong(n: Block, d: Direction) {
    IsStrongEmitting(n) && OutputsStrongPower(n, d)
  }

  /** n is a weak power emitter and outputs weak power in direction d. */
  predicate GivesWeak(n: Block, d: Direction) {
    IsWeakEmitting(n) && OutputsWeakPower(n, d)
  }

  /** The neighbour on the side opposite to d powers the cell strongly in direction d. */
  predicate StrongFrom(cells: Cells, p: Vec3, d: Direction) {
    GivesStrong(BlockAt(cells, Behind(p, d)), d)
  }

  /** The neighbour on the side opposite to d powers the cell weakly in direction d. */
  predicate WeakFrom(cells: Cells, p: Vec3, d: Direction) {
    GivesWeak(BlockAt(cells, Behind(p, d)), d)
  }

  /**
   * Reference definition of a lamp's input, scanning all six sides: strong if
   * any side powers it strongly, else weak if any side powers it weakly.
   */
  ghost function LampInput(cells: Cells, p: Vec3): (pt: PowerType)
    ensures pt == Strong <==> exists d :: StrongFrom(cells, p, d)
    ensures pt == Weak <==> (forall d :: !StrongFrom(cells, p, d)) && (exists d :: WeakFrom(cells, p, d))
  {
    if exists d :: StrongFrom(cells, p, d) then Strong
    else if exists d :: WeakFrom(cells, p, d) then Weak
    else None
  }

  /** One of the first n sides, in declaration order, powers the cell strongly. */
  ghost predicate AnyStrong(cells: Cells, p: Vec3, n: int)
    requires 0 <= n <= 6
  {
    n > 0 && (AnyStrong(cells, p, n - 1) || StrongFrom(cells, p, AllDirections[n - 1]))
  }

  /** One of the first n sides, in declaration order, powers the cell weakly. */
  ghost predicate AnyWeak(cells: Cells, p: Vec3, n: int)
    requires 0 <= n <= 6
  {
    n > 0 && (AnyWeak(cells, p, n - 1) || WeakFrom(cells, p, AllDirections[n - 1]))
  }

  lemma {:induction false} AnyStrongPrefix(cells: Cells, p: Vec3, n: int)
    requires 0 <= n <= 6
    ensures AnyStrong(cells, p, n) <==> exists k :: 0 <= k < n && StrongFrom(cells, p, AllDirections[k])
  {
    if n > 0 {
      AnyStrongPrefix(cells, p, n - 1);
      if StrongFrom(cells, p, AllDirections[n - 1]) {
        assert exists k :: 0 <= k < n && StrongFrom(cells, p, AllDirections[k]);
      } else if exists k :: 0 <= k < n && StrongFrom(cells, p, AllDirections[k]) {
        var k :| 0 <= k < n && StrongFrom(cells, p, AllDirections[k]);
        assert k < n - 1;
      }
    }
  }

  lemma {:induction false} AnyWeakPrefix(cells: Cells, p: Vec3, n: int)
    requires 0 <= n <= 6
    ensures AnyWeak(cells, p, n) <==> exists k :: 0 <= k < n && WeakFrom(cells, p, AllDirections[k])
  {
    if n > 0 {
      AnyWeakPrefix(cells, p, n - 1);
      if WeakFrom(cells, p, AllDirections[n - 1]) {
        assert exists k :: 0 <= k < n && WeakFrom(cells, p, AllDirections[k]);
      } else if exists k :: 0 <= k < n && WeakFrom(cells, p, AllDirections[k]) {
        var k :| 0 <= k < n && WeakFrom(cells, p, AllDirections[k]);
        assert k < n - 1;
      }
    }
  }

  /** Scanning the six sides in order finds a strong (weak) side exactly when there is one. */
  lemma ScanCoversAllSides(cells: Cells, p: Vec3)
    ensures AnyStrong(cells, p, 6) <==> exists d :: StrongFrom(cells, p, d)
    ensures AnyWeak(cells, p, 6) <==> exists d :: WeakFrom(cells, p, d)
  {
    AnyStrongPrefix(cells, p, 6);
    AnyWeakPrefix(cells, p, 6);
    forall d | StrongFrom(cells, p, d)
      ensures exists k :: 0 <= k < 6 && StrongFrom(cells, p, AllDirections[k])
    {
      assert AllDirections[Ordinal(d)] == d;
    }
    forall d | WeakFrom(cells, p, d)
      ensures exists k :: 0 <= k < 6 && WeakFrom(cells, p, AllDirections[k])
    {
      assert AllDirections[Ordinal(d)] == d;
    }
  }

  /**
   * Lamp `Update`: visit the six sides in declaration order, stop at the
   * first strong one, otherwise remember whether a weak one was seen. The
   * early stop gives the same result as the scan of all six sides.
   */
  method LampUpdate(b: Block, p: Vec3, cells: Cells) returns (r: Block, hasUpdated: bool)
    requires b.RedstoneLamp?
    ensures r == RedstoneLamp(LampInput(cells, p))
    ensures hasUpdated <==> r != b
  {
    var newInputPowerType := None;
    ghost var strongSide := Up;
    var i := 0;
    while i < 6
      invariant 0 <= i <= 6
      invariant newInputPowerType != Strong
      invariant !AnyStrong(cells, p, i)
      invariant newInputPowerType == Weak <==> AnyWeak(cells, p, i)
    {
      var d := AllDirections[i];
      var neighbour := BlockAt(cells, Behind(p, d));
      if IsStrongEmitting(neighbour) && newInputPowerType != Strong && OutputsStrongPower(neighbour, d) {
        newInputPowerType := Strong;
        strongSide := d;
        break;
      } else if IsWeakEmitting(neighbour) && newInputPowerType == None && OutputsWeakPower(neighbour, d) {
        newInputPowerType := Weak;
      }
      i := i + 1;
    }
    ScanCoversAllSides(cells, p);
    if newInputPowerType == Strong {
      assert StrongFrom(cells, p, strongSide);
    }
    hasUpdated := newInputPowerType != b.inputPowerType;
    r := RedstoneLamp(newInputPowerType);
  }

  /**
   * `World.UpdateBlock`: the block at p updated against the current cells,
   * and whether it changed; blocks without `Update` stay as they are.
   */
  ghost function UpdateAt(cells: Cells, p: Vec3): (Block, bool) {
    var b := BlockAt(cells, p);
    if b.RedstoneTorch? then TorchUpdate(b, p, cells)
    else if b.RedstoneLamp? then (RedstoneLamp(LampInput(cells, p)), LampInput(cells, p) != b.inputPowerType)
    else (b, false)
  }

  /**
   * An update is reported exactly when the block changes; only torches and
   * lamps can change, and they keep their kind (a torch its direction).
   */
  lemma UpdateAtChanges(cells: Cells, p: Vec3)
    ensures UpdateAt(cells, p).1 <==> UpdateAt(cells, p).0 != BlockAt(cells, p)
    ensures !IsUpdateable(BlockAt(cells, p)) ==> UpdateAt(cells, p) == (BlockAt(cells, p), false)
    ensures BlockAt(cells, p).RedstoneTorch? ==>
              UpdateAt(cells, p).0.RedstoneTorch? && UpdateAt(cells, p).0.direction == BlockAt(cells, p).direction
    ensures BlockAt(cells, p).RedstoneLamp? ==> UpdateAt(cells, p).0.RedstoneLamp?
  {
  }

  /** The world after one `UpdateWorld`: every cell updated against the old cells only. */
  ghost function NextCells(cells: Cells): (next: Cells)
    ensures forall i :: 0 <= i < CellCount ==> next[i] == UpdateAt(cells, PositionOf(i)).0
  {
    seq(CellCount, i requires 0 <= i < CellCount => UpdateAt(cells, PositionOf(i)).0)
  }

  /** The k-th position `UpdateWorld` visits: x outermost, then y, then z. */
  function VisitPosition(k: int): (p: Vec3)
    requires 0 <= k < CellCount
    ensures InGrid(p) && VisitOrdinal(p) == k
  {
    var row := k / 16;
    assert k == row * 16 + k % 16;
    assert row == (row / 16) * 16 + row % 16;
    Vec3(row / 16, row % 16, k % 16)
  }

  /** How many positions `UpdateWorld` visits before p. */
  function VisitOrdinal(p: Vec3): int {
    p.x * 256 + p.y * 16 + p.z
  }

  lemma VisitOrdinalDecodes(p: Vec3)
    requires InGrid(p)
    ensures 0 <= VisitOrdinal(p) < CellCount
    ensures VisitPosition(VisitOrdinal(p)) == p
  {
    var k := VisitOrdinal(p);
    var row := p.x * 16 + p.y;
    assert k == row * 16 + p.z;
    assert k / 16 == row;
  }

  /** Whether each visited position reports an update, in visiting order. */
  ghost function UpdateFlags(cells: Cells): (flags: seq<bool>)
    ensures |flags| == CellCount
    ensures forall k :: 0 <= k < CellCount ==> flags[k] == UpdateAt(cells, VisitPosition(k)).1
  {
    seq(CellCount, k requires 0 <= k < CellCount => UpdateAt(cells, VisitPosition(k)).1)
  }

  /** The number of true flags among the first n. */
  function CountTrue(flags: seq<bool>, n: int): (c: nat)
    requires 0 <= n <= |flags|
    ensures c <= n
  {
    if n == 0 then 0 else CountTrue(flags, n - 1) + (if flags[n - 1] then 1 else 0)
  }

  /** No flag among the first n is counted exactly when none of them is set. */
  lemma {:induction false} CountTrueZero(flags: seq<bool>, n: int)
    requires 0 <= n <= |flags|
    ensures CountTrue(flags, n) == 0 <==> forall k :: 0 <= k < n ==> !flags[k]
  {
    if n > 0 {
      CountTrueZero(flags, n - 1);
    }
  }

  /** The number of updates reported among the first n positions visited. */
  ghost function CountUpdates(cells: Cells, n: int): (c: nat)
    requires 0 <= n <= CellCount
  {
    CountTrue(UpdateFlags(cells), n)
  }

  /** `UpdateWorld` reports no update exactly when the world is a fixed point of the update. */
  lemma NoUpdatesIffFixedPoint(cells: Cells)
    ensures CountUpdates(cells, CellCount) == 0 <==> NextCells(cells) == cells
  {
    var flags := UpdateFlags(cells);
    CountTrueZero(flags, CellCount);
    if CountUpdates(cells, CellCount) == 0 {
      forall i | 0 <= i < CellCount
        ensures NextCells(cells)[i] == cells[i]
      {
        var p := PositionOf(i);
        VisitOrdinalDecodes(p);
        assert !flags[VisitOrdinal(p)];
        UpdateAtChanges(cells, p);
      }
    }
    if NextCells(cells) == cells {
      forall k | 0 <= k < CellCount
        ensures !flags[k]
      {
        var p := VisitPosition(k);
        PositionOfIndex(p);
        IndexInGrid(p);
        assert NextCells(cells)[GetIndex(p)] == cells[GetIndex(p)];
        UpdateAtChanges(cells, p);
      }
    }
  }
}
