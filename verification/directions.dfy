/** The six axis-aligned directions (core/direction.go) and `Vec3.Move` (core/vector.go). */
module Directions {
  import opened Wrappers
  import opened Vectors

  /** Declared with `iota` in the order Up, Down, Left, Right, Front, Back. */
  datatype Direction = Up | Down | Left | Right | Front | Back

  const AllDirections: seq<Direction> := [Up, Down, Left, Right, Front, Back]

  /** The integer value of each constant. */
  function Ordinal(d: Direction): (i: nat)
    ensures i < 6 && AllDirections[i] == d
  {
    match d
    case Up => 0
    case Down => 1
    case Left => 2
    case Right => 3
    case Front => 4
    case Back => 5
  }

  /**
   * The direction with integer value i; `None` stands for the panic that every
   * operation on Direction raises for a value outside the six constants.
   */
  function FromOrdinal(i: int): (r: Option<Direction>)
    ensures r.Some? <==> 0 <= i < 6
    ensures r.Some? ==> Ordinal(r.value) == i
  {
    if 0 <= i < 6 then Some(AllDirections[i]) else None
  }

  /** `String`: the lower-case name, indexed by the constant's value. */
  function Name(d: Direction): string {
    ["up", "down", "left", "right", "front", "back"][Ordinal(d)]
  }

  function Opposite(d: Direction): (r: Direction)
    ensures r != d
  {
    match d
    case Up => Down
    case Down => Up
    case Left => Right
    case Right => Left
    case Front => Back
    case Back => Front
  }

  /** Unit vector of a direction; Front is +z and Back is -z. */
  function ToVec3(d: Direction): (v: Vec3)
    ensures IsUnitAxis(v)
  {
    match d
    case Up => Vec3(0, 1, 0)
    case Down => Vec3(0, -1, 0)
    case Left => Vec3(-1, 0, 0)
    case Right => Vec3(1, 0, 0)
    case Front => Vec3(0, 0, 1)
    case Back => Vec3(0, 0, -1)
  }

  /** `Vec3.Move`: the neighbouring cell in direction d. */
  function Move(v: Vec3, d: Direction): Vec3 {
    Add(v, ToVec3(d))
  }

  /** The cell reached by `Move` is one step along a single axis. */
  lemma MoveIsNeighbour(v: Vec3, d: Direction)
    ensures IsUnitAxis(Subtract(Move(v, d), v))
  {
    assert Subtract(Move(v, d), v) == ToVec3(d);
  }

  lemma OppositeInvolution(d: Direction)
    ensures Opposite(Opposite(d)) == d
  {
  }

  lemma ToVec3OfOpposite(d: Direction)
    ensures ToVec3(Opposite(d)) == Negate(ToVec3(d))
  {
    match d
    case Up =>
    case Down =>
    case Left =>
    case Right =>
    case Front =>
    case Back =>
  }

  lemma ToVec3Injective(d: Direction, e: Direction)
    ensures ToVec3(d) == ToVec3(e) <==> d == e
  {
  }

  /** Moving from v leaves v, and distinct directions lead to distinct neighbours. */
  lemma MoveInjective(v: Vec3, d: Direction, e: Direction)
    ensures Move(v, d) != v
    ensures Move(v, d) == Move(v, e) <==> d == e
  {
    ToVec3Injective(d, e);
  }

  lemma NameInjective(d: Direction, e: Direction)
    ensures Name(d) == Name(e) <==> d == e
  {
  }

  lemma OrdinalRoundTrip(d: Direction)
    ensures FromOrdinal(Ordinal(d)) == Some(d)
  {
  }

  /** Moving one step and then one step back returns to the start. */
  lemma MoveThenMoveBack(v: Vec3, d: Direction)
    ensures Move(Move(v, d), Opposite(d)) == v
    ensures Move(v, d) == Add(v, ToVec3(d))
  {
    match d
    case Up =>
    case Down =>
    case Left =>
    case Right =>
    case Front =>
    case Back =>
  }
}
