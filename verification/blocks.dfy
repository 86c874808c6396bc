/**
 * The blocks of the 3D world (core/block.go and one file per block type) as
 * one closed datatype. What a block can do is decided in the Go code by which
 * methods its type defines; the capability predicates below record that.
 */
module Blocks {
  import opened Directions
  import Colors
  import opened Geometry
  import Utils
  import Wrappers

  /** How a lamp or a wool block is powered, declared Strong, Weak, None. */
  datatype PowerType = Strong | Weak | None

  /**
   * A cell's content; an empty (nil) cell of the world reads as `Air`.
   * Wool keeps its colour as the integer code of `Color`.
   */
  datatype Block =
    | Air
    | RedstoneBlock
    | RedstoneTorch(direction: Direction, isPowered: bool)
    | RedstoneLamp(inputPowerType: PowerType)
    | Lever(direction: Direction, isOn: bool)
    | WoolBlock(color: int, inputPowerType: PowerType)

  /** Types with an `Update` method: the torch and the lamp. */
  predicate IsUpdateable(b: Block) {
    b.RedstoneTorch? || b.RedstoneLamp?
  }

  /** Types with `OutputsPowerInDirection`: every block type but air. */
  predicate IsPowerEmitting(b: Block) {
    !b.Air?
  }

  /** Types with `OutputsStrongPowerInDirection`: every block type but air. */
  predicate IsStrongEmitting(b: Block) {
    !b.Air?
  }

  /** Types with `OutputsWeakPowerInDirection`: torch, lamp and wool. */
  predicate IsWeakEmitting(b: Block) {
    b.RedstoneTorch? || b.RedstoneLamp? || b.WoolBlock?
  }

  /** `OutputsPowerInDirection` of each power-emitting type. */
  function OutputsPower(b: Block, d: Direction): bool
    requires IsPowerEmitting(b)
  {
    match b
    case RedstoneBlock => true
    case RedstoneTorch(dir, powered) => d != Opposite(dir) && powered
    case RedstoneLamp(pt) => pt != None
    case Lever(_, on) => on
    case WoolBlock(_, pt) => pt == Strong
  }

  /** `OutputsStrongPowerInDirection` of each strong-emitting type. */
  function OutputsStrongPower(b: Block, d: Direction): bool
    requires IsStrongEmitting(b)
  {
    match b
    case RedstoneBlock => true
    case RedstoneTorch(_, powered) => d == Up && powered
    case RedstoneLamp(pt) => pt == Strong
    case Lever(dir, on) => on && dir == Opposite(d)
    case WoolBlock(_, _) => false
  }

  /** `OutputsWeakPowerInDirection` of each weak-emitting type. */
  function OutputsWeakPower(b: Block, d: Direction): bool
    requires IsWeakEmitting(b)
  {
    match b
    case RedstoneTorch(_, _) => OutputsPower(b, d) && !OutputsStrongPower(b, d)
    case RedstoneLamp(pt) => pt == Weak
    case WoolBlock(_, pt) => pt == Strong
  }

  /** A redstone block powers, strongly, in every direction. */
  lemma RedstoneBlockOutputs(d: Direction)
    ensures OutputsPower(RedstoneBlock, d) && OutputsStrongPower(RedstoneBlock, d)
    ensures !IsWeakEmitting(RedstoneBlock) && !IsUpdateable(RedstoneBlock)
  {
  }

  /**
   * A torch powers every direction but the one it is attached from, and only
   * when lit; it powers strongly only upwards; weak and strong never overlap.
   */
  lemma TorchOutputs(dir: Direction, powered: bool, d: Direction)
    ensures OutputsPower(RedstoneTorch(dir, powered), d) <==> powered && d != Opposite(dir)
    ensures OutputsStrongPower(RedstoneTorch(dir, powered), d) <==> powered && d == Up
    ensures !(OutputsWeakPower(RedstoneTorch(dir, powered), d) && OutputsStrongPower(RedstoneTorch(dir, powered), d))
    ensures OutputsWeakPower(RedstoneTorch(dir, powered), d) ==> OutputsPower(RedstoneTorch(dir, powered), d)
  {
  }

  /**
   * A torch hanging downwards is the one torch whose strong output is not
   * covered by its general output: it reports strong power up but no power up.
   */
  lemma TorchStrongWithoutPower(dir: Direction, d: Direction)
    ensures OutputsStrongPower(RedstoneTorch(dir, true), d) && !OutputsPower(RedstoneTorch(dir, true), d)
            <==> dir == Down && d == Up
  {
  }

  /** A lamp passes on its input in every direction: strong as strong, weak as weak, never both. */
  lemma LampOutputs(pt: PowerType, d: Direction)
    ensures OutputsPower(RedstoneLamp(pt), d) <==> pt != None
    ensures OutputsStrongPower(RedstoneLamp(pt), d) <==> pt == Strong
    ensures OutputsWeakPower(RedstoneLamp(pt), d) <==> pt == Weak
    ensures OutputsPower(RedstoneLamp(pt), d)
            <==> OutputsStrongPower(RedstoneLamp(pt), d) || OutputsWeakPower(RedstoneLamp(pt), d)
  {
  }

  /** `isPowered` of a lamp. */
  predicate LampIsPowered(pt: PowerType) {
    pt != None
  }

  /**
   * A lever that is on powers every direction, and strongly only the one
   * direction d whose opposite is the lever's own direction.
   */
  lemma LeverOutputs(dir: Direction, on: bool, d: Direction)
    ensures OutputsPower(Lever(dir, on), d) <==> on
    ensures OutputsStrongPower(Lever(dir, on), d) <==> on && d == Opposite(dir)
    ensures OutputsStrongPower(Lever(dir, on), d) ==> OutputsPower(Lever(dir, on), d)
    ensures !IsWeakEmitting(Lever(dir, on)) && !IsUpdateable(Lever(dir, on))
  {
    OppositeInvolution(d);
    OppositeInvolution(dir);
  }

  /** At most one direction receives strong power from a lever. */
  lemma LeverStrongUnique(dir: Direction, on: bool, d: Direction, e: Direction)
    requires OutputsStrongPower(Lever(dir, on), d) && OutputsStrongPower(Lever(dir, on), e)
    ensures d == e
  {
    OppositeInvolution(d);
    OppositeInvolution(e);
  }

  /** A wool block passes on strong input as weak power, and never powers strongly. */
  lemma WoolOutputs(color: int, pt: PowerType, d: Direction)
    ensures OutputsPower(WoolBlock(color, pt), d) <==> pt == Strong
    ensures OutputsWeakPower(WoolBlock(color, pt), d) <==> pt == Strong
    ensures !OutputsStrongPower(WoolBlock(color, pt), d)
    ensures !IsUpdateable(WoolBlock(color, pt))
  {
  }

  /** `IsOpaqueInDirection`, defined by wool only. */
  function IsOpaque(b: Block, d: Direction): (r: bool)
    requires b.WoolBlock?
    ensures r
  {
    true
  }

  /**
   * `SubUpdate` of a wool block, given the input power type the world reports
   * for its position: take that type, keep the colour, report whether it changed.
   */
  function WoolSubUpdate(b: Block, newInput: PowerType): (r: (Block, bool))
    requires b.WoolBlock?
    ensures r.0.WoolBlock? && r.0.color == b.color && r.0.inputPowerType == newInput
    ensures r.1 <==> r.0 != b
  {
    (b.(inputPowerType := newInput), newInput != b.inputPowerType)
  }

  /** `ToRune` of the types that define it; `None` for the others. */
  function ToRune(b: Block): (r: Wrappers.Option<char>)
    ensures r.Some? <==> b.RedstoneTorch? || b.RedstoneLamp? || b.RedstoneBlock?
  {
    match b
    case RedstoneTorch(_, powered) => Wrappers.Some(if powered then 'T' else 't')
    case RedstoneLamp(_) => Wrappers.Some('B')
    case RedstoneBlock => Wrappers.Some('B')
    case _ => Wrappers.None
  }

  /** A torch's rune tells whether it is lit. */
  lemma TorchRune(dir: Direction, powered: bool)
    ensures ToRune(RedstoneTorch(dir, powered)) == Wrappers.Some('T') <==> powered
    ensures ToRune(RedstoneTorch(dir, powered)) == Wrappers.Some('t') <==> !powered
  {
  }

  // ----- rendering choices -----

  const Origin: Point3D := Point3D(0.0, 0.0, 0.0)
  const One: Point3D := Point3D(1.0, 1.0, 1.0)

  /** The redstone block's single red unit cube. */
  function RedstoneBlockCuboids(): (cs: seq<Cuboid>)
    ensures |cs| == 1 && cs[0].color == Colors.RGBA(255, 0, 0, 255)
    ensures cs[0] == MakeAxisAlignedCuboid(Origin, One, cs[0].color)
  {
    [MakeAxisAlignedCuboid(Origin, One, Colors.RGBA(255, 0, 0, 255))]
  }

  /** A lamp is drawn lit whenever it receives any power. */
  function LampColor(pt: PowerType): (c: Colors.RGBA)
    ensures c.a == 255
    ensures LampIsPowered(pt) <==> c == Colors.RGBA(219, 171, 115, 255)
    ensures !LampIsPowered(pt) <==> c == Colors.RGBA(95, 59, 34, 255)
  {
    if pt == Strong then Colors.RGBA(219, 171, 115, 255)
    else if pt == Weak then Colors.RGBA(219, 171, 115, 255)
    else Colors.RGBA(95, 59, 34, 255)
  }

  /** The lamp's single unit cube in its colour. */
  function LampCuboids(pt: PowerType): (cs: seq<Cuboid>)
    ensures |cs| == 1 && cs[0] == MakeAxisAlignedCuboid(Origin, One, LampColor(pt))
  {
    [MakeAxisAlignedCuboid(Origin, One, LampColor(pt))]
  }

  /** The texture of a torch depends on whether it is lit. */
  function TorchTexture(powered: bool): (t: string)
    ensures t == "redstone_torch" <==> powered
  {
    if powered then "redstone_torch" else "redstone_torch_off"
  }

  /** Tilt of the lever's stick about x, in degrees: forward when on, back when off. */
  function LeverTilt(on: bool): (deg: int)
    ensures deg == 45 || deg == -45
    ensures deg > 0 <==> on
  {
    if on then 45 else -45
  }

  /** The rotation (about x, y, z, in degrees) that orients a lever for each direction. */
  function LeverRotation(d: Direction): (r: (int, int, int))
    ensures r.1 != 0 ==> d == Back
  {
    match d
    case Left => (90, 0, 90)
    case Right => (90, 0, -90)
    case Up => (0, 0, 0)
    case Down => (0, 0, 180)
    case Front => (90, 0, 0)
    case Back => (90, 180, 0)
  }

  /** Each direction selects a different rotation. */
  lemma LeverRotationInjective(d: Direction, e: Direction)
    ensures LeverRotation(d) == LeverRotation(e) <==> d == e
  {
  }

  /** The lever's two parts before rotation: a stone base, then the wooden stick. */
  function LeverCuboids(): (cs: seq<Cuboid>)
    ensures |cs| == 2
    ensures cs[0].color == Colors.RGBA(100, 100, 100, 255)
    ensures cs[1].color == Colors.RGBA(160, 127, 81, 255)
  {
    [
      MakeAxisAlignedCuboid(DivideScalar(Point3D(5.0, 0.0, 4.0), 16.0),
                            DivideScalar(Point3D(11.0, 3.0, 12.0), 16.0),
                            Colors.RGBA(100, 100, 100, 255)),
      MakeAxisAlignedCuboid(DivideScalar(Point3D(7.0, 3.0, 7.0), 16.0),
                            DivideScalar(Point3D(9.0, 11.0, 9.0), 16.0),
                            Colors.RGBA(160, 127, 81, 255))
    ]
  }

  /** The texture name of wool: the snake-cased colour name followed by "_wool". */
  function WoolTexture(color: int): (t: string)
    ensures |t| >= 5 && t[|t| - 5..] == "_wool"
  {
    Utils.SnakeCase(Colors.String(color)) + "_wool"
  }

  /** Light blue wool uses the texture "light_blue_wool". */
  lemma WoolTextureLightBlue()
    ensures WoolTexture(3) == "light_blue_wool"
  {
    assert Colors.String(3) == "Light Blue";
    Utils.SnakeCaseLightBlue();
  }

  /** The unit cube in the wool's palette colour. */
  function WoolCuboids(color: int): (cs: seq<Cuboid>)
    ensures |cs| == 1 && cs[0] == MakeAxisAlignedCuboid(Origin, One, Colors.ToRGBA(color))
  {
    [MakeAxisAlignedCuboid(Origin, One, Colors.ToRGBA(color))]
  }
}
