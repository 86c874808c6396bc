/** Integer grid vectors (core/vector.go). */
module Vectors {

  datatype Vec3 = Vec3(x: int, y: int, z: int)

  /** Componentwise sum. */
  function Add(v: Vec3, other: Vec3): Vec3 {
    Vec3(v.x + other.x, v.y + other.y, v.z + other.z)
  }

  /** Componentwise difference. */
  function Subtract(v: Vec3, other: Vec3): Vec3 {
    Vec3(v.x - other.x, v.y - other.y, v.z - other.z)
  }

  /** The additive inverse, used to state how opposite directions relate. */
  function Negate(v: Vec3): Vec3 {
    Vec3(-v.x, -v.y, -v.z)
  }

  /** Exactly one component is non-zero, and it is 1 or -1. */
  predicate IsUnitAxis(v: Vec3) {
    || ((v.x == 1 || v.x == -1) && v.y == 0 && v.z == 0)
    || (v.x == 0 && (v.y == 1 || v.y == -1) && v.z == 0)
    || (v.x == 0 && v.y == 0 && (v.z == 1 || v.z == -1))
  }

  /** Reference definition: v lies in the half-open box [lo, hi) on every axis. */
  predicate InBox(v: Vec3, lo: Vec3, hi: Vec3) {
    lo.x <= v.x < hi.x && lo.y <= v.y < hi.y && lo.z <= v.z < hi.z
  }

  /**
   * Despite its name, `InRange` answers whether v lies OUTSIDE the half-open
   * box [lo, hi) on at least one axis; the world's accessors rely on that.
   */
  function InRange(v: Vec3, lo: Vec3, hi: Vec3): (r: bool)
    ensures r <==> !InBox(v, lo, hi)
  {
    v.x < lo.x || v.x >= hi.x || v.y < lo.y || v.y >= hi.y || v.z < lo.z || v.z >= hi.z
  }

  /** The vector with all three components equal to `s`. */
  function FromScalar(s: int): (r: Vec3)
    ensures r.x == r.y == r.z == s
  {
    Vec3(s, s, s)
  }

  /** Subtracting what was added gives the original vector back. */
  lemma SubtractUndoesAdd(v: Vec3, other: Vec3)
    ensures Subtract(Add(v, other), other) == v
    ensures Add(Subtract(v, other), other) == v
  {
  }
}
