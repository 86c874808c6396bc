/**
 * Go's integer operators where they differ from Dafny's: Go's `/` and `%`
 * truncate toward zero, Dafny's are Euclidean.
 */
module GoInt {

  /** Absolute value. */
  function Abs(x: int): (r: nat)
    ensures r == x || r == -x
  {
    if x < 0 then -x else x
  }

  /** Go's built-in `min` on two integers. */
  function Min(a: int, b: int): (r: int)
    ensures r <= a && r <= b
    ensures r == a || r == b
  {
    if a <= b then a else b
  }

  /** Go's `a / b` on integers: the quotient truncated toward zero. */
  function Quo(a: int, b: int): (q: int)
    requires b != 0
  {
    var q0 := Abs(a) / Abs(b);
    if (a < 0) == (b < 0) then q0 else -q0
  }

  /** Go's `a % b` on integers: the remainder takes the sign of the dividend. */
  function Rem(a: int, b: int): (r: int)
    requires b != 0
    ensures Abs(r) < Abs(b)
    ensures r == 0 || (r < 0 <==> a < 0)
  {
    var r0 := Abs(a) % Abs(b);
    if a < 0 then -r0 else r0
  }

  lemma Negation(x: int, y: int)
    ensures -x * y == -(x * y) && x * -y == -(x * y)
  {
  }

  /**
   * Go's division identity: the quotient times the divisor plus the remainder
   * is the dividend. With the bounds on `Rem` this pins both down.
   */
  lemma QuoRem(a: int, b: int)
    requires b != 0
    ensures a == Quo(a, b) * b + Rem(a, b)
  {
    var m: int, n: int := Abs(a), Abs(b);
    var q0: int, r0: int := m / n, m % n;
    assert m == q0 * n + r0;
    Negation(q0, n);
    if a >= 0 && b > 0 {
      assert Quo(a, b) == q0 && Rem(a, b) == r0 && b == n;
    } else if a >= 0 {
      assert Quo(a, b) == -q0 && Rem(a, b) == r0 && b == -n;
      Negation(-q0, n);
    } else if b > 0 {
      assert Quo(a, b) == -q0 && Rem(a, b) == -r0 && b == n;
    } else {
      assert Quo(a, b) == q0 && Rem(a, b) == -r0 && b == -n;
    }
  }

  /** On non-negative dividends Go's `%` agrees with Dafny's. */
  lemma RemNonNegative(a: int, b: int)
    requires a >= 0 && b > 0
    ensures Rem(a, b) == a % b
  {
    assert Abs(a) == a && Abs(b) == b;
  }

  /** Multiplying by a non-negative number keeps an order. */
  lemma MulMonotone(a: int, b: int, c: int)
    requires a <= b && c >= 0
    ensures a * c <= b * c
  {
    assert b * c - a * c == (b - a) * c;
  }

  /** A positive factor can be cancelled from a strict order. */
  lemma MulCancel(a: int, b: int, c: int)
    requires c > 0 && a * c < b * c
    ensures a < b
  {
    assert (b - a) * c == b * c - a * c;
  }
}
