// C integer operators the rasteriser relies on, stated over unbounded ints,
// and the few facts about multiplication and division the proofs need.

module Arith {

  /** abs() */
  function Abs(v: int): nat
  {
    if v < 0 then -v else v
  }

  /** C's `/` on int: the magnitude is the floor of |a| / |b| and the sign is the
      product of the operands' signs, i.e. truncation toward zero (Dafny's `/` is
      Euclidean). */
  function CDiv(a: int, b: int): (q: int)
    requires b != 0
    ensures Abs(q) == Abs(a) / Abs(b)
    ensures (a >= 0 && b > 0) || (a <= 0 && b < 0) ==> q >= 0
    ensures (a >= 0 && b < 0) || (a <= 0 && b > 0) ==> q <= 0
  {
    var m: int := Quot(Abs(a), Abs(b));
    if (a < 0) == (b < 0) then m else -m
  }

  /** The quotient of two naturals is a natural. */
  function Quot(u: nat, v: nat): nat
    requires v > 0
  {
    u / v
  }

  /** C's `>> 4` on an int whose sign bit is copied in (arithmetic shift): floor of a / 16. */
  function ShiftRight4(a: int): (r: int)
    ensures 16 * r <= a < 16 * r + 16
  {
    a / 16
  }

  /** Division is determined by the bounds it must satisfy. */
  lemma DivFromBounds(a: int, b: int, q: int)
    requires b > 0 && q * b <= a < (q + 1) * b
    ensures a / b == q
  {
    var r := a / b;
    assert a == r * b + a % b;
    if r > q {
      MulLe(q + 1, r, b);
    } else if r < q {
      MulLe(r + 1, q, b);
    }
  }

  lemma MulLe(u: int, v: int, m: int)
    requires u <= v && m >= 0
    ensures u * m <= v * m
  {
    assert v * m - u * m == (v - u) * m;
  }

  /** Scaling by two factors keeps order and sign when both are non-negative. */
  lemma ScaleBound(a: int, b: int, c: int, e: int)
    requires 0 <= a <= b && e >= 0
    ensures c >= 0 ==> 0 <= a * c * e <= b * c * e
  {
    if c >= 0 {
      MulLe(0, a, c);
      MulLe(a, b, c);
      MulLe(0, a * c, e);
      MulLe(a * c, b * c, e);
    }
  }

  /** Scaling a sum by two factors scales each summand. */
  lemma ScaleSum(a: int, b: int, c: int, e: int)
    ensures (a + b) * c * e == a * c * e + b * c * e
  {
    assert (a + b) * c == a * c + b * c;
  }

  /** Cancelling a positive factor from a strict inequality. */
  lemma MulLtCancel(u: int, v: int, m: int)
    requires m > 0 && u * m < v * m
    ensures u < v
  {
    if u >= v {
      MulLe(v, u, m);
    }
  }
}
