/** The two JavaScript number operations the carousel relies on, over exact
    reals: `Math.round`, which rounds halves toward +infinity, and the `%`
    operator, whose remainder is truncated toward zero and so takes the sign of
    the dividend (unlike Dafny's Euclidean `%` on integers).  Also the
    vocabulary "is a whole multiple of" and "agrees modulo" used to state what
    the carousel keeps invariant. */
module JsMath {

  function Abs(r: real): (a: real)
    ensures 0.0 <= a && (a == r || a == -r)
  {
    if r < 0.0 then -r else r
  }

  /** The k-th multiple of m. */
  function Multiple(k: int, m: real): (r: real)
    ensures k == 0 ==> r == 0.0
  {
    k as real * m
  }

  /** r is a whole multiple of m. */
  ghost predicate IsMultipleOf(r: real, m: real)
  {
    exists k: int :: r == Multiple(k, m)
  }

  /** a and b differ by a whole multiple of m. */
  ghost predicate SameModulo(a: real, b: real, m: real)
  {
    IsMultipleOf(a - b, m)
  }

  lemma SameModuloTrans(a: real, b: real, c: real, m: real)
    requires SameModulo(a, b, m) && SameModulo(b, c, m)
    ensures SameModulo(a, c, m)
  {
    var i: int :| a - b == Multiple(i, m);
    var j: int :| b - c == Multiple(j, m);
    assert a - c == Multiple(i + j, m);
  }

  lemma SameModuloSym(a: real, b: real, m: real)
    requires SameModulo(a, b, m)
    ensures SameModulo(b, a, m)
  {
    var i: int :| a - b == Multiple(i, m);
    assert b - a == Multiple(-i, m);
  }

  /** JavaScript `Math.round`: the integer nearest to r, halves going up
      (`Math.round(-2.5)` is -2, `Math.round(2.5)` is 3). */
  function Round(r: real): (n: int)
    ensures r - 0.5 < n as real <= r + 0.5
  {
    (r + 0.5).Floor
  }

  /** Math.round returns the one integer of the half-open window (r - 1/2, r + 1/2]. */
  lemma RoundUnique(r: real, n: int)
    requires r - 0.5 < n as real <= r + 0.5
    ensures n == Round(r)
  {
  }

  /** Truncation toward zero, the quotient JavaScript's `%` is built on. */
  function Trunc(r: real): (n: int)
    ensures 0.0 <= r ==> 0 <= n && n as real <= r < n as real + 1.0
    ensures r < 0.0 ==> n <= 0 && n as real - 1.0 < r <= n as real
  {
    if r >= 0.0 then r.Floor else -((-r).Floor)
  }

  /** JavaScript's `a % b` for a divisor other than zero (zero gives NaN there):
      the remainder after removing whole multiples of b truncated toward zero.
      It is smaller than b in magnitude, never has the sign opposite to a,
      and differs from a by a whole multiple of b. */
  function JsRem(a: real, b: real): (r: real)
    requires b != 0.0
    ensures Abs(r) < Abs(b)
    ensures 0.0 <= a ==> 0.0 <= r
    ensures a <= 0.0 ==> r <= 0.0
    ensures SameModulo(a, r, b)
  {
    var q := Trunc(a / b);
    var r := a - Multiple(q, b);
    QuotientBounds(a, b, q);
    assert a - r == Multiple(q, b);
    r
  }

  /** The bounds of `a % b` from those of the truncated quotient q of a / b. */
  lemma QuotientBounds(a: real, b: real, q: int)
    requires b != 0.0 && q == Trunc(a / b)
    ensures Abs(a - Multiple(q, b)) < Abs(b)
    ensures 0.0 <= a ==> 0.0 <= a - Multiple(q, b)
    ensures a <= 0.0 ==> a - Multiple(q, b) <= 0.0
  {
    var d := a / b;
    var f := d - q as real;   // the part of the quotient that truncation drops
    var e := a - Multiple(q, b);
    assert e == f * b by { Remainder(a, b, q as real); }
    DivisionSign(a, b);
    assert -1.0 < f < 1.0;
    assert 0.0 <= d ==> 0.0 <= f;
    assert d <= 0.0 ==> f <= 0.0;
    if b > 0.0 {
      PartOf(f, b, e);
    } else {
      assert e == (-f) * (-b);
      PartOf(-f, -b, e);
    }
  }

  /** The dropped part of the quotient, scaled back by a positive divisor,
      stays smaller than the divisor and keeps its sign. */
  lemma PartOf(f: real, b: real, e: real)
    requires b > 0.0 && -1.0 < f < 1.0 && e == f * b
    ensures -b < e < b
    ensures 0.0 <= f ==> 0.0 <= e
    ensures f <= 0.0 ==> e <= 0.0
  {
    ScaleBounds(f, b);
  }

  lemma Remainder(a: real, b: real, q: real)
    requires b != 0.0
    ensures a - q * b == (a / b - q) * b
  {
  }

  /** The quotient has the sign of a when b is positive, the opposite one otherwise. */
  lemma DivisionSign(a: real, b: real)
    requires b != 0.0
    ensures b > 0.0 ==> (0.0 <= a <==> 0.0 <= a / b) && (a <= 0.0 <==> a / b <= 0.0)
    ensures b < 0.0 ==> (0.0 <= a <==> a / b <= 0.0) && (a <= 0.0 <==> 0.0 <= a / b)
  {
  }

  lemma ScaleBounds(f: real, b: real)
    requires b > 0.0 && -1.0 < f < 1.0
    ensures -b < f * b < b
    ensures 0.0 <= f ==> 0.0 <= f * b
    ensures f <= 0.0 ==> f * b <= 0.0
  {
  }
}
