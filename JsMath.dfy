/** JavaScript's numeric operations, stated over exact reals and integers.
    `Math.floor` is Dafny's `.Floor`; the others differ from Dafny's built-ins
    and are written out here. */
module JsMath {

  /** `Math.round(x)`: the nearest integer, halves rounded up. */
  function Round(x: real): (r: int)
    ensures r as real - 0.5 <= x < r as real + 0.5
  {
    (x + 0.5).Floor
  }

  /** A whole number rounds to itself. */
  lemma RoundOfWhole(x: real)
    requires x.Floor as real == x
    ensures Round(x) as real == x
  {
    RoundOfInt(x.Floor);
  }

  lemma RoundOfInt(k: int)
    ensures Round(k as real) == k
  {
  }

  lemma ProductOfWholes(a: int, c: int)
    ensures (a * c) as real == a as real * c as real
  {
  }

  /** An integer within one half of an integer `c`, from below, is at most `c`. */
  lemma WholeAtMost(a: int, c: int)
    requires a as real <= c as real + 0.5
    ensures a <= c
  {
  }

  /** `Math.ceil(x)`: the least integer not below `x`. */
  function Ceil(x: real): (r: int)
    ensures x <= r as real < x + 1.0
  {
    -((-x).Floor)
  }

  /** Truncation toward zero, as JavaScript's `%` uses it. */
  function Trunc(x: real): (r: int)
    ensures x >= 0.0 ==> r == x.Floor
    ensures x < 0.0 ==> r == Ceil(x)
  {
    if x >= 0.0 then x.Floor else -((-x).Floor)
  }

  /** JavaScript's `a % b` on numbers: the remainder of truncated division, which
      takes the sign of `a`. */
  function RealRem(a: real, b: real): (r: real)
    requires b > 0.0
    ensures a >= 0.0 ==> 0.0 <= r < b && r == a - b * (a / b).Floor as real
    ensures a < 0.0 ==> -b < r <= 0.0
  {
    TruncatedRemainderBounds(a, b);
    a - b * Trunc(a / b) as real
  }

  /** The remainder of truncated division lies strictly within `b` of zero, on the
      side of `a`; for a non-negative `a` truncation and flooring agree. */
  lemma TruncatedRemainderBounds(a: real, b: real)
    requires b > 0.0
    ensures a >= 0.0 ==> 0.0 <= a - b * Trunc(a / b) as real < b
    ensures a < 0.0 ==> -b < a - b * Trunc(a / b) as real <= 0.0
  {
    var t := Trunc(a / b) as real;
    if a / b >= 0.0 {
      BetweenMultiples(a, b, t);
    } else {
      assert -a / b == -(a / b);
      BetweenMultiples(-a, b, -t);
    }
  }

  /** If `a / b` lies in `[t, t + 1)` then `a` lies in `[b * t, b * t + b)`. */
  lemma BetweenMultiples(a: real, b: real, t: real)
    requires b > 0.0
    requires t <= a / b < t + 1.0
    ensures b * t <= a < b * t + b
  {
    ScaledLower(a, b, a / b, t);
    ScaledUpper(a, b, a / b, t);
  }

  lemma ScaledLower(a: real, b: real, q: real, t: real)
    requires b > 0.0 && a == b * q && t <= q
    ensures b * t <= a
  {
    NonNegativeProduct(b, q - t);
    assert b * (q - t) == b * q - b * t;
  }

  lemma ScaledUpper(a: real, b: real, q: real, t: real)
    requires b > 0.0 && a == b * q && q < t + 1.0
    ensures a < b * t + b
  {
    var e := t + 1.0 - q;
    PositiveProduct(b, e);
    assert b * e == b * t + b - b * q;
  }

  lemma PositiveProduct(b: real, d: real)
    requires b > 0.0 && d > 0.0
    ensures b * d > 0.0
  {
  }

  lemma NonNegativeProduct(b: real, d: real)
    requires b > 0.0 && d >= 0.0
    ensures b * d >= 0.0
  {
  }

  /** `Math.floor(a / b)` is `k` exactly when `a` lies in `[b * k, b * k + b)`. */
  lemma FloorOfQuotient(a: real, b: real, k: int)
    requires b > 0.0
    ensures (a / b).Floor == k <==> b * k as real <= a < b * k as real + b
  {
    var t := (a / b).Floor;
    BetweenMultiples(a, b, t as real);
    if b * k as real <= a < b * k as real + b {
      QuotientLower(a, b, k as real);
      QuotientUpper(a, b, k as real + 1.0);
      assert b * (k as real + 1.0) == b * k as real + b;
    }
  }

  lemma ScaleMonotone(b: real, u: real, v: real)
    requires b > 0.0 && u <= v
    ensures b * u <= b * v
  {
    NonNegativeProduct(b, v - u);
    assert b * (v - u) == b * v - b * u;
  }

  lemma QuotientLower(a: real, b: real, k: real)
    requires b > 0.0 && b * k <= a
    ensures k <= a / b
  {
    var q := a / b;
    assert a == b * q;
    if q < k {
      PositiveProduct(b, k - q);
      assert false;
    }
  }

  lemma QuotientUpper(a: real, b: real, k: real)
    requires b > 0.0 && a < b * k
    ensures a / b < k
  {
    var q := a / b;
    assert a == b * q;
    if q >= k {
      NonNegativeProduct(b, q - k);
      assert false;
    }
  }

  /** JavaScript's `a % b` on integers: the remainder takes the sign of `a`,
      unlike Dafny's `%`, whose remainder is never negative. */
  function IntRem(a: int, b: int): (r: int)
    requires b > 0
    ensures a >= 0 ==> r == a % b
    ensures -b < r < b
    ensures a < 0 ==> r <= 0
  {
    if a >= 0 then a % b else -((-a) % b)
  }
}
