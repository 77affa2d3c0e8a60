/** The reward curves that turn vote shares into claims and curation weights. */
module Curves {
  import opened Assets

  datatype Curve = Quadratic(constant: int) | QuadraticCuration(constant: int) | Linear | SquareRoot

  /** Content constants are positive. */
  ghost predicate CurveOk(c: Curve)
  {
    (c.Quadratic? || c.QuadraticCuration?) ==> 0 < c.constant
  }

  function Pow2(n: nat): int
  {
    if n == 0 then 1 else 2 * Pow2(n - 1)
  }

  lemma {:induction false} Pow2Positive(n: nat)
    ensures 0 < Pow2(n)
  {
    if n != 0 {
      Pow2Positive(n - 1);
    }
  }

  lemma {:induction false} Pow2Adds(m: nat, n: nat)
    ensures Pow2(m + n) == Pow2(m) * Pow2(n)
  {
    if m != 0 {
      Pow2Adds(m - 1, n);
      assert Pow2(m) * Pow2(n) == 2 * (Pow2(m - 1) * Pow2(n));
    }
  }

  /** The position of the highest bit. */
  function Msb(x: int): (m: nat)
    requires 0 < x
    ensures Pow2(m) <= x < Pow2(m + 1)
  {
    if x == 1 then 0 else 1 + Msb(x / 2)
  }

  /**
   approx_sqrt: half the exponent, half the mantissa bits. The low part is smaller than the highest bit
   of the result, so joining the bits is adding them.
   */
  function ApproxSqrt(x: int): (r: int)
    requires 0 <= x
  {
    if x == 0 then 0 else
    var m := Msb(x);
    var z := m / 2;
    Pow2Positive(m - z);
    var low := (x - Pow2(m)) / Pow2(m - z);
    var high := if m % 2 == 1 then Pow2(z) else 0;
    Pow2(z) + (high + low) / 2
  }

  /** The smallest value of the approximation among numbers with highest bit m. */
  function Least(m: nat): int
  {
    Pow2(m / 2) + (if m % 2 == 1 then Pow2(m / 2) else 0) / 2
  }

  lemma MantissaFits(x: int, m: nat)
    requires Pow2(m) <= x < Pow2(m + 1)
    ensures 0 < Pow2(m - m / 2) && 0 <= (x - Pow2(m)) / Pow2(m - m / 2) < Pow2(m / 2)
  {
    var z := m / 2;
    Pow2Positive(m - z);
    Pow2Adds(z, m - z);
    assert z + (m - z) == m;
    QuotientBelow(x - Pow2(m), Pow2(m - z), Pow2(z));
  }

  lemma QuotientBelow(a: int, b: int, c: int)
    requires 0 <= a < c * b && 0 < b
    ensures 0 <= a / b < c
  {
    MulDivAtLeast(a, 1, b, c);
    assert MulDiv(a, 1, b) == a / b;
    MulDivBounds(a, 1, b);
  }

  lemma SqrtRange(x: int)
    requires 0 < x
    ensures Least(Msb(x)) <= ApproxSqrt(x) <= Least(Msb(x) + 1)
  {
    var m := Msb(x);
    MantissaFits(x, m);
    Pow2Positive(m / 2);
    if m % 2 == 1 {
      assert (m + 1) / 2 == m / 2 + 1;
    } else {
      assert (m + 1) / 2 == m / 2;
    }
  }

  lemma {:induction false} LeastGrows(m: nat, n: nat)
    requires m <= n
    ensures Least(m) <= Least(n)
    decreases n
  {
    if m < n {
      LeastGrows(m, n - 1);
      Pow2Positive(n / 2);
      if n % 2 == 1 {
        assert (n - 1) / 2 == n / 2;
      } else {
        assert n / 2 == (n - 1) / 2 + 1;
        Pow2Positive((n - 1) / 2);
      }
    }
  }

  lemma {:induction false} MsbGrows(x: int, y: int)
    requires 0 < x <= y
    ensures Msb(x) <= Msb(y)
  {
    if x != 1 {
      MsbGrows(x / 2, y / 2);
    }
  }

  lemma QuotientGrows(a: int, b: int, d: int)
    requires 0 <= a <= b && 0 < d
    ensures a / d <= b / d
  {
    MulDivMonotone(a, b, 1, d);
    assert MulDiv(a, 1, d) == a / d && MulDiv(b, 1, d) == b / d;
  }

  lemma SqrtWithinBit(x: int, y: int)
    requires 0 < x <= y && Msb(x) == Msb(y)
    ensures ApproxSqrt(x) <= ApproxSqrt(y)
  {
    var m := Msb(x);
    Pow2Positive(m - m / 2);
    QuotientGrows(x - Pow2(m), y - Pow2(m), Pow2(m - m / 2));
  }

  lemma LeastPositive(m: nat)
    ensures 0 < Least(m)
  {
    Pow2Positive(m / 2);
  }

  lemma ApproxSqrtMonotone(x: int, y: int)
    requires 0 <= x <= y
    ensures 0 <= ApproxSqrt(x) <= ApproxSqrt(y)
  {
    SqrtAtZero();
    hide Msb, ApproxSqrt, Least;
    if 0 < x {
      MsbGrows(x, y);
      SqrtRange(x);
      SqrtRange(y);
      LeastPositive(Msb(x));
      if Msb(x) < Msb(y) {
        LeastGrows(Msb(x) + 1, Msb(y));
      } else {
        SqrtWithinBit(x, y);
      }
    } else if 0 < y {
      SqrtRange(y);
      LeastPositive(Msb(y));
    }
  }

  /** evaluate_reward_curve. */
  function Evaluate(c: Curve, rshares: int): int
    requires CurveOk(c) && 0 <= rshares
  {
    match c
    case Quadratic(s) => (rshares + s) * (rshares + s) - s * s
    case QuadraticCuration(s) => MulDiv(0x1_0000_0000_0000_0000, rshares, 2 * s + rshares)
    case Linear => rshares
    case SquareRoot => ApproxSqrt(rshares)
  }

  /** The quadratic curve: the square of the shares and twice their product with the content constant. */
  lemma QuadraticIs(s: int, r: int)
    requires 0 < s && 0 <= r
    ensures Evaluate(Quadratic(s), r) == r * r + 2 * s * r
  {
    Square(r, s);
    assert 2 * s * r == 2 * (r * s);
  }

  /** The curation curve saturates: half of 2^64 at twice the content constant, never all of it. */
  lemma SaturationIs(s: int, r: int)
    requires 0 < s && 0 <= r
    ensures var e, scale := Evaluate(QuadraticCuration(s), r), 0x1_0000_0000_0000_0000;
      && e * (2 * s + r) <= scale * r < (e + 1) * (2 * s + r) && e < scale && (r == 2 * s ==> 2 * e == scale)
  {
    var scale := 0x1_0000_0000_0000_0000;
    MulDivBounds(scale, r, 2 * s + r);
    MulDivAtLeast(scale, r, 2 * s + r, scale);
    if r == 2 * s {
      MulDivAtLeast(scale, r, 2 * s + r, scale / 2);
      MulDivAtLeast(scale, r, 2 * s + r, scale / 2 + 1);
    }
  }

  lemma Squares(p: int, u: int)
    ensures (p + u) * (p + u) == p * p + 2 * (p * u) + u * u
    ensures (p + u + 1) * (p + u + 1) == p * p + 2 * (p * u) + u * u + 2 * p + 2 * u + 1
    ensures 0 <= p * p - 2 * (p * u) + u * u - 2 * p + 2 * u + 1
  {
    var d := p - u - 1;
    assert 0 <= d * d;
    assert d * d == p * p - 2 * (p * u) + u * u - 2 * p + 2 * u + 1;
  }

  lemma Mixed(p: int, u: int)
    requires p <= 2 * u && u <= 2 * p
    ensures 2 * (p * p) + 2 * (u * u) <= 5 * (p * u)
  {
    var x, y := 2 * p - u, 2 * u - p;
    assert 0 <= x * y;
    assert x * y == 5 * (p * u) - 2 * (p * p) - 2 * (u * u);
  }

  lemma Between(p: int, u: int, low: int)
    requires 0 < p && 2 * u <= p + low <= 2 * u + 1
    ensures 2 * (p * u) - p * p <= low * p && (low + 1) * p <= 2 * (p * u) + 2 * p - p * p
  {
    assert (2 * u - p) * p <= low * p;
    assert (low + 1) * p <= (2 * u + 2 - p) * p;
    assert (2 * u - p) * p == 2 * (p * u) - p * p;
    assert (2 * u + 2 - p) * p == 2 * (p * u) + 2 * p - p * p;
  }

  lemma Halved(p: int, t: int, low: int)
    requires 0 < p && 2 * t <= low <= 2 * t + 1
    ensures 2 * (p * t) <= low * p && (low + 1) * p <= 2 * (p * t) + 2 * p
  {
    assert (2 * t) * p <= low * p;
    assert (low + 1) * p <= (2 * t + 2) * p;
    assert (2 * t) * p == 2 * (p * t);
    assert (2 * t + 2) * p == 2 * (p * t) + 2 * p;
  }

  lemma SmallHalf(p: int, t: int)
    requires 0 <= t && 2 * t <= p
    ensures 8 * (t * t) <= p * p + 2 * (p * t)
  {
    var x, y := p - 2 * t, p + 4 * t;
    assert 0 <= x * y;
    assert x * y == p * p + 2 * (p * t) - 8 * (t * t);
  }

  /** Adding and halving: what the bit tricks come to, for a highest bit at an even and at an odd place. */
  lemma EvenRoot(x: int, p: int, low: int)
    requires 0 < p && p * p + low * p <= x < p * p + (low + 1) * p && 0 <= low < p
    ensures var r := p + low / 2; 8 * (r * r) <= 9 * x && x < (r + 1) * (r + 1)
  {
    var t := low / 2;
    Squares(p, t);
    Halved(p, t, low);
    SmallHalf(p, t);
    assert 0 <= t * t;
  }

  lemma OddRoot(x: int, p: int, low: int)
    requires 0 < p && 2 * (p * p) + 2 * (low * p) <= x < 2 * (p * p) + 2 * ((low + 1) * p) && 0 <= low < p
    requires (p == 1 || p % 2 == 0)
    ensures var r := p + (p + low) / 2; 8 * (r * r) <= 9 * x && x < (r + 1) * (r + 1)
  {
    var u := (p + low) / 2;
    if p != 1 {
      Squares(p, u);
      Mixed(p, u);
      Between(p, u, low);
    }
  }

  /** Powers of two are even from the first on. */
  lemma Pow2Even(n: nat)
    ensures Pow2(n) == 1 || Pow2(n) % 2 == 0
  {
  }

  /** The approximate root is at most a sixteenth too large and less than one too small. */
  lemma SqrtIsClose(x: int)
    requires 0 <= x
    ensures var r := ApproxSqrt(x); 0 <= r && 8 * (r * r) <= 9 * x && (x == 0 || x < (r + 1) * (r + 1))
  {
    if 0 < x {
      var m := Msb(x);
      var z := m / 2;
      MantissaFits(x, m);
      Pow2Positive(z);
      Pow2Even(z);
      Pow2Adds(z, m - z);
      RootBits(x, m, z, Pow2(z), Pow2(m - z));
    }
  }

  lemma RootBits(x: int, m: nat, z: nat, p: int, q: int)
    requires 0 < x && m == Msb(x) && z == m / 2 && p == Pow2(z) && q == Pow2(m - z) && Pow2(m) == p * q && 0 < p
    requires 0 < q
    requires p == 1 || p % 2 == 0
    requires 0 <= (x - Pow2(m)) / q < p
    ensures var r := ApproxSqrt(x); 0 <= r && 8 * (r * r) <= 9 * x && x < (r + 1) * (r + 1)
  {
    hide Msb, ApproxSqrt;
    var low := (x - p * q) / q;
    assert low == (x - Pow2(m)) / q;
    RootIs(x, m, z, p, q, low);
    Division(x - p * q, q);
    assert m % 2 == 1 ==> m - z == z + 1 && q == 2 * p;
    assert m % 2 == 0 ==> m - z == z && q == p;
    hide Pow2;
    if m % 2 == 1 {
      DoubleStep(p, q, low);
      OddRoot(x, p, low);
    } else {
      EvenRoot(x, p, low);
    }
  }

  lemma DoubleStep(p: int, q: int, low: int)
    requires q == 2 * p
    ensures p * q == 2 * (p * p) && low * q == 2 * (low * p) && (low + 1) * q == 2 * ((low + 1) * p)
  {
  }

  /** The bits of the approximation, with the powers of two named. */
  lemma RootIs(x: int, m: nat, z: nat, p: int, q: int, low: int)
    requires 0 < x && m == Msb(x) && z == m / 2 && p == Pow2(z) && q == Pow2(m - z) && 0 < q && low == (x - Pow2(m)) / q
    ensures ApproxSqrt(x) == if m % 2 == 1 then p + (p + low) / 2 else p + low / 2
  {
    hide Msb, Pow2;
  }

  lemma Division(a: int, b: int)
    requires 0 < b
    ensures a / b * b <= a < (a / b + 1) * b
  {
  }

  lemma QuadraticMonotone(s: int, a: int, b: int)
    requires 0 < s && 0 <= a <= b
    ensures 0 <= (a + s) * (a + s) - s * s <= (b + s) * (b + s) - s * s
  {
    Square(a, s);
    Square(b, s);
    assert 0 <= a * a <= a * b <= b * b;
    assert 0 <= a * s <= b * s;
  }

  lemma Square(a: int, s: int)
    ensures (a + s) * (a + s) - s * s == a * a + 2 * (a * s)
  {
  }

  lemma SaturationMonotone(s: int, a: int, b: int, scale: int)
    requires 0 < s && 0 <= a <= b && 0 <= scale
    ensures 0 <= MulDiv(scale, a, 2 * s + a) <= MulDiv(scale, b, 2 * s + b)
  {
    assert a * (2 * s) <= b * (2 * s);
    assert a * (2 * s + b) == a * (2 * s) + a * b;
    assert b * (2 * s + a) == b * (2 * s) + a * b;
    BetterRatioGivesMore(scale, b, 2 * s + b, a, 2 * s + a);
    MulDivBounds(scale, a, 2 * s + a);
  }

  /** Every curve is zero at zero and never falls, so a vote's weight is never negative. */
  lemma CurveMonotone(c: Curve, a: int, b: int)
    requires CurveOk(c) && 0 <= a <= b
    ensures Evaluate(c, 0) == 0
    ensures 0 <= Evaluate(c, a) <= Evaluate(c, b)
  {
    hide ApproxSqrt, MulDiv;
    match c
    case Quadratic(s) => QuadraticMonotone(s, a, b);
    case QuadraticCuration(s) =>
      SaturationMonotone(s, a, b, 0x1_0000_0000_0000_0000);
      SaturationAtZero(s, 0x1_0000_0000_0000_0000);
    case Linear =>
    case SquareRoot =>
      ApproxSqrtMonotone(a, b);
      SqrtAtZero();
  }

  lemma SaturationAtZero(s: int, scale: int)
    requires 0 < s && 0 <= scale
    ensures MulDiv(scale, 0, 2 * s) == 0
  {
    MulDivBounds(scale, 0, 2 * s);
    MulDivAtLeast(scale, 0, 2 * s, 1);
    hide MulDiv;
  }

  lemma SqrtAtZero()
    ensures ApproxSqrt(0) == 0
  {
  }
}
