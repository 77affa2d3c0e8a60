/** Amounts, prices and the floor division they are converted with. */
module Assets {
  import opened Sums

  datatype Symbol = STEEM | SBD | VESTS

  datatype Asset = Asset(amount: int, symbol: Symbol) {
    function Negate(): Asset { Asset(-amount, symbol) }
  }

  /** The median feed: so many SBD for so many STEEM, or no feed yet. */
  datatype Price = NoPrice | Price(sbd: int, steem: int)

  ghost predicate Sound(p: Price)
  {
    p.Price? ==> 0 < p.sbd && 0 < p.steem
  }

  /** Exact product, then floor division, as 128-bit asset arithmetic does it. */
  function MulDiv(x: int, num: int, den: int): int
    requires 0 < den
  {
    x * num / den
  }

  lemma MulDivBounds(x: int, num: int, den: int)
    requires 0 <= x && 0 <= num && 0 < den
    ensures 0 <= MulDiv(x, num, den)
    ensures MulDiv(x, num, den) * den <= x * num < (MulDiv(x, num, den) + 1) * den
  {
    assert 0 <= x * num;
  }

  /** Floor is the largest integer below: the test callers use to compare with a quotient. */
  lemma MulDivAtLeast(x: int, num: int, den: int, k: int)
    requires 0 <= x && 0 <= num && 0 < den
    ensures k <= MulDiv(x, num, den) <==> k * den <= x * num
  {
    MulDivBounds(x, num, den);
    var q := MulDiv(x, num, den);
    if k <= q {
      assert k * den <= q * den;
    } else {
      assert (q + 1) * den <= k * den;
    }
  }

  /** A share of x no larger than the whole: num of den parts. */
  lemma MulDivShare(x: int, num: int, den: int)
    requires 0 <= x && 0 <= num <= den && 0 < den
    ensures 0 <= MulDiv(x, num, den) <= x
  {
    MulDivBounds(x, num, den);
    MulDivAtLeast(x, num, den, x + 1);
    BelowNextMultiple(x, num, den);
    hide MulDiv;
  }

  lemma BelowNextMultiple(x: int, num: int, den: int)
    requires 0 <= x && num <= den && 0 < den
    ensures x * num < (x + 1) * den
  {
    assert 0 <= x * (den - num);
  }

  lemma MulDivMonotone(x: int, y: int, num: int, den: int)
    requires 0 <= x <= y && 0 <= num && 0 < den
    ensures MulDiv(x, num, den) <= MulDiv(y, num, den)
  {
    MulDivBounds(x, num, den);
    MulDivAtLeast(y, num, den, MulDiv(x, num, den));
    assert x * num <= y * num;
  }

  function ToSteem(p: Price, sbd: int): int
    requires p.Price? && 0 < p.sbd
  {
    MulDiv(sbd, p.steem, p.sbd)
  }

  function ToSbd(p: Price, steem: int): int
    requires p.Price? && 0 < p.steem
  {
    MulDiv(steem, p.sbd, p.steem)
  }

  // ----- ratios -----

  /** a/b >= c/d and c/d >= e/f give a/b >= e/f. */
  lemma RatioTransitive(a: int, b: int, c: int, d: int, e: int, f: int)
    requires 0 < b && 0 < d && 0 < f && 0 <= a && 0 <= c && 0 <= e
    requires c * b <= a * d && e * d <= c * f
    ensures e * b <= a * f
  {
    calc {
      (e * b) * d;
      == (e * d) * b;
      <= (c * f) * b;
      == (c * b) * f;
      <= (a * d) * f;
      == (a * f) * d;
    }
    CancelFactor(e * b, a * f, d);
  }

  lemma CancelFactor(x: int, y: int, d: int)
    requires 0 < d && x * d <= y * d
    ensures x <= y
  {
  }

  /** A unit price at least as good gives at least as much, rounding included. */
  lemma BetterRatioGivesMore(x: int, a: int, b: int, c: int, d: int)
    requires 0 <= x && 0 <= a && 0 < b && 0 <= c && 0 < d && c * b <= a * d
    ensures MulDiv(x, c, d) <= MulDiv(x, a, b)
  {
    var q := MulDiv(x, c, d);
    MulDivBounds(x, c, d);
    MulDivAtLeast(x, a, b, q);
    // q / x <= c / d <= a / b
    if 0 < x {
      assert c * x == x * c && a * x == x * a;
      RatioTransitive(a, b, c, d, q, x);
    } else {
      assert x * c == 0;
    }
  }

  /** x at price a/b gives y; y at a price c/d with (a/b)(c/d) <= 1 gives no more than x back. */
  lemma FloorRoundTrip(x: int, a: int, b: int, c: int, d: int)
    requires 0 <= x && 0 < a && 0 < b && 0 < c && 0 < d && c * a <= b * d
    ensures MulDiv(MulDiv(x, a, b), c, d) <= x
  {
    var y := MulDiv(x, a, b);
    MulDivBounds(x, a, b);
    MulDivBounds(y, c, d);
    MulDivAtLeast(y, c, d, x + 1);
    if 0 < y {
      // y * b <= x * a says x / y >= b / a >= c / d
      assert b * y <= x * a;
      RatioTransitive(x, y, b, a, c, d);
      assert y * c == c * y;
    } else {
      assert y * c == 0;
    }
    assert x * d < (x + 1) * d;
  }

  /** Rounded shares of x in the ratios num/den never exceed their exact sum. */
  lemma {:induction false} FloorSharesFit<T>(s: set<T>, x: int, den: int, num: T -> int, share: T -> int)
    requires 0 <= x && 0 < den && forall k :: k in s ==> 0 <= num(k) && share(k) == MulDiv(x, num(k), den)
    ensures 0 <= Sum(s, share) && Sum(s, share) * den <= x * Sum(s, num)
  {
    if s != {} {
      var k :| k in s;
      SumTake(s, k, share);
      SumTake(s, k, num);
      FloorSharesFit(s - {k}, x, den, num, share);
      MulDivBounds(x, num(k), den);
      hide MulDiv, Sum;
      Distribute(x, num(k), Sum(s - {k}, num));
      Distribute(den, share(k), Sum(s - {k}, share));
    }
  }

  lemma Distribute(x: int, a: int, b: int)
    ensures x * (a + b) == x * a + x * b && (a + b) * x == a * x + b * x
  {
  }

  /** What is paid in proportion to a part of the total is at most the whole. */
  lemma PartOfLess(max: int, weight: int, total: int, paid: int)
    requires 0 <= max && weight <= total && 0 < total && paid * total <= max * weight
    ensures paid <= max
  {
    assert max * weight <= max * total;
    CancelFactor(paid, max, total);
  }
}
