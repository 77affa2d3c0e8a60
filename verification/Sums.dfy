/** Finite sums over sets and maps, with the algebra the conservation and recount proofs use. */
module Sums {

  /** The sum of f over the elements of s. */
  ghost function Sum<T>(s: set<T>, f: T -> int): int
  {
    if s == {} then 0 else
    var x :| x in s;
    f(x) + Sum(s - {x}, f)
  }

  /** Any element can be taken out of a sum first. */
  lemma {:induction false} SumTake<T>(s: set<T>, x: T, f: T -> int)
    requires x in s
    ensures Sum(s, f) == f(x) + Sum(s - {x}, f)
  {
    var y :| y in s && Sum(s, f) == f(y) + Sum(s - {y}, f);
    if y != x {
      SumTake(s - {y}, x, f);
      SumTake(s - {x}, y, f);
      assert s - {y} - {x} == s - {x} - {y};
    }
  }

  lemma {:induction false} SumAgree<T>(s: set<T>, f: T -> int, g: T -> int)
    requires forall x :: x in s ==> f(x) == g(x)
    ensures Sum(s, f) == Sum(s, g)
  {
    if s != {} {
      var x :| x in s;
      SumTake(s, x, f);
      SumTake(s, x, g);
      SumAgree(s - {x}, f, g);
    }
  }

  /** Changing one summand changes the sum by the same amount. */
  lemma SumChangeOne<T>(s: set<T>, x: T, f: T -> int, g: T -> int)
    requires x in s
    requires forall y :: y in s && y != x ==> f(y) == g(y)
    ensures Sum(s, g) == Sum(s, f) - f(x) + g(x)
  {
    SumTake(s, x, f);
    SumTake(s, x, g);
    SumAgree(s - {x}, f, g);
  }

  lemma {:induction false} SumPlus<T>(s: set<T>, f: T -> int, g: T -> int, h: T -> int)
    requires forall x :: x in s ==> h(x) == f(x) + g(x)
    ensures Sum(s, h) == Sum(s, f) + Sum(s, g)
  {
    if s != {} {
      var x :| x in s;
      SumTake(s, x, f);
      SumTake(s, x, g);
      SumTake(s, x, h);
      SumPlus(s - {x}, f, g, h);
    }
  }

  lemma {:induction false} SumDisjoint<T>(s: set<T>, t: set<T>, f: T -> int)
    requires s !! t
    ensures Sum(s + t, f) == Sum(s, f) + Sum(t, f)
  {
    if s == {} {
      assert s + t == t;
    } else {
      var x :| x in s;
      SumTake(s, x, f);
      SumTake(s + t, x, f);
      assert s + t - {x} == (s - {x}) + t;
      SumDisjoint(s - {x}, t, f);
    }
  }

  lemma {:induction false} SumMonotone<T>(s: set<T>, f: T -> int, g: T -> int)
    requires forall x :: x in s ==> f(x) <= g(x)
    ensures Sum(s, f) <= Sum(s, g)
  {
    if s != {} {
      var x :| x in s;
      SumTake(s, x, f);
      SumTake(s, x, g);
      SumMonotone(s - {x}, f, g);
    }
  }

  lemma {:induction false} SumZero<T>(s: set<T>, f: T -> int)
    requires forall x :: x in s ==> f(x) == 0
    ensures Sum(s, f) == 0
  {
    if s != {} {
      var x :| x in s;
      SumTake(s, x, f);
      SumZero(s - {x}, f);
    }
  }

  /** One summand of a sum of non-negative numbers is at most the sum. */
  lemma SumBounds<T>(s: set<T>, x: T, f: T -> int)
    requires x in s
    requires forall y :: y in s ==> 0 <= f(y)
    ensures 0 <= f(x) <= Sum(s, f)
  {
    SumTake(s, x, f);
    SumZero(s - {x}, y => 0);
    SumMonotone(s - {x}, y => 0, f);
  }

  ghost function RowSum<T, U>(t: set<U>, f: (T, U) -> int, x: T): int
  {
    Sum(t, y => f(x, y))
  }

  ghost function ColumnSum<T, U>(s: set<T>, f: (T, U) -> int, y: U): int
  {
    Sum(s, x => f(x, y))
  }

  lemma RowSumIs<T, U>(t: set<U>, f: (T, U) -> int, x: T, g: U -> int)
    requires forall y :: y in t ==> f(x, y) == g(y)
    ensures RowSum(t, f, x) == Sum(t, g)
  {
    SumAgree(t, y => f(x, y), g);
  }

  lemma ColumnSumIs<T, U>(s: set<T>, f: (T, U) -> int, y: U, g: T -> int)
    requires forall x :: x in s ==> f(x, y) == g(x)
    ensures ColumnSum(s, f, y) == Sum(s, g)
  {
    SumAgree(s, x => f(x, y), g);
  }

  /** A table has the same total whether it is added up by rows or by columns. */
  lemma {:induction false} SumTwoWays<T, U>(s: set<T>, t: set<U>, f: (T, U) -> int, row: T -> int, col: U -> int)
    requires forall x :: x in s ==> row(x) == RowSum(t, f, x)
    requires forall y :: y in t ==> col(y) == ColumnSum(s, f, y)
    ensures Sum(s, row) == Sum(t, col)
  {
    if s == {} {
      SumZero(t, col);
    } else {
      var a :| a in s;
      var r := s - {a};
      SumTake(s, a, row);
      var rest := y => ColumnSum(r, f, y);
      SumTwoWays(r, t, f, row, rest);
      forall y | y in t ensures col(y) == f(a, y) + rest(y) {
        SumTake(s, a, x => f(x, y));
      }
      SumPlus(t, y => f(a, y), rest, col);
    }
  }

  lemma NothingDone<T>(all: set<T>, f: T -> int)
    ensures Sum(all - all, f) == 0
  {
    assert all - all == {};
  }

  /** A loop that has dealt with all but `left` deals with one more. */
  lemma SumOneMore<T>(all: set<T>, left: set<T>, x: T, f: T -> int)
    requires x in left && left <= all
    ensures Sum(all - (left - {x}), f) == Sum(all - left, f) + f(x)
  {
    assert all - (left - {x}) - {x} == all - left;
    SumTake(all - (left - {x}), x, f);
  }

  /** The sum of f over the values of a map. */
  ghost function SumMap<K, V>(m: map<K, V>, f: V -> int): int
  {
    Sum(m.Keys, k => if k in m then f(m[k]) else 0)
  }

  /** Updating one entry moves the sum by the difference of the two values. */
  lemma SumMapUpdate<K, V>(m: map<K, V>, k: K, v: V, f: V -> int)
    requires k in m
    ensures SumMap(m[k := v], f) == SumMap(m, f) - f(m[k]) + f(v)
  {
    var n := m[k := v];
    assert n.Keys == m.Keys;
    SumChangeOne(m.Keys, k, x => if x in m then f(m[x]) else 0, x => if x in n then f(n[x]) else 0);
  }

  lemma SumMapInsert<K, V>(m: map<K, V>, k: K, v: V, f: V -> int)
    requires k !in m
    ensures SumMap(m[k := v], f) == SumMap(m, f) + f(v)
  {
    var n := m[k := v];
    assert n.Keys - {k} == m.Keys;
    SumTake(n.Keys, k, x => if x in n then f(n[x]) else 0);
    SumAgree(m.Keys, x => if x in n then f(n[x]) else 0, x => if x in m then f(m[x]) else 0);
  }

  lemma SumMapRemove<K, V>(m: map<K, V>, k: K, f: V -> int)
    requires k in m
    ensures SumMap(m - {k}, f) == SumMap(m, f) - f(m[k])
  {
    var n := m - {k};
    assert n[k := m[k]] == m;
    SumMapInsert(n, k, m[k], f);
  }

  lemma SumMapNonNegative<K, V>(m: map<K, V>, f: V -> int)
    requires forall x :: x in m ==> 0 <= f(m[x])
    ensures 0 <= SumMap(m, f)
  {
    SumZero(m.Keys, x => 0);
    SumMonotone(m.Keys, x => 0, x => if x in m then f(m[x]) else 0);
  }

  /** A map of non-negative values: every value is at most the sum. */
  lemma SumMapZero<K, V>(m: map<K, V>, f: V -> int)
    requires forall k :: k in m ==> f(m[k]) == 0
    ensures SumMap(m, f) == 0
  {
    SumZero(m.Keys, k => if k in m then f(m[k]) else 0);
  }

  lemma SumMapBounds<K, V>(m: map<K, V>, k: K, f: V -> int)
    requires k in m
    requires forall x :: x in m ==> 0 <= f(m[x])
    ensures 0 <= f(m[k]) <= SumMap(m, f)
  {
    SumBounds(m.Keys, k, x => if x in m then f(m[x]) else 0);
  }

  /** Entries that contribute nothing can be left out of a sum over a map. */
  lemma SumMapPart<K, V>(m: map<K, V>, f: V -> int, s: set<K>, g: K -> int)
    requires s <= m.Keys
    requires forall k :: k in s ==> g(k) == f(m[k])
    requires forall k :: k in m && k !in s ==> f(m[k]) == 0
    ensures SumMap(m, f) == Sum(s, g)
  {
    var h := k => if k in m then f(m[k]) else 0;
    assert s + (m.Keys - s) == m.Keys;
    SumDisjoint(s, m.Keys - s, h);
    SumZero(m.Keys - s, h);
    SumAgree(s, h, g);
  }

  lemma DropOneMore<K, V>(m: map<K, V>, s: set<K>, k: K)
    ensures m - s - {k} == m - (s + {k})
  {
  }

  /** Some element of a non-empty set, for loops that walk an index in no particular order. */
  method Pick<T>(s: set<T>) returns (x: T)
    requires s != {}
    ensures x in s
  {
    x :| x in s;
  }
}
