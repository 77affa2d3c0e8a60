/**
 Witness voting by proxy: what the incrementally kept counters must equal.

 A stake-weighted vote goes to the account's proxy, the proxy's proxy and so on, for at most
 MAX_PROXY_DEPTH hops. The chain keeps, per account, one counter per distance below it. This
 module says what those counters and the witness tallies mean as sums over the whole proxy
 forest, and proves how the meaning moves when stake or the forest changes.
 */
module Proxies {
  import opened Basics
  import opened Sums

  /** STEEMIT_MAX_PROXY_RECURSION_DEPTH */
  const MAX_PROXY_DEPTH: nat := 4

  /** proxy[a] is the account a has delegated its vote to; an account outside the map votes itself. */
  type ProxyMap = map<Account, Account>

  /** The account k proxy hops above a. */
  ghost function Up(proxy: ProxyMap, a: Account, k: nat): Option<Account>
    decreases k
  {
    if k == 0 then Some(a)
    else if a in proxy then Up(proxy, proxy[a], k - 1)
    else None
  }

  ghost predicate Ends(proxy: ProxyMap, a: Account)
  {
    exists k: nat :: Up(proxy, a, k).None?
  }

  /** No proxy loops: every chain of proxies comes to an end. */
  ghost predicate Acyclic(proxy: ProxyMap)
  {
    forall a :: a in proxy ==> Ends(proxy, a)
  }

  ghost function When(b: bool, v: int): int { if b then v else 0 }

  /** The stake held exactly k hops below b. */
  ghost function Below(vests: map<Account, int>, proxy: ProxyMap, b: Account, k: nat): int
  {
    Sum(vests.Keys, a => if a in vests && Up(proxy, a, k) == Some(b) then vests[a] else 0)
  }

  /** The stake held at most n hops below b. */
  ghost function Within(vests: map<Account, int>, proxy: ProxyMap, b: Account, n: nat): int
  {
    Below(vests, proxy, b, n) + if n == 0 then 0 else Within(vests, proxy, b, n - 1)
  }

  /** What an account that votes for itself contributes to each witness it approves. */
  ghost function Weight(vests: map<Account, int>, proxy: ProxyMap, b: Account): int
  {
    Within(vests, proxy, b, MAX_PROXY_DEPTH)
  }

  /** A witness's votes counted from scratch. */
  ghost function Recount(vests: map<Account, int>, proxy: ProxyMap, ballots: map<Account, set<Witness>>, w: Witness): int
  {
    Sum(vests.Keys, a => if a in ballots && w in ballots[a] then Weight(vests, proxy, a) else 0)
  }

  ghost function Total(vests: map<Account, int>): int
  {
    Sum(vests.Keys, a => if a in vests then vests[a] else 0)
  }

  ghost predicate NonNegative(vests: map<Account, int>)
  {
    forall a :: a in vests ==> 0 <= vests[a]
  }

  // ----- walking up -----

  lemma {:induction false} UpAdd(proxy: ProxyMap, a: Account, i: nat, j: nat)
    ensures Up(proxy, a, i + j) == if Up(proxy, a, i).None? then None else Up(proxy, Up(proxy, a, i).value, j)
    decreases i
  {
    if i > 0 && a in proxy {
      UpAdd(proxy, proxy[a], i - 1, j);
    }
  }

  /** An account on a terminating chain never meets itself again. */
  lemma {:induction false} NotAboveItself(proxy: ProxyMap, a: Account, j: nat)
    requires Ends(proxy, a) && 0 < j
    ensures Up(proxy, a, j) != Some(a)
  {
    var k: nat :| Up(proxy, a, k).None?;
    if Up(proxy, a, j) == Some(a) {
      NeverEnds(proxy, a, j, k);
    }
  }

  lemma {:induction false} NeverEnds(proxy: ProxyMap, a: Account, j: nat, k: nat)
    requires 0 < j && Up(proxy, a, j) == Some(a)
    ensures Up(proxy, a, k).Some?
  {
    if k < j {
      UpAdd(proxy, a, k, j - k);
    } else {
      UpAdd(proxy, a, j, k - j);
      NeverEnds(proxy, a, j, k - j);
    }
  }

  lemma {:induction false} EndsStays(proxy: ProxyMap, a: Account, k: nat, n: nat)
    requires Up(proxy, a, k).None? && k <= n
    ensures Up(proxy, a, n).None?
  {
    UpAdd(proxy, a, k, n - k);
  }

  /** Taking an account's proxy away cannot create a loop. */
  lemma {:induction false} EndsAfterDetach(proxy: ProxyMap, a: Account, x: Account, k: nat)
    requires Up(proxy, x, k).None?
    ensures Up(proxy - {a}, x, k).None?
    decreases k
  {
    if x != a && x in proxy {
      EndsAfterDetach(proxy, a, proxy[x], k - 1);
    }
  }

  lemma DetachKeepsAcyclic(proxy: ProxyMap, a: Account)
    requires Acyclic(proxy)
    ensures Acyclic(proxy - {a})
  {
    forall x | x in proxy - {a} ensures Ends(proxy - {a}, x) {
      var k: nat :| Up(proxy, x, k).None?;
      EndsAfterDetach(proxy, a, x, k);
    }
  }

  /** A chain that never passes a is the same before and after a's proxy is set. */
  lemma {:induction false} UpAvoiding(proxy: ProxyMap, a: Account, n: Account, x: Account, k: nat)
    requires forall i: nat :: i < k ==> Up(proxy, x, i) != Some(a)
    ensures Up(proxy[a := n], x, k) == Up(proxy, x, k)
    decreases k
  {
    if k > 0 {
      assert Up(proxy, x, 0) == Some(x);
      if x in proxy {
        forall i: nat | i < k - 1 ensures Up(proxy, proxy[x], i) != Some(a) {
          assert Up(proxy, x, i + 1) == Up(proxy, proxy[x], i);
        }
        UpAvoiding(proxy, a, n, proxy[x], k - 1);
      }
    }
  }

  lemma {:induction false} EndsAfterAttach(proxy: ProxyMap, a: Account, n: Account, x: Account, k: nat)
    requires Up(proxy, x, k).None?
    requires Ends(proxy[a := n], n)
    ensures Ends(proxy[a := n], x)
    decreases k
  {
    var p := proxy[a := n];
    if x == a {
      var j: nat :| Up(p, n, j).None?;
      assert Up(p, a, j + 1).None?;
    } else if x in proxy {
      EndsAfterAttach(proxy, a, n, proxy[x], k - 1);
      var j: nat :| Up(p, proxy[x], j).None?;
      assert Up(p, x, j + 1).None?;
    } else {
      assert Up(p, x, 1).None?;
    }
  }

  /** Pointing a free account at n is safe when n's own chain ends without meeting the account. */
  lemma AttachKeepsAcyclic(proxy: ProxyMap, a: Account, n: Account, k: nat)
    requires Acyclic(proxy) && a !in proxy
    requires Up(proxy, n, k).None?
    requires forall i: nat :: Up(proxy, n, i) != Some(a)
    ensures Acyclic(proxy[a := n])
  {
    var p := proxy[a := n];
    UpAvoiding(proxy, a, n, n, k);
    assert Ends(p, n);
    forall x | x in p ensures Ends(p, x) {
      if x == a {
        assert Up(proxy, a, 1).None?;
        EndsAfterAttach(proxy, a, n, a, 1);
      } else {
        var j: nat :| Up(proxy, x, j).None?;
        EndsAfterAttach(proxy, a, n, x, j);
      }
    }
  }

  // ----- stake moves -----

  /** Giving a more stake raises exactly the counter of its k-hop ancestor at distance k. */
  lemma BelowAfterStake(vests: map<Account, int>, proxy: ProxyMap, a: Account, delta: int, b: Account, k: nat)
    requires a in vests
    ensures Below(vests[a := vests[a] + delta], proxy, b, k)
         == Below(vests, proxy, b, k) + if Up(proxy, a, k) == Some(b) then delta else 0
  {
    var v := vests[a := vests[a] + delta];
    assert v.Keys == vests.Keys;
    SumChangeOne(vests.Keys, a,
      x => if x in vests && Up(proxy, x, k) == Some(b) then vests[x] else 0,
      x => if x in v && Up(proxy, x, k) == Some(b) then v[x] else 0);
  }

  lemma TotalAfterStake(vests: map<Account, int>, a: Account, delta: int)
    requires a in vests
    ensures Total(vests[a := vests[a] + delta]) == Total(vests) + delta
  {
    var v := vests[a := vests[a] + delta];
    assert v.Keys == vests.Keys;
    SumChangeOne(vests.Keys, a, x => if x in vests then vests[x] else 0, x => if x in v then v[x] else 0);
  }

  lemma BelowNonNegative(vests: map<Account, int>, proxy: ProxyMap, b: Account, k: nat)
    requires NonNegative(vests)
    ensures 0 <= Below(vests, proxy, b, k)
  {
    SumZero(vests.Keys, a => 0);
    SumMonotone(vests.Keys, a => 0, a => if a in vests && Up(proxy, a, k) == Some(b) then vests[a] else 0);
  }

  /** Distance zero is the account itself. */
  lemma BelowZero(vests: map<Account, int>, proxy: ProxyMap, b: Account)
    requires b in vests
    ensures Below(vests, proxy, b, 0) == vests[b]
  {
    var f := a => if a in vests && Up(proxy, a, 0) == Some(b) then vests[a] else 0;
    SumTake(vests.Keys, b, f);
    SumZero(vests.Keys - {b}, f);
  }

  // ----- the forest changes -----

  /** v for every way to reach b from x in K hops through a, with at most the last m hops above a. */
  ghost function Through(v: int, proxy: ProxyMap, a: Account, b: Account, x: Account, K: nat, m: nat): int
    requires m <= K
  {
    if m == 0 then 0 else
    When(Up(proxy, a, m) == Some(b) && Up(proxy, x, K - m) == Some(a), v) + Through(v, proxy, a, b, x, K, m - 1)
  }

  lemma {:induction false} ThroughNone(v: int, proxy: ProxyMap, a: Account, b: Account, x: Account, K: nat, m: nat)
    requires m <= K
    requires forall i: nat :: K - m <= i < K ==> Up(proxy, x, i) != Some(a)
    ensures Through(v, proxy, a, b, x, K, m) == 0
  {
    if m > 0 {
      assert Up(proxy, x, K - m) != Some(a);
      ThroughNone(v, proxy, a, b, x, K, m - 1);
    }
  }

  /** Stepping x up one hop shortens every route through a by one. */
  lemma {:induction false} ThroughStep(v: int, proxy: ProxyMap, a: Account, b: Account, x: Account, K: nat, m: nat)
    requires m < K && x in proxy
    ensures Through(v, proxy, a, b, x, K, m) == Through(v, proxy, a, b, proxy[x], K - 1, m)
  {
    if m > 0 {
      ThroughStep(v, proxy, a, b, x, K, m - 1);
    }
  }

  /** With a's proxy removed, exactly the routes that went through a and beyond disappear. */
  lemma {:induction false} ReachAfterDetach(v: int, proxy: ProxyMap, a: Account, b: Account, x: Account, K: nat)
    requires Ends(proxy, a)
    ensures When(Up(proxy - {a}, x, K) == Some(b), v)
         == When(Up(proxy, x, K) == Some(b), v) - Through(v, proxy, a, b, x, K, K)
    decreases K
  {
    if K > 0 {
      if x == a {
        forall i: nat | 1 <= i < K ensures Up(proxy, a, i) != Some(a) {
          NotAboveItself(proxy, a, i);
        }
        assert Up(proxy, a, 0) == Some(a);
        ThroughNone(v, proxy, a, b, a, K, K - 1);
      } else if x in proxy {
        ReachAfterDetach(v, proxy, a, b, proxy[x], K - 1);
        ThroughStep(v, proxy, a, b, x, K, K - 1);
        assert Up(proxy, x, 0) == Some(x);
      } else {
        ThroughNone(v, proxy, a, b, x, K, K);
      }
    }
  }

  /** The stake that used to reach b at distance K by way of a. */
  ghost function Carried(vests: map<Account, int>, proxy: ProxyMap, a: Account, b: Account, K: nat, m: nat): int
    requires m <= K
  {
    if m == 0 then 0 else
    (if Up(proxy, a, m) == Some(b) then Below(vests, proxy, a, K - m) else 0) + Carried(vests, proxy, a, b, K, m - 1)
  }

  lemma {:induction false} CarriedIsThrough(vests: map<Account, int>, proxy: ProxyMap, a: Account, b: Account, K: nat,
                                            m: nat)
    requires m <= K
    ensures Carried(vests, proxy, a, b, K, m)
         == Sum(vests.Keys, x => if x in vests then Through(vests[x], proxy, a, b, x, K, m) else 0)
  {
    var whole := x => if x in vests then Through(vests[x], proxy, a, b, x, K, m) else 0;
    if m == 0 {
      SumZero(vests.Keys, whole);
    } else {
      CarriedIsThrough(vests, proxy, a, b, K, m - 1);
      var rest := x => if x in vests then Through(vests[x], proxy, a, b, x, K, m - 1) else 0;
      var here := x => if x in vests then When(Up(proxy, a, m) == Some(b) && Up(proxy, x, K - m) == Some(a), vests[x]) else 0;
      SumPlus(vests.Keys, here, rest, whole);
      if Up(proxy, a, m) == Some(b) {
        SumAgree(vests.Keys, here, x => if x in vests && Up(proxy, x, K - m) == Some(a) then vests[x] else 0);
      } else {
        SumZero(vests.Keys, here);
      }
    }
  }

  /**
   Detaching a from its proxy lowers the counter of every account above a, at distance K, by the
   stake below a at the remaining distance, and changes nothing else.
   */
  lemma BelowAfterDetach(vests: map<Account, int>, proxy: ProxyMap, a: Account, b: Account, K: nat)
    requires Ends(proxy, a)
    ensures Below(vests, proxy - {a}, b, K) == Below(vests, proxy, b, K) - Carried(vests, proxy, a, b, K, K)
  {
    var after := x => if x in vests && Up(proxy - {a}, x, K) == Some(b) then vests[x] else 0;
    var before := x => if x in vests && Up(proxy, x, K) == Some(b) then vests[x] else 0;
    var gone := x => if x in vests then Through(vests[x], proxy, a, b, x, K, K) else 0;
    forall x | x in vests.Keys ensures before(x) == after(x) + gone(x) {
      ReachAfterDetach(vests[x], proxy, a, b, x, K);
    }
    SumPlus(vests.Keys, after, gone, before);
    CarriedIsThrough(vests, proxy, a, b, K, K);
  }

  // ----- every share is counted once -----

  /** What the supply audit adds up for one account. */
  ghost function AuditShare(vests: map<Account, int>, proxy: ProxyMap, b: Account, n: nat): int
  {
    if b in proxy then Below(vests, proxy, b, n) else Within(vests, proxy, b, n)
  }

  ghost predicate Closed(accounts: set<Account>, proxy: ProxyMap)
  {
    forall a :: a in proxy ==> a in accounts && proxy[a] in accounts
  }

  /** Stake v of account a, as far as it is found at b within n hops. */
  ghost function Found(v: int, proxy: ProxyMap, a: Account, b: Account, n: nat): int
  {
    When(Up(proxy, a, n) == Some(b), v) + if n == 0 then 0 else Found(v, proxy, a, b, n - 1)
  }

  /** Stake v of account a, as far as the audit counts it at b. */
  ghost function Counted(v: int, proxy: ProxyMap, a: Account, b: Account, n: nat): int
  {
    if b in proxy then When(Up(proxy, a, n) == Some(b), v) else Found(v, proxy, a, b, n)
  }

  lemma {:induction false} FoundStep(v: int, proxy: ProxyMap, a: Account, b: Account, n: nat)
    requires a in proxy && 0 < n
    ensures Found(v, proxy, a, b, n) == When(a == b, v) + Found(v, proxy, proxy[a], b, n - 1)
  {
    if n > 1 {
      FoundStep(v, proxy, a, b, n - 1);
    }
  }

  lemma {:induction false} FoundAtRoot(v: int, proxy: ProxyMap, a: Account, b: Account, n: nat)
    requires a !in proxy
    ensures Found(v, proxy, a, b, n) == When(a == b, v)
  {
    if n > 0 {
      FoundAtRoot(v, proxy, a, b, n - 1);
    }
  }

  /** The stake of one account is counted at exactly one place, however long its proxy chain is. */
  lemma {:induction false} CountedAtOnePlace(accounts: set<Account>, v: int, proxy: ProxyMap, a: Account, n: nat)
    requires Closed(accounts, proxy) && a in accounts
    ensures Sum(accounts, b => Counted(v, proxy, a, b, n)) == v
    decreases n
  {
    if n > 0 && a in proxy {
      CountedAtOnePlace(accounts, v, proxy, proxy[a], n - 1);
      forall b | b in accounts ensures Counted(v, proxy, a, b, n) == Counted(v, proxy, proxy[a], b, n - 1) {
        FoundStep(v, proxy, a, b, n);
      }
      SumAgree(accounts, b => Counted(v, proxy, a, b, n), b => Counted(v, proxy, proxy[a], b, n - 1));
    } else {
      forall b | b in accounts ensures Counted(v, proxy, a, b, n) == When(a == b, v) {
        if a !in proxy {
          FoundAtRoot(v, proxy, a, b, n);
        }
      }
      SumTake(accounts, a, b => Counted(v, proxy, a, b, n));
      SumZero(accounts - {a}, b => Counted(v, proxy, a, b, n));
    }
  }

  lemma {:induction false} WithinIsFound(vests: map<Account, int>, proxy: ProxyMap, b: Account, n: nat)
    ensures Within(vests, proxy, b, n) == Sum(vests.Keys, a => if a in vests then Found(vests[a], proxy, a, b, n) else 0)
  {
    var whole := a => if a in vests then Found(vests[a], proxy, a, b, n) else 0;
    var here := a => if a in vests && Up(proxy, a, n) == Some(b) then vests[a] else 0;
    if n == 0 {
      SumAgree(vests.Keys, whole, here);
    } else {
      WithinIsFound(vests, proxy, b, n - 1);
      SumPlus(vests.Keys, here, a => if a in vests then Found(vests[a], proxy, a, b, n - 1) else 0, whole);
    }
  }

  /** The share of account a's stake that the audit finds at b. */
  ghost function CountedFrom(vests: map<Account, int>, proxy: ProxyMap, a: Account, b: Account, n: nat): int
  {
    if a in vests then Counted(vests[a], proxy, a, b, n) else 0
  }

  lemma AuditShareIsCounted(vests: map<Account, int>, proxy: ProxyMap, b: Account, n: nat, f: Account -> int)
    requires forall a :: a in vests ==> f(a) == CountedFrom(vests, proxy, a, b, n)
    ensures AuditShare(vests, proxy, b, n) == Sum(vests.Keys, f)
  {
    if b in proxy {
      SumAgree(vests.Keys, f, a => if a in vests && Up(proxy, a, n) == Some(b) then vests[a] else 0);
    } else {
      WithinIsFound(vests, proxy, b, n);
      SumAgree(vests.Keys, f, a => if a in vests then Found(vests[a], proxy, a, b, n) else 0);
    }
  }

  lemma CountedFromOnce(vests: map<Account, int>, proxy: ProxyMap, a: Account, n: nat, f: Account -> int)
    requires Closed(vests.Keys, proxy) && a in vests
    requires forall b :: b in vests ==> f(b) == CountedFrom(vests, proxy, a, b, n)
    ensures Sum(vests.Keys, f) == vests[a]
  {
    CountedAtOnePlace(vests.Keys, vests[a], proxy, a, n);
    SumAgree(vests.Keys, f, b => Counted(vests[a], proxy, a, b, n));
  }

  lemma AuditRows(vests: map<Account, int>, proxy: ProxyMap, n: nat, f: (Account, Account) -> int, row: Account -> int)
    requires forall a, b :: f(b, a) == CountedFrom(vests, proxy, a, b, n)
    requires forall b :: row(b) == AuditShare(vests, proxy, b, n)
    ensures forall b :: b in vests.Keys ==> row(b) == RowSum(vests.Keys, f, b)
  {
    forall b | b in vests.Keys ensures row(b) == RowSum(vests.Keys, f, b) {
      var g := a => CountedFrom(vests, proxy, a, b, n);
      AuditShareIsCounted(vests, proxy, b, n, g);
      RowSumIs(vests.Keys, f, b, g);
    }
  }

  lemma AuditColumns(vests: map<Account, int>, proxy: ProxyMap, n: nat, f: (Account, Account) -> int,
                     col: Account -> int)
    requires Closed(vests.Keys, proxy)
    requires forall a, b :: f(b, a) == CountedFrom(vests, proxy, a, b, n)
    requires forall a :: a in vests ==> col(a) == vests[a]
    ensures forall a :: a in vests.Keys ==> col(a) == ColumnSum(vests.Keys, f, a)
  {
    forall a | a in vests.Keys ensures col(a) == ColumnSum(vests.Keys, f, a) {
      var g := b => CountedFrom(vests, proxy, a, b, n);
      CountedFromOnce(vests, proxy, a, n, g);
      ColumnSumIs(vests.Keys, f, a, g);
    }
  }

  /**
   Despite the recursion cut-off every share is counted exactly once: the weights of the accounts
   that vote themselves plus the deepest slots of those that do not add up to all stake. This
   holds for every cut-off n.
   */
  lemma EveryShareCountedOnce(vests: map<Account, int>, proxy: ProxyMap, n: nat)
    requires Closed(vests.Keys, proxy)
    ensures Sum(vests.Keys, b => AuditShare(vests, proxy, b, n)) == Total(vests)
  {
    var f := (b: Account, a: Account) => CountedFrom(vests, proxy, a, b, n);
    var row, col := b => AuditShare(vests, proxy, b, n), a => if a in vests then vests[a] else 0;
    AuditRows(vests, proxy, n, f, row);
    AuditColumns(vests, proxy, n, f, col);
    SumTwoWays(vests.Keys, vests.Keys, f, row, col);
  }
}
