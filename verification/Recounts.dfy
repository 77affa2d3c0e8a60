/** How one adjustment of the proxied votes moves the counters and tallies, against a full recount. */
module Recounts {
  import opened Basics
  import opened Sums
  import opened Proxies
  import opened Witnesses

  // ----- what one adjustment does -----

  ghost function Prefix(delta: seq<int>, n: nat): int
    requires n <= |delta|
  {
    if n == 0 then 0 else Prefix(delta, n - 1) + delta[n - 1]
  }

  /** The change of counter k of account b when delta is pushed up from a, which sits `depth` hops up. */
  ghost function Lifted(proxy: ProxyMap, a: Account, delta: seq<int>, depth: nat, b: Account, k: nat): int
    requires |delta| == MAX_PROXY_DEPTH + 1 && k < MAX_PROXY_DEPTH && depth <= MAX_PROXY_DEPTH
    decreases MAX_PROXY_DEPTH - depth
  {
    if a !in proxy || depth == MAX_PROXY_DEPTH then 0 else
    (if proxy[a] == b && depth <= k then delta[k - depth] else 0) + Lifted(proxy, proxy[a], delta, depth + 1, b, k)
  }

  /** The account that finally casts the vote, and how much its weight changes. */
  ghost function Landing(proxy: ProxyMap, a: Account, delta: seq<int>, depth: nat): Option<(Account, int)>
    requires |delta| == MAX_PROXY_DEPTH + 1 && depth <= MAX_PROXY_DEPTH
    decreases MAX_PROXY_DEPTH - depth
  {
    if a !in proxy then Some((a, Prefix(delta, MAX_PROXY_DEPTH + 1 - depth)))
    else if depth == MAX_PROXY_DEPTH then None
    else Landing(proxy, proxy[a], delta, depth + 1)
  }

  ghost function LandingOn(proxy: ProxyMap, a: Account, delta: seq<int>, b: Account): int
    requires |delta| == MAX_PROXY_DEPTH + 1
  {
    var l := Landing(proxy, a, delta, 0);
    if l.Some? && l.value.0 == b then l.value.1 else 0
  }

  // ----- the invariant -----

  ghost predicate Shape(vests: map<Account, int>, proxy: ProxyMap, proxied: map<Account, seq<int>>,
                        ballots: map<Account, set<Witness>>, witnesses: map<Witness, Candidate>)
  {
    && vests.Keys == proxied.Keys == ballots.Keys
    && Closed(vests.Keys, proxy) && Acyclic(proxy) && NonNegative(vests)
    && (forall b :: b in proxied ==> |proxied[b]| == MAX_PROXY_DEPTH)
    && (forall a :: a in ballots ==> ballots[a] <= witnesses.Keys)
    && (forall a :: a in proxy ==> a in ballots && ballots[a] == {})
  }

  /** proxied_vsf_votes[k] is the stake exactly k + 1 proxy hops below the account. */
  ghost predicate CountersExact(vests: map<Account, int>, proxy: ProxyMap, proxied: map<Account, seq<int>>)
  {
    forall b, k: nat :: b in proxied && k < |proxied[b]| ==> proxied[b][k] == Below(vests, proxy, b, k + 1)
  }

  /** Every witness has the votes a count from scratch would give it. */
  ghost predicate VotesExact(vests: map<Account, int>, proxy: ProxyMap, ballots: map<Account, set<Witness>>,
                             witnesses: map<Witness, Candidate>)
  {
    forall w :: w in witnesses ==> witnesses[w].votes == Recount(vests, proxy, ballots, w)
  }

  ghost predicate Consistent(vests: map<Account, int>, proxy: ProxyMap, proxied: map<Account, seq<int>>,
                             ballots: map<Account, set<Witness>>, witnesses: map<Witness, Candidate>)
  {
    && Shape(vests, proxy, proxied, ballots, witnesses)
    && CountersExact(vests, proxy, proxied)
    && VotesExact(vests, proxy, ballots, witnesses)
  }

  /** The weights of the account at distances 0, 1, ... as the evaluators collect them. */
  ghost function Held(vests: map<Account, int>, proxy: ProxyMap, a: Account): (d: seq<int>)
    ensures |d| == MAX_PROXY_DEPTH + 1
    ensures forall i: nat :: i <= MAX_PROXY_DEPTH ==> d[i] == Below(vests, proxy, a, i)
  {
    seq(MAX_PROXY_DEPTH + 1, i requires 0 <= i => Below(vests, proxy, a, i))
  }

  lemma {:induction false} PrefixOfHeld(vests: map<Account, int>, proxy: ProxyMap, a: Account, n: nat)
    requires n <= MAX_PROXY_DEPTH
    ensures Prefix(Held(vests, proxy, a), n + 1) == Within(vests, proxy, a, n)
  {
    if n > 0 {
      PrefixOfHeld(vests, proxy, a, n - 1);
    }
  }

  // ----- a vote lands at one root -----

  lemma {:induction false} RootReachedOnce(proxy: ProxyMap, a: Account, b: Account, d: nat, m: nat)
    requires Up(proxy, a, d) == Some(b) && b !in proxy && m != d
    ensures Up(proxy, a, m) != Some(b)
  {
    assert Up(proxy, b, 1).None?;
    if m < d {
      EndsStays(proxy, b, 1, d - m);
      UpAdd(proxy, a, m, d - m);
    } else {
      UpAdd(proxy, a, d, m - d);
      EndsStays(proxy, b, 1, m - d);
    }
  }

  /** Landing follows the proxy chain: it names the root at some distance d within the depth limit. */
  lemma {:induction false} LandingIsRoot(proxy: ProxyMap, a: Account, delta: seq<int>, depth: nat)
    requires |delta| == MAX_PROXY_DEPTH + 1 && depth <= MAX_PROXY_DEPTH
    ensures var l := Landing(proxy, a, delta, depth);
            if l.Some? then
              exists d: nat :: d + depth <= MAX_PROXY_DEPTH && Up(proxy, a, d) == Some(l.value.0)
                && l.value.0 !in proxy && l.value.1 == Prefix(delta, MAX_PROXY_DEPTH + 1 - depth - d)
            else forall d: nat, b :: d + depth <= MAX_PROXY_DEPTH && Up(proxy, a, d) == Some(b) ==> b in proxy
    decreases MAX_PROXY_DEPTH - depth
  {
    var l := Landing(proxy, a, delta, depth);
    if a !in proxy {
      assert Up(proxy, a, 0) == Some(a);
    } else if depth < MAX_PROXY_DEPTH {
      LandingIsRoot(proxy, proxy[a], delta, depth + 1);
      if l.Some? {
        var d: nat :| d + depth + 1 <= MAX_PROXY_DEPTH && Up(proxy, proxy[a], d) == Some(l.value.0)
                && l.value.0 !in proxy && l.value.1 == Prefix(delta, MAX_PROXY_DEPTH - depth - d);
        assert Up(proxy, a, d + 1) == Some(l.value.0);
      } else {
        forall d: nat, b | d + depth <= MAX_PROXY_DEPTH && Up(proxy, a, d) == Some(b) ensures b in proxy {
          if d > 0 {
            assert Up(proxy, proxy[a], d - 1) == Some(b);
          }
        }
      }
    }
  }

  // ----- pushing deltas up -----

  lemma {:induction false} LiftedPast(proxy: ProxyMap, a: Account, delta: seq<int>, depth: nat, b: Account, k: nat)
    requires |delta| == MAX_PROXY_DEPTH + 1 && k < depth <= MAX_PROXY_DEPTH
    ensures Lifted(proxy, a, delta, depth, b, k) == 0
    decreases MAX_PROXY_DEPTH - depth
  {
    if a in proxy && depth < MAX_PROXY_DEPTH {
      LiftedPast(proxy, proxy[a], delta, depth + 1, b, k);
    }
  }

  /** Single stake: only the counter at the account's own distance moves. */
  lemma {:induction false} LiftedStake(proxy: ProxyMap, a: Account, delta: seq<int>, depth: nat, b: Account, k: nat)
    requires |delta| == MAX_PROXY_DEPTH + 1 && depth <= k < MAX_PROXY_DEPTH
    requires forall i :: 0 < i < |delta| ==> delta[i] == 0
    ensures Lifted(proxy, a, delta, depth, b, k) == When(Up(proxy, a, k + 1 - depth) == Some(b), delta[0])
    decreases MAX_PROXY_DEPTH - depth
  {
    if a in proxy {
      if depth == k {
        LiftedPast(proxy, proxy[a], delta, depth + 1, b, k);
        assert Up(proxy, proxy[a], 0) == Some(proxy[a]);
      } else {
        LiftedStake(proxy, proxy[a], delta, depth + 1, b, k);
      }
    }
  }

  lemma {:induction false} CarriedPastEnd(vests: map<Account, int>, proxy: ProxyMap, a: Account, b: Account, K: nat,
                                          d: nat, m: nat)
    requires d <= m <= K && Up(proxy, a, d + 1).None?
    ensures Carried(vests, proxy, a, b, K, m) == Carried(vests, proxy, a, b, K, d)
  {
    if d < m {
      EndsStays(proxy, a, d + 1, m);
      CarriedPastEnd(vests, proxy, a, b, K, d, m - 1);
    }
  }

  /** A whole subtree: the counters above move by what the subtree carried to them. */
  lemma {:induction false} LiftedSubtree(vests: map<Account, int>, proxy: ProxyMap, a: Account, x: Account,
                                         delta: seq<int>, s: int, depth: nat, b: Account, k: nat)
    requires |delta| == MAX_PROXY_DEPTH + 1 && k < MAX_PROXY_DEPTH && depth <= k + 1
    requires Up(proxy, a, depth) == Some(x)
    requires s == 1 || s == -1
    requires forall i: nat :: i <= MAX_PROXY_DEPTH ==> delta[i] == if s == 1 then Below(vests, proxy, a, i) else -Below(vests, proxy, a, i)
    ensures var c := Carried(vests, proxy, a, b, k + 1, k + 1) - Carried(vests, proxy, a, b, k + 1, depth);
            Lifted(proxy, x, delta, depth, b, k) == if s == 1 then c else -c
    decreases MAX_PROXY_DEPTH - depth
  {
    UpAdd(proxy, a, depth, 1);
    if x !in proxy {
      assert Up(proxy, x, 1).None?;
      CarriedPastEnd(vests, proxy, a, b, k + 1, depth, k + 1);
    } else {
      assert Up(proxy, x, 1) == Some(proxy[x]) by { assert Up(proxy, proxy[x], 0) == Some(proxy[x]); }
      if depth == k + 1 {
        if depth < MAX_PROXY_DEPTH {
          LiftedPast(proxy, x, delta, depth, b, k);
        }
      } else {
        LiftedSubtree(vests, proxy, a, proxy[x], delta, s, depth + 1, b, k);
      }
    }
  }

  // ----- weights at the roots -----

  ghost function CarriedWithin(vests: map<Account, int>, proxy: ProxyMap, a: Account, b: Account, n: nat): int
  {
    Carried(vests, proxy, a, b, n, n) + if n == 0 then 0 else CarriedWithin(vests, proxy, a, b, n - 1)
  }

  lemma {:induction false} WithinAfterDetach(vests: map<Account, int>, proxy: ProxyMap, a: Account, b: Account, n: nat)
    requires Ends(proxy, a)
    ensures Within(vests, proxy - {a}, b, n) == Within(vests, proxy, b, n) - CarriedWithin(vests, proxy, a, b, n)
  {
    BelowAfterDetach(vests, proxy, a, b, n);
    if n > 0 {
      WithinAfterDetach(vests, proxy, a, b, n - 1);
    }
  }

  lemma {:induction false} CarriedToRoot(vests: map<Account, int>, proxy: ProxyMap, a: Account, b: Account, d: nat,
                                         K: nat, m: nat)
    requires 0 < d && Up(proxy, a, d) == Some(b) && b !in proxy && m <= K
    ensures Carried(vests, proxy, a, b, K, m) == if d <= m then Below(vests, proxy, a, K - d) else 0
  {
    if m > 0 {
      if m != d {
        RootReachedOnce(proxy, a, b, d, m);
      }
      CarriedToRoot(vests, proxy, a, b, d, K, m - 1);
    }
  }

  lemma {:induction false} CarriedWithinToRoot(vests: map<Account, int>, proxy: ProxyMap, a: Account, b: Account,
                                               d: nat, n: nat)
    requires 0 < d && Up(proxy, a, d) == Some(b) && b !in proxy
    ensures CarriedWithin(vests, proxy, a, b, n) == if d <= n then Within(vests, proxy, a, n - d) else 0
  {
    CarriedToRoot(vests, proxy, a, b, d, n, n);
    if n > 0 {
      CarriedWithinToRoot(vests, proxy, a, b, d, n - 1);
    }
  }

  lemma {:induction false} CarriedNowhere(vests: map<Account, int>, proxy: ProxyMap, a: Account, b: Account, K: nat,
                                          m: nat)
    requires m <= K
    requires forall d: nat :: 0 < d <= m ==> Up(proxy, a, d) != Some(b)
    ensures Carried(vests, proxy, a, b, K, m) == 0
  {
    if m > 0 {
      CarriedNowhere(vests, proxy, a, b, K, m - 1);
    }
  }

  lemma {:induction false} CarriedWithinNowhere(vests: map<Account, int>, proxy: ProxyMap, a: Account, b: Account,
                                                n: nat)
    requires forall d: nat :: 0 < d <= n ==> Up(proxy, a, d) != Some(b)
    ensures CarriedWithin(vests, proxy, a, b, n) == 0
  {
    CarriedNowhere(vests, proxy, a, b, n, n);
    if n > 0 {
      CarriedWithinNowhere(vests, proxy, a, b, n - 1);
    }
  }

  /** What a subtree adds to the weight of a root above it is exactly what the adjustment lands there. */
  lemma CarriedLands(vests: map<Account, int>, proxy: ProxyMap, a: Account, b: Account)
    requires b !in proxy && b != a
    ensures CarriedWithin(vests, proxy, a, b, MAX_PROXY_DEPTH) == LandingOn(proxy, a, Held(vests, proxy, a), b)
  {
    var delta := Held(vests, proxy, a);
    var l := Landing(proxy, a, delta, 0);
    LandingIsRoot(proxy, a, delta, 0);
    if l.Some? && l.value.0 == b {
      var d: nat :| d <= MAX_PROXY_DEPTH && Up(proxy, a, d) == Some(b) && l.value.1 == Prefix(delta, MAX_PROXY_DEPTH + 1 - d);
      CarriedWithinToRoot(vests, proxy, a, b, d, MAX_PROXY_DEPTH);
      PrefixOfHeld(vests, proxy, a, MAX_PROXY_DEPTH - d);
    } else {
      forall d: nat | 0 < d <= MAX_PROXY_DEPTH ensures Up(proxy, a, d) != Some(b) {
        if l.Some? && Up(proxy, a, d) == Some(b) {
          var e: nat :| Up(proxy, a, e) == Some(l.value.0) && l.value.0 !in proxy;
          UpTwoRoots(proxy, a, d, e);
        }
      }
      CarriedWithinNowhere(vests, proxy, a, b, MAX_PROXY_DEPTH);
    }
  }

  /** A chain has one root. */
  lemma UpTwoRoots(proxy: ProxyMap, a: Account, d: nat, e: nat)
    requires Up(proxy, a, d).Some? && Up(proxy, a, d).value !in proxy
    requires Up(proxy, a, e).Some? && Up(proxy, a, e).value !in proxy
    ensures d == e
  {
    var lo, hi := if d < e then d else e, if d < e then e else d;
    if lo < hi {
      UpAdd(proxy, a, lo, hi - lo);
    }
  }

  // ----- stake changes at a root -----

  lemma {:induction false} WithinAfterStake(vests: map<Account, int>, proxy: ProxyMap, a: Account, delta: int,
                                            b: Account, n: nat)
    requires a in vests
    ensures Within(vests[a := vests[a] + delta], proxy, b, n) == Within(vests, proxy, b, n) + Found(delta, proxy, a, b, n)
  {
    BelowAfterStake(vests, proxy, a, delta, b, n);
    if n > 0 {
      WithinAfterStake(vests, proxy, a, delta, b, n - 1);
    }
  }

  lemma {:induction false} FoundOnce(v: int, proxy: ProxyMap, a: Account, b: Account, d: nat, n: nat)
    requires Up(proxy, a, d) == Some(b) && b !in proxy
    ensures Found(v, proxy, a, b, n) == When(d <= n, v)
  {
    if n != d {
      RootReachedOnce(proxy, a, b, d, n);
    }
    if n > 0 {
      FoundOnce(v, proxy, a, b, d, n - 1);
    }
  }

  lemma {:induction false} FoundNowhere(v: int, proxy: ProxyMap, a: Account, b: Account, n: nat)
    requires forall d: nat :: d <= n ==> Up(proxy, a, d) != Some(b)
    ensures Found(v, proxy, a, b, n) == 0
  {
    if n > 0 {
      FoundNowhere(v, proxy, a, b, n - 1);
    }
  }

  /** Single: a stake change by v as the delta array the walk works with. */
  ghost function Single(v: int): (d: seq<int>)
    ensures |d| == MAX_PROXY_DEPTH + 1 && d[0] == v && forall i :: 0 < i < |d| ==> d[i] == 0
  {
    seq(MAX_PROXY_DEPTH + 1, i => if i == 0 then v else 0)
  }

  lemma {:induction false} PrefixOfSingle(v: int, n: nat)
    requires 0 < n <= MAX_PROXY_DEPTH + 1
    ensures Prefix(Single(v), n) == v
  {
    if n > 1 {
      PrefixOfSingle(v, n - 1);
    } else {
      assert Prefix(Single(v), 0) == 0;
    }
  }

  lemma StakeLands(proxy: ProxyMap, a: Account, v: int, b: Account)
    requires b !in proxy
    ensures Found(v, proxy, a, b, MAX_PROXY_DEPTH) == LandingOn(proxy, a, Single(v), b)
  {
    var l := Landing(proxy, a, Single(v), 0);
    LandingIsRoot(proxy, a, Single(v), 0);
    if l.Some? && l.value.0 == b {
      var d: nat :| d <= MAX_PROXY_DEPTH && Up(proxy, a, d) == Some(b) && l.value.1 == Prefix(Single(v), MAX_PROXY_DEPTH + 1 - d);
      FoundOnce(v, proxy, a, b, d, MAX_PROXY_DEPTH);
      PrefixOfSingle(v, MAX_PROXY_DEPTH + 1 - d);
    } else {
      forall d: nat | d <= MAX_PROXY_DEPTH ensures Up(proxy, a, d) != Some(b) {
        if l.Some? && Up(proxy, a, d) == Some(b) {
          var e: nat :| Up(proxy, a, e) == Some(l.value.0) && l.value.0 !in proxy;
          UpTwoRoots(proxy, a, d, e);
        }
      }
      FoundNowhere(v, proxy, a, b, MAX_PROXY_DEPTH);
    }
  }

  // ----- recounts -----

  ghost predicate OnlyRootsVote(proxy: ProxyMap, ballots: map<Account, set<Witness>>)
  {
    forall a :: a in proxy && a in ballots ==> ballots[a] == {}
  }

  /** The change of one witness's votes when delta is pushed up from a. */
  ghost function VoteChange(proxy: ProxyMap, ballots: map<Account, set<Witness>>, a: Account, delta: seq<int>,
                            depth: nat, w: Witness): int
    requires |delta| == MAX_PROXY_DEPTH + 1 && depth <= MAX_PROXY_DEPTH
  {
    var l := Landing(proxy, a, delta, depth);
    if l.Some? && l.value.0 in ballots && w in ballots[l.value.0] then l.value.1 else 0
  }

  lemma RecountAfterStake(vests: map<Account, int>, proxy: ProxyMap, ballots: map<Account, set<Witness>>, a: Account,
                          v: int, w: Witness)
    requires a in vests && Closed(vests.Keys, proxy) && OnlyRootsVote(proxy, ballots)
    ensures Recount(vests[a := vests[a] + v], proxy, ballots, w)
         == Recount(vests, proxy, ballots, w) + VoteChange(proxy, ballots, a, Single(v), 0, w)
  {
    var vests' := vests[a := vests[a] + v];
    assert vests'.Keys == vests.Keys;
    var f := b => if b in ballots && w in ballots[b] then Weight(vests, proxy, b) else 0;
    var g := b => if b in ballots && w in ballots[b] then Weight(vests', proxy, b) else 0;
    forall b | b in ballots && w in ballots[b] ensures g(b) == f(b) + LandingOn(proxy, a, Single(v), b) {
      WithinAfterStake(vests, proxy, a, v, b, MAX_PROXY_DEPTH);
      StakeLands(proxy, a, v, b);
    }
    LandingMember(vests.Keys, proxy, a, Single(v), 0);
    var l := Landing(proxy, a, Single(v), 0);
    if l.Some? {
      SumChangeOne(vests.Keys, l.value.0, f, g);
    } else {
      SumAgree(vests.Keys, f, g);
    }
  }

  lemma {:induction false} LandingMember(accounts: set<Account>, proxy: ProxyMap, a: Account, delta: seq<int>,
                                         depth: nat)
    requires |delta| == MAX_PROXY_DEPTH + 1 && depth <= MAX_PROXY_DEPTH
    requires Closed(accounts, proxy) && a in accounts
    ensures var l := Landing(proxy, a, delta, depth); l.Some? ==> l.value.0 in accounts && l.value.0 !in proxy
    decreases MAX_PROXY_DEPTH - depth
  {
    if a in proxy && depth < MAX_PROXY_DEPTH {
      LandingMember(accounts, proxy, proxy[a], delta, depth + 1);
    }
  }

  /** A root that stops voting: only its own weight leaves the count. */
  lemma RecountAfterClearing(vests: map<Account, int>, proxy: ProxyMap, ballots: map<Account, set<Witness>>, a: Account,
                             w: Witness)
    requires a in vests && a in ballots
    ensures Recount(vests, proxy, ballots[a := {}], w)
         == Recount(vests, proxy, ballots, w) - if w in ballots[a] then Weight(vests, proxy, a) else 0
  {
    var after := ballots[a := {}];
    SumChangeOne(vests.Keys, a,
      b => if b in ballots && w in ballots[b] then Weight(vests, proxy, b) else 0,
      b => if b in after && w in after[b] then Weight(vests, proxy, b) else 0);
  }

  lemma WeightAfterLeaving(vests: map<Account, int>, proxy: ProxyMap, ballots: map<Account, set<Witness>>, a: Account,
                           b: Account, w: Witness)
    requires a in vests && a in proxy && Closed(vests.Keys, proxy) && OnlyRootsVote(proxy, ballots) && Ends(proxy, a)
    requires b in ballots && w in ballots[b]
    ensures Weight(vests, proxy - {a}, b) == Weight(vests, proxy, b) - LandingOn(proxy, a, Held(vests, proxy, a), b)
  {
    WithinAfterDetach(vests, proxy, a, b, MAX_PROXY_DEPTH);
    CarriedLands(vests, proxy, a, b);
  }

  /** An account that leaves its proxy: only the weight of the root above it changes. */
  lemma RecountAfterLeaving(vests: map<Account, int>, proxy: ProxyMap, ballots: map<Account, set<Witness>>, a: Account,
                            w: Witness)
    requires a in vests && a in proxy && Closed(vests.Keys, proxy) && OnlyRootsVote(proxy, ballots) && Ends(proxy, a)
    ensures Recount(vests, proxy - {a}, ballots, w)
         == Recount(vests, proxy, ballots, w) - VoteChange(proxy, ballots, a, Held(vests, proxy, a), 0, w)
  {
    var delta := Held(vests, proxy, a);
    var l := Landing(proxy, a, delta, 0);
    var f := b => if b in ballots && w in ballots[b] then Weight(vests, proxy, b) else 0;
    var g := b => if b in ballots && w in ballots[b] then Weight(vests, proxy - {a}, b) else 0;
    forall b | b in ballots && w in ballots[b] ensures Weight(vests, proxy - {a}, b) == Weight(vests, proxy, b) - LandingOn(proxy, a, delta, b) {
      WeightAfterLeaving(vests, proxy, ballots, a, b, w);
    }
    LandingMember(vests.Keys, proxy, a, delta, 0);
    hide Weight, Held, Landing, Within, Below, CarriedWithin, Up, Ends, Closed, OnlyRootsVote, Sum;
    if l.Some? {
      SumChangeOne(vests.Keys, l.value.0, f, g);
    } else {
      SumAgree(vests.Keys, f, g);
    }
  }

  /** Detaching an account, whether it voted itself or through a proxy. */
  lemma RecountAfterDetach(vests: map<Account, int>, proxy: ProxyMap, ballots: map<Account, set<Witness>>, a: Account,
                           w: Witness)
    requires a in vests && a in ballots && Closed(vests.Keys, proxy) && OnlyRootsVote(proxy, ballots) && Ends(proxy, a)
    ensures Recount(vests, proxy - {a}, ballots[a := {}], w)
         == Recount(vests, proxy, ballots, w) - VoteChange(proxy, ballots, a, Held(vests, proxy, a), 0, w)
  {
    if a in proxy {
      assert ballots[a := {}] == ballots;
      RecountAfterLeaving(vests, proxy, ballots, a, w);
    } else {
      assert proxy - {a} == proxy;
      RecountAfterClearing(vests, proxy, ballots, a, w);
      PrefixOfHeld(vests, proxy, a, MAX_PROXY_DEPTH);
    }
  }

  /** No witness can have more votes than there is stake. */
  lemma RecountBounded(vests: map<Account, int>, proxy: ProxyMap, ballots: map<Account, set<Witness>>, w: Witness)
    requires Closed(vests.Keys, proxy) && OnlyRootsVote(proxy, ballots) && NonNegative(vests)
    ensures 0 <= Recount(vests, proxy, ballots, w) <= Total(vests)
  {
    var f := b => if b in ballots && w in ballots[b] then Weight(vests, proxy, b) else 0;
    var share := b => AuditShare(vests, proxy, b, MAX_PROXY_DEPTH);
    forall b ensures 0 <= f(b) <= share(b) {
      WithinNonNegative(vests, proxy, b, MAX_PROXY_DEPTH);
      BelowNonNegative(vests, proxy, b, MAX_PROXY_DEPTH);
    }
    SumZero(vests.Keys, b => 0);
    SumMonotone(vests.Keys, b => 0, f);
    SumMonotone(vests.Keys, f, share);
    EveryShareCountedOnce(vests, proxy, MAX_PROXY_DEPTH);
  }

  lemma {:induction false} WithinNonNegative(vests: map<Account, int>, proxy: ProxyMap, b: Account, n: nat)
    requires NonNegative(vests)
    ensures 0 <= Within(vests, proxy, b, n)
  {
    BelowNonNegative(vests, proxy, b, n);
    if n > 0 {
      WithinNonNegative(vests, proxy, b, n - 1);
    }
  }

  // ----- one adjustment, as a relation between the state before and after -----

  /** The witnesses after every one in `approved` has had its votes changed by x. */
  ghost function Revoted(witnesses: map<Witness, Candidate>, approved: set<Witness>, clock: int, x: int): map<Witness, Candidate>
    requires forall w :: w in witnesses && w in approved ==> 0 <= witnesses[w].votes + x
  {
    map w | w in witnesses :: if w in approved then Reschedule(witnesses[w], clock, x) else witnesses[w]
  }

  /** The counters after delta has been pushed up from a. */
  ghost predicate Pushed(proxy: ProxyMap, a: Account, delta: seq<int>, depth: nat,
                         before: map<Account, seq<int>>, after: map<Account, seq<int>>)
    requires |delta| == MAX_PROXY_DEPTH + 1 && depth <= MAX_PROXY_DEPTH
  {
    && after.Keys == before.Keys
    && (forall b :: b in before && |before[b]| == MAX_PROXY_DEPTH ==> |after[b]| == MAX_PROXY_DEPTH)
    && (forall b, k: nat :: b in before && |before[b]| == MAX_PROXY_DEPTH && k < MAX_PROXY_DEPTH
          ==> after[b][k] == before[b][k] + Lifted(proxy, a, delta, depth, b, k))
  }

  /** The witness votes after delta has been pushed up from a. */
  ghost predicate Cast(proxy: ProxyMap, ballots: map<Account, set<Witness>>, a: Account, delta: seq<int>, depth: nat,
                       before: map<Witness, Candidate>, after: map<Witness, Candidate>)
    requires |delta| == MAX_PROXY_DEPTH + 1 && depth <= MAX_PROXY_DEPTH
  {
    && after.Keys == before.Keys
    && forall w :: w in before ==> after[w].votes == before[w].votes + VoteChange(proxy, ballots, a, delta, depth, w)
  }

  ghost function Negated(delta: seq<int>): (d: seq<int>)
    ensures |d| == |delta| && forall i :: 0 <= i < |d| ==> d[i] == -delta[i]
  {
    seq(|delta|, i requires 0 <= i < |delta| => -delta[i])
  }

  lemma {:induction false} PrefixNegated(delta: seq<int>, n: nat)
    requires n <= |delta|
    ensures Prefix(Negated(delta), n) == -Prefix(delta, n)
  {
    if n > 0 {
      PrefixNegated(delta, n - 1);
    }
  }

  lemma {:induction false} LandingNegated(proxy: ProxyMap, a: Account, delta: seq<int>, depth: nat)
    requires |delta| == MAX_PROXY_DEPTH + 1 && depth <= MAX_PROXY_DEPTH
    ensures var l, m := Landing(proxy, a, delta, depth), Landing(proxy, a, Negated(delta), depth);
            l.Some? == m.Some? && (l.Some? ==> l.value.0 == m.value.0 && m.value.1 == -l.value.1)
    decreases MAX_PROXY_DEPTH - depth
  {
    if a !in proxy {
      PrefixNegated(delta, MAX_PROXY_DEPTH + 1 - depth);
    } else if depth < MAX_PROXY_DEPTH {
      LandingNegated(proxy, proxy[a], delta, depth + 1);
    }
  }

  /** Stake added or removed: the pushed counters and cast votes are exact again. */
  lemma StakeKeepsConsistent(vests: map<Account, int>, proxy: ProxyMap, proxied: map<Account, seq<int>>,
                             ballots: map<Account, set<Witness>>, witnesses: map<Witness, Candidate>,
                             a: Account, v: int, proxied': map<Account, seq<int>>, witnesses': map<Witness, Candidate>)
    requires Consistent(vests, proxy, proxied, ballots, witnesses)
    requires a in vests && 0 <= vests[a] + v
    requires Pushed(proxy, a, Single(v), 0, proxied, proxied') && Cast(proxy, ballots, a, Single(v), 0, witnesses, witnesses')
    ensures Consistent(vests[a := vests[a] + v], proxy, proxied', ballots, witnesses')
  {
    var vests' := vests[a := vests[a] + v];
    assert vests'.Keys == vests.Keys;
    forall b, k: nat | b in proxied' && k < |proxied'[b]| ensures proxied'[b][k] == Below(vests', proxy, b, k + 1) {
      assert proxied[b][k] == Below(vests, proxy, b, k + 1);
      BelowAfterStake(vests, proxy, a, v, b, k + 1);
      LiftedStake(proxy, a, Single(v), 0, b, k);
    }
    forall w | w in witnesses' ensures witnesses'[w].votes == Recount(vests', proxy, ballots, w) {
      RecountAfterStake(vests, proxy, ballots, a, v, w);
    }
  }

  /** The negated weights pushed up from a: the state is exact for a forest without a's proxy and ballots. */
  lemma DetachKeepsConsistent(vests: map<Account, int>, proxy: ProxyMap, proxied: map<Account, seq<int>>,
                              ballots: map<Account, set<Witness>>, witnesses: map<Witness, Candidate>,
                              a: Account, delta: seq<int>, proxied': map<Account, seq<int>>, witnesses': map<Witness, Candidate>)
    requires Consistent(vests, proxy, proxied, ballots, witnesses)
    requires a in vests && delta == Negated(Held(vests, proxy, a))
    requires Pushed(proxy, a, delta, 0, proxied, proxied') && Cast(proxy, ballots, a, delta, 0, witnesses, witnesses')
    ensures Consistent(vests, proxy - {a}, proxied', ballots[a := {}], witnesses')
  {
    AccountEnds(proxy, a);
    DetachKeepsAcyclic(proxy, a);
    forall b, k: nat | b in proxied' && k < |proxied'[b]| ensures proxied'[b][k] == Below(vests, proxy - {a}, b, k + 1) {
      assert proxied[b][k] == Below(vests, proxy, b, k + 1);
      BelowAfterDetach(vests, proxy, a, b, k + 1);
      assert Up(proxy, a, 0) == Some(a);
      LiftedSubtree(vests, proxy, a, a, delta, -1, 0, b, k);
    }
    LandingNegated(proxy, a, Held(vests, proxy, a), 0);
    forall w | w in witnesses' ensures witnesses'[w].votes == Recount(vests, proxy - {a}, ballots[a := {}], w) {
      RecountAfterDetach(vests, proxy, ballots, a, w);
    }
  }

  lemma AccountEnds(proxy: ProxyMap, a: Account)
    requires Acyclic(proxy)
    ensures Ends(proxy, a)
  {
    if a !in proxy {
      assert Up(proxy, a, 1).None?;
    }
  }

  /** The weights pushed up from a free account after its proxy was set: exact for the new forest. */
  lemma AttachKeepsConsistent(vests: map<Account, int>, proxy: ProxyMap, proxied: map<Account, seq<int>>,
                              ballots: map<Account, set<Witness>>, witnesses: map<Witness, Candidate>,
                              a: Account, n: Account, delta: seq<int>, proxied': map<Account, seq<int>>, witnesses': map<Witness, Candidate>)
    requires Consistent(vests, proxy, proxied, ballots, witnesses)
    requires a in vests && n in vests && a !in proxy && ballots[a] == {}
    requires Acyclic(proxy[a := n]) && delta == Held(vests, proxy, a)
    requires Pushed(proxy[a := n], a, delta, 0, proxied, proxied')
    requires Cast(proxy[a := n], ballots, a, delta, 0, witnesses, witnesses')
    ensures Consistent(vests, proxy[a := n], proxied', ballots, witnesses')
  {
    var p := proxy[a := n];
    assert p - {a} == proxy;
    assert ballots[a := {}] == ballots;
    forall i: nat | i <= MAX_PROXY_DEPTH ensures delta[i] == Below(vests, p, a, i) {
      OwnSubtreeUnchanged(vests, p, a, i);
    }
    assert delta == Held(vests, p, a);
    forall b, k: nat | b in proxied' && k < |proxied'[b]| ensures proxied'[b][k] == Below(vests, p, b, k + 1) {
      assert proxied[b][k] == Below(vests, proxy, b, k + 1);
      BelowAfterDetach(vests, p, a, b, k + 1);
      assert Up(p, a, 0) == Some(a);
      LiftedSubtree(vests, p, a, a, delta, 1, 0, b, k);
    }
    forall w | w in witnesses' ensures witnesses'[w].votes == Recount(vests, p, ballots, w) {
      RecountAfterDetach(vests, p, ballots, a, w);
    }
  }

  /** Who is below a does not depend on a's own proxy. */
  lemma OwnSubtreeUnchanged(vests: map<Account, int>, proxy: ProxyMap, a: Account, i: nat)
    requires Ends(proxy, a)
    ensures Below(vests, proxy - {a}, a, i) == Below(vests, proxy, a, i)
  {
    BelowAfterDetach(vests, proxy, a, a, i);
    forall d: nat | 0 < d <= i ensures Up(proxy, a, d) != Some(a) {
      NotAboveItself(proxy, a, d);
    }
    CarriedNowhere(vests, proxy, a, a, i, i);
  }

  // ----- ballots, new accounts and silent stake -----

  /** witness_vote_weight: own stake plus the counters is the stake within reach. */
  lemma WeightFromCounters(vests: map<Account, int>, proxy: ProxyMap, proxied: map<Account, seq<int>>,
                           ballots: map<Account, set<Witness>>, witnesses: map<Witness, Candidate>, a: Account)
    requires Consistent(vests, proxy, proxied, ballots, witnesses) && a in vests
    ensures vests[a] + Prefix(proxied[a], MAX_PROXY_DEPTH) == Weight(vests, proxy, a)
  {
    BelowZero(vests, proxy, a);
    PrefixOfCounters(vests, proxy, proxied[a], a, MAX_PROXY_DEPTH);
  }

  lemma {:induction false} PrefixOfCounters(vests: map<Account, int>, proxy: ProxyMap, counters: seq<int>, a: Account,
                                            n: nat)
    requires n <= |counters| && forall k: nat :: k < |counters| ==> counters[k] == Below(vests, proxy, a, k + 1)
    ensures Within(vests, proxy, a, n) == Below(vests, proxy, a, 0) + Prefix(counters, n)
  {
    if n > 0 {
      PrefixOfCounters(vests, proxy, counters, a, n - 1);
    }
  }

  lemma RecountAfterBallot(vests: map<Account, int>, proxy: ProxyMap, ballots: map<Account, set<Witness>>, a: Account,
                           s: set<Witness>, w: Witness)
    requires a in vests && a in ballots
    ensures Recount(vests, proxy, ballots[a := s], w)
         == Recount(vests, proxy, ballots, w) - When(w in ballots[a], Weight(vests, proxy, a)) + When(w in s, Weight(vests, proxy, a))
  {
    var after := ballots[a := s];
    SumChangeOne(vests.Keys, a,
      b => if b in ballots && w in ballots[b] then Weight(vests, proxy, b) else 0,
      b => if b in after && w in after[b] then Weight(vests, proxy, b) else 0);
  }

  lemma NobodyVoted(vests: map<Account, int>, proxy: ProxyMap, ballots: map<Account, set<Witness>>, w: Witness)
    requires forall a :: a in ballots ==> w !in ballots[a]
    ensures Recount(vests, proxy, ballots, w) == 0
  {
    SumZero(vests.Keys, a => if a in ballots && w in ballots[a] then Weight(vests, proxy, a) else 0);
  }

  /** Stake of an account that neither votes nor proxies can change without touching any tally. */
  lemma SilentStake(vests: map<Account, int>, proxy: ProxyMap, proxied: map<Account, seq<int>>,
                    ballots: map<Account, set<Witness>>, witnesses: map<Witness, Candidate>, a: Account, v: int)
    requires Consistent(vests, proxy, proxied, ballots, witnesses)
    requires a in vests && a !in proxy && ballots[a] == {} && 0 <= vests[a] + v
    ensures Consistent(vests[a := vests[a] + v], proxy, proxied, ballots, witnesses)
  {
    StakeKeepsConsistent(vests, proxy, proxied, ballots, witnesses, a, v, proxied, witnesses);
  }

  /** Nobody is below an account that has just been created. */
  lemma {:induction false} NobodyBelow(proxy: ProxyMap, accounts: set<Account>, a: Account, x: Account, k: nat)
    requires Closed(accounts, proxy) && a !in accounts && x in accounts
    ensures Up(proxy, x, k) != Some(a)
    decreases k
  {
    if k > 0 && x in proxy {
      NobodyBelow(proxy, accounts, a, proxy[x], k - 1);
    }
  }

  lemma BelowNewAccount(vests: map<Account, int>, proxy: ProxyMap, a: Account, b: Account, k: nat)
    requires Closed(vests.Keys, proxy) && a !in vests
    ensures Below(vests[a := 0], proxy, b, k) == if b == a then 0 else Below(vests, proxy, b, k)
  {
    var vests' := vests[a := 0];
    var g := x => if x in vests' && Up(proxy, x, k) == Some(b) then vests'[x] else 0;
    assert vests'.Keys - {a} == vests.Keys;
    SumTake(vests'.Keys, a, g);
    if b == a {
      forall x | x in vests ensures g(x) == 0 {
        NobodyBelow(proxy, vests.Keys, a, x, k);
      }
      SumZero(vests.Keys, g);
    } else {
      SumAgree(vests.Keys, g, x => if x in vests && Up(proxy, x, k) == Some(b) then vests[x] else 0);
    }
  }

  lemma {:induction false} WithinNewAccount(vests: map<Account, int>, proxy: ProxyMap, a: Account, b: Account, n: nat)
    requires Closed(vests.Keys, proxy) && a !in vests
    ensures Within(vests[a := 0], proxy, b, n) == if b == a then 0 else Within(vests, proxy, b, n)
  {
    BelowNewAccount(vests, proxy, a, b, n);
    if n > 0 {
      WithinNewAccount(vests, proxy, a, b, n - 1);
    }
  }

  lemma NewAccountKeepsConsistent(vests: map<Account, int>, proxy: ProxyMap, proxied: map<Account, seq<int>>,
                                  ballots: map<Account, set<Witness>>, witnesses: map<Witness, Candidate>, a: Account)
    requires Consistent(vests, proxy, proxied, ballots, witnesses) && a !in vests
    ensures Consistent(vests[a := 0], proxy, proxied[a := [0, 0, 0, 0]], ballots[a := {}], witnesses)
    ensures Total(vests[a := 0]) == Total(vests)
  {
    var vests', ballots', proxied' := vests[a := 0], ballots[a := {}], proxied[a := [0, 0, 0, 0]];
    assert vests'.Keys - {a} == vests.Keys;
    SumTake(vests'.Keys, a, x => if x in vests' then vests'[x] else 0);
    SumAgree(vests.Keys, x => if x in vests' then vests'[x] else 0, x => if x in vests then vests[x] else 0);
    forall b, k: nat | b in proxied' && k < |proxied'[b]| ensures proxied'[b][k] == Below(vests', proxy, b, k + 1) {
      BelowNewAccount(vests, proxy, a, b, k + 1);
      if b != a {
        assert proxied[b][k] == Below(vests, proxy, b, k + 1);
      }
    }
    forall w | w in witnesses ensures Recount(vests', proxy, ballots', w) == Recount(vests, proxy, ballots, w) {
      RecountNewAccount(vests, proxy, ballots, a, w);
    }
  }

  lemma RecountNewAccount(vests: map<Account, int>, proxy: ProxyMap, ballots: map<Account, set<Witness>>, a: Account,
                          w: Witness)
    requires Closed(vests.Keys, proxy) && a !in vests && a !in ballots
    ensures Recount(vests[a := 0], proxy, ballots[a := {}], w) == Recount(vests, proxy, ballots, w)
  {
    var vests', ballots' := vests[a := 0], ballots[a := {}];
    assert vests'.Keys - {a} == vests.Keys;
    var g := b => if b in ballots' && w in ballots'[b] then Weight(vests', proxy, b) else 0;
    SumTake(vests'.Keys, a, g);
    forall b | b in vests ensures Weight(vests', proxy, b) == Weight(vests, proxy, b) {
      WithinNewAccount(vests, proxy, a, b, MAX_PROXY_DEPTH);
    }
    SumAgree(vests.Keys, g, b => if b in ballots && w in ballots[b] then Weight(vests, proxy, b) else 0);
  }

  // ----- the audit of validate_invariants -----

  /** What the audit reads from the stored counters of one account. */
  ghost function StoredShare(vests: map<Account, int>, proxy: ProxyMap, proxied: map<Account, seq<int>>, b: Account): int
  {
    if b !in vests || b !in proxied || |proxied[b]| != MAX_PROXY_DEPTH then 0
    else if b in proxy then proxied[b][MAX_PROXY_DEPTH - 1]
    else vests[b] + Prefix(proxied[b], MAX_PROXY_DEPTH)
  }

  ghost function StoredShares(vests: map<Account, int>, proxy: ProxyMap, proxied: map<Account, seq<int>>): int
  {
    Sum(vests.Keys, b => StoredShare(vests, proxy, proxied, b))
  }

  /** The stored weights at the roots plus the deepest stored slots elsewhere always sum to all stake. */
  lemma StoredSharesSumToTotal(vests: map<Account, int>, proxy: ProxyMap, proxied: map<Account, seq<int>>,
                               ballots: map<Account, set<Witness>>, witnesses: map<Witness, Candidate>)
    requires Consistent(vests, proxy, proxied, ballots, witnesses)
    ensures StoredShares(vests, proxy, proxied) == Total(vests)
  {
    forall b | b in vests ensures StoredShare(vests, proxy, proxied, b) == AuditShare(vests, proxy, b, MAX_PROXY_DEPTH) {
      WeightFromCounters(vests, proxy, proxied, ballots, witnesses, b);
      assert proxied[b][MAX_PROXY_DEPTH - 1] == Below(vests, proxy, b, MAX_PROXY_DEPTH);
    }
    SumAgree(vests.Keys, b => StoredShare(vests, proxy, proxied, b), b => AuditShare(vests, proxy, b, MAX_PROXY_DEPTH));
    EveryShareCountedOnce(vests, proxy, MAX_PROXY_DEPTH);
  }

  // ----- counting from scratch -----

  /** Votes for w from the accounts counted so far. */
  ghost function CountedVotes(accounts: set<Account>, vests: map<Account, int>, proxy: ProxyMap,
                              ballots: map<Account, set<Witness>>, w: Witness): int
  {
    Sum(accounts, a => if a in ballots && w in ballots[a] then Weight(vests, proxy, a) else 0)
  }

  lemma CountOneMore(accounts: set<Account>, vests: map<Account, int>, proxy: ProxyMap,
                     ballots: map<Account, set<Witness>>, a: Account, w: Witness)
    requires a !in accounts
    ensures CountedVotes(accounts + {a}, vests, proxy, ballots, w)
         == CountedVotes(accounts, vests, proxy, ballots, w) + if a in ballots && w in ballots[a] then Weight(vests, proxy, a) else 0
  {
    assert accounts + {a} - {a} == accounts;
    SumTake(accounts + {a}, a, x => if x in ballots && w in ballots[x] then Weight(vests, proxy, x) else 0);
  }
}
