/** The vote tally of the chain state and the operations that keep it equal to a full recount. */
module VoteTally {
  import opened Basics
  import opened Sums
  import opened Proxies
  import opened Witnesses
  import Schedule
  import opened Recounts

  /** STEEMIT_MAX_ACCOUNT_WITNESS_VOTES */
  const MAX_ACCOUNT_WITNESS_VOTES: nat := 30

  ghost predicate Fits(witnesses: map<Witness, Candidate>, approved: set<Witness>, x: int, total: int)
  {
    forall w :: w in approved && w in witnesses ==> witnesses[w].votes + x <= total
  }

  ghost predicate StaysPositive(witnesses: map<Witness, Candidate>, approved: set<Witness>, x: int)
  {
    forall w :: w in approved && w in witnesses ==> 0 <= witnesses[w].votes + x
  }

  /** The ballots that count delta pushed up from a; empty when the walk is cut off. */
  ghost function Reached(proxy: ProxyMap, ballots: map<Account, set<Witness>>, a: Account, delta: seq<int>, depth: nat): set<Witness>
    requires |delta| == MAX_PROXY_DEPTH + 1 && depth <= MAX_PROXY_DEPTH
  {
    var l := Landing(proxy, a, delta, depth);
    if l.Some? && l.value.0 in ballots then ballots[l.value.0] else {}
  }

  ghost function Amount(proxy: ProxyMap, a: Account, delta: seq<int>, depth: nat): int
    requires |delta| == MAX_PROXY_DEPTH + 1 && depth <= MAX_PROXY_DEPTH
  {
    var l := Landing(proxy, a, delta, depth);
    if l.Some? then l.value.1 else 0
  }

  // ----- the vote-overflow assertion -----

  lemma DetachFits(vests: map<Account, int>, proxy: ProxyMap, proxied: map<Account, seq<int>>,
                   ballots: map<Account, set<Witness>>, witnesses: map<Witness, Candidate>, a: Account, delta: seq<int>)
    requires Consistent(vests, proxy, proxied, ballots, witnesses) && a in vests && delta == Negated(Held(vests, proxy, a))
    ensures var s, x := Reached(proxy, ballots, a, delta, 0), Amount(proxy, a, delta, 0);
            Fits(witnesses, s, x, Total(vests)) && StaysPositive(witnesses, s, x)
  {
    AccountEnds(proxy, a);
    LandingNegated(proxy, a, Held(vests, proxy, a), 0);
    forall w | w in witnesses ensures 0 <= witnesses[w].votes + VoteChange(proxy, ballots, a, delta, 0, w) <= Total(vests) {
      RecountAfterDetach(vests, proxy, ballots, a, w);
      RecountBounded(vests, proxy - {a}, ballots[a := {}], w);
    }
  }

  lemma AttachFits(vests: map<Account, int>, proxy: ProxyMap, proxied: map<Account, seq<int>>,
                   ballots: map<Account, set<Witness>>, witnesses: map<Witness, Candidate>,
                   a: Account, n: Account, p: ProxyMap, delta: seq<int>)
    requires Consistent(vests, proxy, proxied, ballots, witnesses)
    requires a in vests && n in vests && a !in proxy && ballots[a] == {} && p == proxy[a := n] && Acyclic(p)
    requires delta == Held(vests, proxy, a)
    ensures var s, x := Reached(p, ballots, a, delta, 0), Amount(p, a, delta, 0);
            Fits(witnesses, s, x, Total(vests)) && StaysPositive(witnesses, s, x)
  {
    assert p - {a} == proxy;
    assert ballots[a := {}] == ballots;
    forall i: nat | i <= MAX_PROXY_DEPTH ensures delta[i] == Below(vests, p, a, i) {
      OwnSubtreeUnchanged(vests, p, a, i);
    }
    assert delta == Held(vests, p, a);
    forall w | w in witnesses ensures 0 <= witnesses[w].votes + VoteChange(p, ballots, a, delta, 0, w) <= Total(vests) {
      RecountAfterDetach(vests, p, ballots, a, w);
      RecountBounded(vests, p, ballots, w);
    }
  }

  /** Votes stay below the stake total after the change, which is what a caller must compare with. */
  lemma StakeFits(vests: map<Account, int>, proxy: ProxyMap, proxied: map<Account, seq<int>>,
                  ballots: map<Account, set<Witness>>, witnesses: map<Witness, Candidate>, a: Account, v: int)
    requires Consistent(vests, proxy, proxied, ballots, witnesses) && a in vests && 0 <= vests[a] + v
    ensures var s, x := Reached(proxy, ballots, a, Single(v), 0), Amount(proxy, a, Single(v), 0);
            Fits(witnesses, s, x, Total(vests) + v) && StaysPositive(witnesses, s, x)
  {
    TotalAfterStake(vests, a, v);
    forall w | w in witnesses ensures 0 <= witnesses[w].votes + VoteChange(proxy, ballots, a, Single(v), 0, w) <= Total(vests) + v {
      RecountAfterStake(vests, proxy, ballots, a, v, w);
      RecountBounded(vests[a := vests[a] + v], proxy, ballots, w);
    }
  }

  lemma RevotedOnTime(witnesses: map<Witness, Candidate>, approved: set<Witness>, clock: int, x: int)
    requires AllOnTime(witnesses, clock) && StaysPositive(witnesses, approved, x)
    ensures AllOnTime(Revoted(witnesses, approved, clock, x), clock)
    ensures SameProgress(witnesses, Revoted(witnesses, approved, clock, x), clock)
  {
    hide Reschedule, Progress;
    forall w | w in witnesses && w in approved
      ensures OnTime(Reschedule(witnesses[w], clock, x), clock)
      ensures Progress(Reschedule(witnesses[w], clock, x), clock) == Progress(witnesses[w], clock)
      ensures Reschedule(witnesses[w], clock, x).keyed == witnesses[w].keyed {
      RescheduleSaturates(witnesses[w], clock, x);
      PositionAdvances(witnesses[w], clock, x);
    }
  }

  lemma RevotedIsCast(proxy: ProxyMap, ballots: map<Account, set<Witness>>, a: Account, delta: seq<int>,
                      witnesses: map<Witness, Candidate>, clock: int)
    requires |delta| == MAX_PROXY_DEPTH + 1
    requires StaysPositive(witnesses, Reached(proxy, ballots, a, delta, 0), Amount(proxy, a, delta, 0))
    ensures Cast(proxy, ballots, a, delta, 0, witnesses,
                 Revoted(witnesses, Reached(proxy, ballots, a, delta, 0), clock, Amount(proxy, a, delta, 0)))
  {
  }

  // ----- a finished walk, all at once -----

  lemma StakeWalkDone(vests: map<Account, int>, proxy: ProxyMap, proxied: map<Account, seq<int>>,
                      ballots: map<Account, set<Witness>>,
                      witnesses: map<Witness, Candidate>, clock: int, a: Account, v: int, after: map<Account, int>,
                      proxied': map<Account, seq<int>>, witnesses': map<Witness, Candidate>)
    requires Consistent(vests, proxy, proxied, ballots, witnesses) && AllOnTime(witnesses, clock)
    requires a in vests && 0 <= vests[a] + v && after == vests[a := vests[a] + v]
    requires Pushed(proxy, a, Single(v), 0, proxied, proxied')
    requires var s, x := Reached(proxy, ballots, a, Single(v), 0), Amount(proxy, a, Single(v), 0);
             StaysPositive(witnesses, s, x) && witnesses' == Revoted(witnesses, s, clock, x)
    ensures Consistent(after, proxy, proxied', ballots, witnesses') && AllOnTime(witnesses', clock)
    ensures SameProgress(witnesses, witnesses', clock)
  {
    RevotedIsCast(proxy, ballots, a, Single(v), witnesses, clock);
    RevotedOnTime(witnesses, Reached(proxy, ballots, a, Single(v), 0), clock, Amount(proxy, a, Single(v), 0));
    StakeKeepsConsistent(vests, proxy, proxied, ballots, witnesses, a, v, proxied', witnesses');
  }

  lemma DetachWalkDone(vests: map<Account, int>, proxy: ProxyMap, proxied: map<Account, seq<int>>,
                       ballots: map<Account, set<Witness>>,
                       witnesses: map<Witness, Candidate>, clock: int, a: Account, delta: seq<int>,
                       proxied': map<Account, seq<int>>, witnesses': map<Witness, Candidate>)
    requires Consistent(vests, proxy, proxied, ballots, witnesses) && AllOnTime(witnesses, clock)
    requires a in vests && delta == Negated(Held(vests, proxy, a)) && Pushed(proxy, a, delta, 0, proxied, proxied')
    requires var s, x := Reached(proxy, ballots, a, delta, 0), Amount(proxy, a, delta, 0);
             StaysPositive(witnesses, s, x) && witnesses' == Revoted(witnesses, s, clock, x)
    ensures Consistent(vests, proxy - {a}, proxied', ballots[a := {}], witnesses') && AllOnTime(witnesses', clock)
    ensures SameProgress(witnesses, witnesses', clock)
    ensures delta == Negated(Held(vests, proxy - {a}, a))
  {
    RevotedIsCast(proxy, ballots, a, delta, witnesses, clock);
    RevotedOnTime(witnesses, Reached(proxy, ballots, a, delta, 0), clock, Amount(proxy, a, delta, 0));
    DetachKeepsConsistent(vests, proxy, proxied, ballots, witnesses, a, delta, proxied', witnesses');
    AccountEnds(proxy, a);
    forall i: nat | i <= MAX_PROXY_DEPTH ensures Below(vests, proxy, a, i) == Below(vests, proxy - {a}, a, i) {
      OwnSubtreeUnchanged(vests, proxy, a, i);
    }
    assert Held(vests, proxy, a) == Held(vests, proxy - {a}, a);
  }

  lemma AttachWalkDone(vests: map<Account, int>, proxy: ProxyMap, proxied: map<Account, seq<int>>,
                       ballots: map<Account, set<Witness>>,
                       witnesses: map<Witness, Candidate>, clock: int, a: Account, n: Account, joined: ProxyMap, delta: seq<int>,
                       proxied': map<Account, seq<int>>, witnesses': map<Witness, Candidate>)
    requires Consistent(vests, proxy, proxied, ballots, witnesses) && AllOnTime(witnesses, clock)
    requires a in vests && n in vests && a !in proxy && ballots[a] == {}
    requires joined == proxy[a := n] && Acyclic(joined) && delta == Held(vests, proxy, a)
    requires Pushed(joined, a, delta, 0, proxied, proxied')
    requires var s, x := Reached(joined, ballots, a, delta, 0), Amount(joined, a, delta, 0);
             StaysPositive(witnesses, s, x) && witnesses' == Revoted(witnesses, s, clock, x)
    ensures Consistent(vests, joined, proxied', ballots, witnesses') && AllOnTime(witnesses', clock)
    ensures SameProgress(witnesses, witnesses', clock)
  {
    RevotedIsCast(joined, ballots, a, delta, witnesses, clock);
    RevotedOnTime(witnesses, Reached(joined, ballots, a, delta, 0), clock, Amount(joined, a, delta, 0));
    AttachKeepsConsistent(vests, proxy, proxied, ballots, witnesses, a, n, delta, proxied', witnesses');
  }

  /** One ballot entry appears or disappears together with the account's weight. */
  lemma BallotKeepsConsistent(vests: map<Account, int>, proxy: ProxyMap, proxied: map<Account, seq<int>>,
                              ballots: map<Account, set<Witness>>,
                              witnesses: map<Witness, Candidate>, clock: int, a: Account, s: set<Witness>, w: Witness, x: int)
    requires Consistent(vests, proxy, proxied, ballots, witnesses) && AllOnTime(witnesses, clock)
    requires a in vests && a !in proxy && w in witnesses
    requires (s == ballots[a] + {w} && w !in ballots[a] && x == Weight(vests, proxy, a))
          || (s == ballots[a] - {w} && w in ballots[a] && x == -Weight(vests, proxy, a))
    ensures 0 <= witnesses[w].votes + x <= Total(vests)
    ensures var after := witnesses[w := Reschedule(witnesses[w], clock, x)];
            Consistent(vests, proxy, proxied, ballots[a := s], after) && AllOnTime(after, clock) && SameProgress(witnesses, after, clock)
  {
    forall u | u in witnesses ensures Recount(vests, proxy, ballots[a := s], u) == witnesses[u].votes + (if u == w then x else 0) {
      RecountAfterBallot(vests, proxy, ballots, a, s, u);
    }
    RecountBounded(vests, proxy, ballots[a := s], w);
    RescheduleSaturates(witnesses[w], clock, x);
    OneUpdateKeeps(witnesses, w, clock, x);
  }

  /** The votes counted so far are those of the accounts already done. */
  ghost predicate Counting(done: set<Account>, vests: map<Account, int>, proxy: ProxyMap,
                           ballots: map<Account, set<Witness>>, votes: map<Witness, int>)
  {
    forall w :: w in votes ==> votes[w] == CountedVotes(done, vests, proxy, ballots, w)
  }

  lemma StartCounting(vests: map<Account, int>, proxy: ProxyMap, ballots: map<Account, set<Witness>>,
                      votes: map<Witness, int>)
    requires forall w :: w in votes ==> votes[w] == 0
    ensures Counting({}, vests, proxy, ballots, votes)
  {
  }

  lemma DoneCounting(vests: map<Account, int>, proxy: ProxyMap, proxied: map<Account, seq<int>>,
                     ballots: map<Account, set<Witness>>,
                     witnesses: map<Witness, Candidate>, votes: map<Witness, int>)
    requires Consistent(vests, proxy, proxied, ballots, witnesses) && votes.Keys == witnesses.Keys && Counting(vests.Keys, vests, proxy, ballots, votes)
    ensures forall w :: w in witnesses ==> votes[w] == witnesses[w].votes
  {
    forall w | w in witnesses ensures votes[w] == witnesses[w].votes {
      CountedIsRecount(vests, proxy, ballots, w);
    }
  }

  lemma CountedIsRecount(vests: map<Account, int>, proxy: ProxyMap, ballots: map<Account, set<Witness>>, w: Witness)
    ensures CountedVotes(vests.Keys, vests, proxy, ballots, w) == Recount(vests, proxy, ballots, w)
  {
    SumAgree(vests.Keys, a => if a in ballots && w in ballots[a] then Weight(vests, proxy, a) else 0,
             a => if a in ballots && w in ballots[a] then Weight(vests, proxy, a) else 0);
  }

  lemma RetallyStep(done: set<Account>, vests: map<Account, int>, proxy: ProxyMap, ballots: map<Account, set<Witness>>,
                    a: Account,
                    votes: map<Witness, int>, votes': map<Witness, int>)
    requires a !in done && a in ballots && votes'.Keys == votes.Keys && Counting(done, vests, proxy, ballots, votes)
    requires forall w :: w in votes ==> votes'[w] == votes[w] + if w in ballots[a] then Weight(vests, proxy, a) else 0
    ensures Counting(done + {a}, vests, proxy, ballots, votes')
  {
    forall w | w in votes' ensures votes'[w] == CountedVotes(done + {a}, vests, proxy, ballots, w) {
      CountOneMore(done, vests, proxy, ballots, a, w);
    }
  }

  // ----- chains that avoid an account -----

  lemma {:induction false} DetachedChain(proxy: ProxyMap, a: Account, x: Account, i: nat) returns (j: nat)
    requires Up(proxy - {a}, x, i) == Some(a)
    ensures j <= i && Up(proxy, x, j) == Some(a)
    decreases i
  {
    if x == a {
      j := 0;
    } else {
      j := DetachedChain(proxy, a, proxy[x], i - 1);
      j := j + 1;
    }
  }

  lemma NoRepeat(proxy: ProxyMap, n: Account, i: nat)
    requires Acyclic(proxy) && Up(proxy, n, i).Some?
    ensures forall j: nat :: j < i ==> Up(proxy, n, j) != Up(proxy, n, i)
  {
    forall j: nat | j < i ensures Up(proxy, n, j) != Up(proxy, n, i) {
      UpAdd(proxy, n, j, i - j);
      if Up(proxy, n, j).Some? {
        AccountEnds(proxy, Up(proxy, n, j).value);
        NotAboveItself(proxy, Up(proxy, n, j).value, i - j);
      }
    }
  }

  /** The proxy chain the evaluator accepts: at most two hops above the new proxy, none of them the account. */
  ghost predicate ChainAccepted(proxy: ProxyMap, a: Account, n: Account)
  {
    && Up(proxy, n, MAX_PROXY_DEPTH - 1).None?
    && forall i: nat :: i < MAX_PROXY_DEPTH - 1 ==> Up(proxy, n, i) != Some(a)
  }

  /** Schedule updates move no votes, so the tally stays exact. */
  lemma SameVotesExact(vests: map<Account, int>, proxy: ProxyMap, proxied: map<Account, seq<int>>,
                       ballots: map<Account, set<Witness>>,
                       was: map<Witness, Candidate>, now: map<Witness, Candidate>)
    requires Consistent(vests, proxy, proxied, ballots, was) && now.Keys == was.Keys && forall w :: w in now ==> now[w].votes == was[w].votes
    ensures Consistent(vests, proxy, proxied, ballots, now)
  {
    hide Recount, Acyclic, CountersExact, NonNegative;
  }

  lemma ShapeKnown(vests: map<Account, int>, proxy: ProxyMap, proxied: map<Account, seq<int>>,
                   ballots: map<Account, set<Witness>>, witnesses: map<Witness, Candidate>)
    requires Consistent(vests, proxy, proxied, ballots, witnesses)
    ensures vests.Keys == ballots.Keys && Closed(vests.Keys, proxy) && Acyclic(proxy)
  {
  }

  lemma AcceptedIsAcyclic(proxy: ProxyMap, a: Account, n: Account)
    requires Acyclic(proxy) && ChainAccepted(proxy, a, n)
    ensures Acyclic((proxy - {a})[a := n])
  {
    var p := proxy - {a};
    DetachKeepsAcyclic(proxy, a);
    EndsAfterDetach(proxy, a, n, MAX_PROXY_DEPTH - 1);
    forall i: nat ensures Up(p, n, i) != Some(a) {
      if Up(p, n, i) == Some(a) {
        var j := DetachedChain(proxy, a, n, i);
        if j >= MAX_PROXY_DEPTH - 1 {
          EndsStays(proxy, n, MAX_PROXY_DEPTH - 1, j);
        }
        assert false;
      }
    }
    AttachKeepsAcyclic(p, a, n, MAX_PROXY_DEPTH - 1);
  }

  // ----- deposits of a power-down -----

  ghost predicate DepositsSound(vests: map<Account, int>, deposits: seq<(Account, int)>)
  {
    forall i :: 0 <= i < |deposits| ==> deposits[i].0 in vests && 0 <= deposits[i].1
  }

  /** The stakes after the deposits. */
  ghost function Credit(vests: map<Account, int>, deposits: seq<(Account, int)>): map<Account, int>
    requires DepositsSound(vests, deposits)
    ensures Credit(vests, deposits).Keys == vests.Keys
    decreases |deposits|
  {
    if deposits == [] then vests else
    var (to, v) := deposits[0];
    Credit(vests[to := vests[to] + v], deposits[1..])
  }

  ghost function Paid(deposits: seq<(Account, int)>): int
  {
    if deposits == [] then 0 else deposits[0].1 + Paid(deposits[1..])
  }

  method PaidTotal(deposits: seq<(Account, int)>) returns (sum: int)
    ensures sum == Paid(deposits)
  {
    sum := 0;
    for i := 0 to |deposits|
      invariant sum + Paid(deposits[i..]) == Paid(deposits)
    {
      sum := sum + deposits[i].1;
    }
  }

  lemma {:induction false} CreditKeeps(vests: map<Account, int>, deposits: seq<(Account, int)>)
    requires DepositsSound(vests, deposits) && NonNegative(vests)
    ensures NonNegative(Credit(vests, deposits))
    ensures Total(Credit(vests, deposits)) == Total(vests) + Paid(deposits) && 0 <= Paid(deposits)
    ensures forall a :: a in vests ==> vests[a] <= Credit(vests, deposits)[a]
    decreases |deposits|
  {
    if deposits != [] {
      var (to, v) := deposits[0];
      TotalAfterStake(vests, to, v);
      CreditKeeps(vests[to := vests[to] + v], deposits[1..]);
    }
  }

  /** No receiving side's witness would, with the deposits so far counted, pass the unreduced total. */
  ghost predicate DepositsFit(vests: map<Account, int>, proxy: ProxyMap, ballots: map<Account, set<Witness>>, total: int,
                              deposits: seq<(Account, int)>)
    requires DepositsSound(vests, deposits)
    decreases |deposits|
  {
    deposits == [] ||
    var (to, v) := deposits[0];
    var vests' := vests[to := vests[to] + v];
    DepositFits(vests', proxy, ballots, total, to) && DepositsFit(vests', proxy, ballots, total, deposits[1..])
  }

  ghost predicate DepositFits(vests: map<Account, int>, proxy: ProxyMap, ballots: map<Account, set<Witness>>,
                              total: int, to: Account)
  {
    forall w :: w in Reached(proxy, ballots, to, Single(0), 0) ==> Recount(vests, proxy, ballots, w) <= total
  }

  lemma DepositFitsNow(vests: map<Account, int>, proxy: ProxyMap, proxied: map<Account, seq<int>>,
                       ballots: map<Account, set<Witness>>, witnesses: map<Witness, Candidate>, to: Account, v: int, total: int)
    requires Consistent(vests, proxy, proxied, ballots, witnesses) && to in vests && 0 <= v
    ensures DepositFits(vests[to := vests[to] + v], proxy, ballots, total, to)
        <==> Fits(witnesses, Reached(proxy, ballots, to, Single(v), 0), Amount(proxy, to, Single(v), 0), total)
  {
    LandingSame(proxy, to, Single(0), Single(v), 0);
    LandingMember(vests.Keys, proxy, to, Single(v), 0);
    forall w | w in witnesses ensures Recount(vests[to := vests[to] + v], proxy, ballots, w)
        == witnesses[w].votes + VoteChange(proxy, ballots, to, Single(v), 0, w) {
      RecountAfterStake(vests, proxy, ballots, to, v, w);
    }
  }

  lemma {:induction false} LandingSame(proxy: ProxyMap, a: Account, d: seq<int>, e: seq<int>, depth: nat)
    requires |d| == |e| == MAX_PROXY_DEPTH + 1 && depth <= MAX_PROXY_DEPTH
    ensures var l, m := Landing(proxy, a, d, depth), Landing(proxy, a, e, depth);
            l.Some? == m.Some? && (l.Some? ==> l.value.0 == m.value.0)
    decreases MAX_PROXY_DEPTH - depth
  {
    if a in proxy && depth < MAX_PROXY_DEPTH {
      LandingSame(proxy, proxy[a], d, e, depth + 1);
    }
  }

  /**
   Everything stored is a count of the decisions, the witnesses are on time, and those without
   rights decide nothing.
   */
  ghost predicate StateOk(vests: map<Account, int>, proxy: ProxyMap, proxied: map<Account, seq<int>>,
                          ballots: map<Account, set<Witness>>,
                          declined: set<Account>, witnesses: map<Witness, Candidate>, clock: int, total: int)
  {
    && Consistent(vests, proxy, proxied, ballots, witnesses) && AllOnTime(witnesses, clock) && total == Total(vests)
    && forall a :: a in declined || a == NULL_ACCOUNT ==> a !in proxy && (a in ballots ==> ballots[a] == {})
  }

  class Tally {
    var vests: map<Account, int>               // vesting_shares
    var proxy: ProxyMap                        // proxy, absent when the account votes itself
    var proxied: map<Account, seq<int>>        // proxied_vsf_votes
    var ballots: map<Account, set<Witness>>    // witness_vote_index; its size is witnesses_voted_for
    var declined: set<Account>                 // accounts with can_vote == false
    var witnesses: map<Witness, Candidate>
    var clock: int                             // current_virtual_time
    var total: int                             // total_vesting_shares

    /** Counters and votes equal a recount, no proxy loops, everyone on time, declined accounts silent. */
    ghost predicate Valid()
      reads this
    {
      StateOk(vests, proxy, proxied, ballots, declined, witnesses, clock, total)
    }

    constructor ()
      ensures Valid() && vests == map[] && witnesses == map[] && declined == {} && clock == 0
    {
      vests, proxy, proxied, ballots, declined := map[], map[], map[], map[], {};
      witnesses, clock, total := map[], 0, 0;
    }

    /** adjust_witness_votes: one pass over the ballots of an account; false when the assertion fires. */
    method AdjustWitnessVotes(a: Account, x: int) returns (ok: bool)
      requires a in ballots && ballots[a] <= witnesses.Keys
      requires StaysPositive(witnesses, ballots[a], x)
      modifies this`witnesses
      ensures ok == Fits(old(witnesses), ballots[a], x, total)
      ensures ok ==> witnesses == Revoted(old(witnesses), ballots[a], clock, x)
    {
      var todo := ballots[a];
      ghost var done: set<Witness> := {};
      while todo != {}
        invariant todo <= ballots[a] && done == ballots[a] - todo
        invariant witnesses == Revoted(old(witnesses), done, clock, x) && Fits(old(witnesses), done, x, total)
        decreases |todo|
      {
        var w := Pick(todo);
        if witnesses[w].votes + x > total {
          return false;
        }
        witnesses := witnesses[w := Reschedule(witnesses[w], clock, x)];
        todo := todo - {w};
        done := done + {w};
      }
      return true;
    }

    /** adjust_proxied_witness_votes: walk up the proxies, then change the votes of the account at the top. */
    method AdjustProxied(a: Account, delta: seq<int>, depth: nat) returns (ok: bool)
      requires |delta| == MAX_PROXY_DEPTH + 1 && depth <= MAX_PROXY_DEPTH
      requires a in vests && Closed(vests.Keys, proxy) && proxied.Keys == vests.Keys == ballots.Keys
      requires forall b :: b in proxied ==> |proxied[b]| == MAX_PROXY_DEPTH
      requires forall b :: b in ballots ==> ballots[b] <= witnesses.Keys
      requires StaysPositive(witnesses, Reached(proxy, ballots, a, delta, depth), Amount(proxy, a, delta, depth))
      modifies this`proxied, this`witnesses
      ensures ok == Fits(old(witnesses), Reached(proxy, ballots, a, delta, depth), Amount(proxy, a, delta, depth), total)
      ensures ok ==> Pushed(proxy, a, delta, depth, old(proxied), proxied)
      ensures ok ==> witnesses == Revoted(old(witnesses), Reached(proxy, ballots, a, delta, depth), clock, Amount(proxy, a, delta, depth))
      ensures ok ==> witnesses.Keys == old(witnesses).Keys
      decreases MAX_PROXY_DEPTH - depth
    {
      if a in proxy {
        if depth >= MAX_PROXY_DEPTH {
          assert witnesses == Revoted(old(witnesses), {}, clock, 0);
          return true;
        }
        var counters := AddShifted(proxied[proxy[a]], delta, depth);
        proxied := proxied[proxy[a] := counters];
        ok := AdjustProxied(proxy[a], delta, depth + 1);
      } else {
        var sum := PrefixSum(delta, MAX_PROXY_DEPTH + 1 - depth);
        ok := AdjustWitnessVotes(a, sum);
      }
    }

    /** create_vesting and reward claims: new stake enters together with the total. */
    method AddStake(a: Account, v: int) returns (ok: bool)
      requires Valid() && a in vests && 0 <= v
      modifies this`vests, this`total, this`proxied, this`witnesses
      ensures ok && Valid()
      ensures vests == old(vests)[a := old(vests)[a] + v]
      ensures witnesses.Keys == old(witnesses).Keys && SameProgress(old(witnesses), witnesses, clock)
    {
      hide SameProgress;
      StakeFits(vests, proxy, proxied, ballots, witnesses, a, v);
      TotalAfterStake(vests, a, v);
      vests, total := vests[a := vests[a] + v], total + v;
      assert vests[a := vests[a] - v] == old(vests);
      ok := PropagateStake(a, v);
    }

    /** set_proxy's loop check: follow the new proxy's chain, refusing repeats and long chains. */
    method ChainIsAccepted(a: Account, n: Account) returns (ok: bool)
      requires Closed(vests.Keys, proxy) && Acyclic(proxy) && n in vests && a != n
      ensures ok == ChainAccepted(proxy, a, n)
    {
      var chain := {a, n};
      var cprox := n;
      ghost var i: nat := 0;
      assert Up(proxy, n, 0) == Some(n);
      while cprox in proxy
        invariant i < MAX_PROXY_DEPTH - 1 && Up(proxy, n, i) == Some(cprox)
        invariant |chain| == i + 2
        invariant
          && a in chain && forall x :: x in chain && x != a ==> exists j: nat :: j <= i && Up(proxy, n, j) == Some(x)
        invariant forall j: nat :: j <= i ==> Up(proxy, n, j) != Some(a)
        decreases MAX_PROXY_DEPTH - i
      {
        var next := proxy[cprox];
        UpAdd(proxy, n, i, 1);
        assert Up(proxy, cprox, 1) == Some(next) by { assert Up(proxy, next, 0) == Some(next); }
        if next in chain {
          NoRepeat(proxy, n, i + 1);
          assert next == a;
          if i + 1 == MAX_PROXY_DEPTH - 1 {
            assert Up(proxy, n, MAX_PROXY_DEPTH - 1).Some?;
          }
          return false;
        }
        chain := chain + {next};
        cprox := next;
        i := i + 1;
        if |chain| > MAX_PROXY_DEPTH {
          return false;
        }
      }
      UpAdd(proxy, n, i, 1);
      assert Up(proxy, cprox, 1).None?;
      EndsStays(proxy, n, i + 1, MAX_PROXY_DEPTH - 1);
      forall j: nat | j < MAX_PROXY_DEPTH - 1 ensures Up(proxy, n, j) != Some(a) {
        if j > i {
          EndsStays(proxy, n, i + 1, j);
        }
      }
      return true;
    }

    /** The weights at distances 0, 1, ... negated, as the evaluators collect them before an adjustment. */
    method Withdrawn(a: Account) returns (delta: seq<int>)
      requires Consistent(vests, proxy, proxied, ballots, witnesses) && a in vests
      ensures delta == Negated(Held(vests, proxy, a))
    {
      var counters := proxied[a];
      delta := [-vests[a]] + seq(MAX_PROXY_DEPTH, i requires 0 <= i < |counters| => -counters[i]);
      BelowZero(vests, proxy, a);
    }

    /** Take the account's whole subtree out of the counters and tallies above it. */
    method Detach(a: Account) returns (delta: seq<int>)
      requires Consistent(vests, proxy, proxied, ballots, witnesses) && AllOnTime(witnesses, clock) && total == Total(vests)
      requires a in vests
      modifies this`proxied, this`witnesses
      ensures Consistent(vests, proxy - {a}, proxied, ballots[a := {}], witnesses) && AllOnTime(witnesses, clock)
      ensures delta == Negated(Held(vests, proxy - {a}, a))
      ensures witnesses.Keys == old(witnesses).Keys && SameProgress(old(witnesses), witnesses, clock)
    {
      hide SameProgress;
      ghost var proxied0, witnesses0 := proxied, witnesses;
      delta := Withdrawn(a);
      DetachFits(vests, proxy, proxied, ballots, witnesses, a, delta);
      var ok := AdjustProxied(a, delta, 0);
      DetachWalkDone(vests, proxy, proxied0, ballots, witnesses0, clock, a, delta, proxied, witnesses);
    }

    /** account_witness_proxy: move the account's whole subtree from its old proxy to the new one. */
    method SetProxy(a: Account, n: Option<Account>) returns (ok: bool)
      requires Valid() && a != NULL_ACCOUNT && n != Some(a)
      modifies this`proxy, this`proxied, this`ballots, this`witnesses
      ensures Valid()
      ensures ok == (&& a in vests && a !in declined
                     && old(if a in proxy then Some(proxy[a]) else None) != n
                     && (n.Some? ==> n.value in vests && old(ChainAccepted(proxy, a, n.value))))
      ensures ok ==> proxy == (if n.Some? then old(proxy)[a := n.value] else old(proxy) - {a})
      ensures ok ==> ballots == old(ballots)[a := {}]
      ensures !ok ==> unchanged(this)
      ensures witnesses.Keys == old(witnesses).Keys && SameProgress(old(witnesses), witnesses, clock)
    {
      hide CountersExact, VotesExact, Acyclic, ChainAccepted, Total, AllOnTime, Held, Below, Recount, Sum, NonNegative,
        SameProgress;
      ProgressSame(witnesses, clock);
      if a !in vests || a in declined || (if a in proxy then Some(proxy[a]) else None) == n {
        return false;
      }
      ok := true;
      if n.Some? {
        ok := Repoint(a, n.value);
      } else {
        Unpoint(a);
      }
    }

    /** Without a new proxy only the weights leave; an account under a proxy has no ballots to clear. */
    method Unpoint(a: Account)
      requires Valid() && a in proxy && a in vests
      modifies this`proxy, this`proxied, this`witnesses
      ensures Valid() && witnesses.Keys == old(witnesses).Keys && SameProgress(old(witnesses), witnesses, clock)
      ensures proxy == old(proxy) - {a} && ballots == ballots[a := {}]
    {
      hide CountersExact, VotesExact, Acyclic, Total, AllOnTime, Held, Below, Recount, Sum, NonNegative,
        SameProgress;
      var delta := Detach(a);
      assert ballots == ballots[a := {}];
      proxy := proxy - {a};
    }

    method Repoint(a: Account, n: Account) returns (ok: bool)
      requires Valid() && a in vests && a !in declined + {NULL_ACCOUNT} && n != a
      modifies this`proxy, this`proxied, this`ballots, this`witnesses
      ensures Valid() && witnesses.Keys == old(witnesses).Keys && SameProgress(old(witnesses), witnesses, clock)
      ensures ok == (n in vests && old(ChainAccepted(proxy, a, n)))
      ensures ok ==> proxy == old(proxy)[a := n] && ballots == old(ballots)[a := {}]
      ensures !ok ==> unchanged(this)
    {
      hide CountersExact, VotesExact, Acyclic, ChainAccepted, Total, AllOnTime, Held, Below, Recount, Sum, NonNegative,
        Consistent, Closed, Negated, SameProgress;
      ProgressSame(witnesses, clock);
      ShapeKnown(vests, proxy, proxied, ballots, witnesses);
      // what the undo session puts back when a later assertion throws
      var proxied0, witnesses0 := proxied, witnesses;
      var delta := Detach(a);
      ok := false;
      if n in vests {
        ok := ChainIsAccepted(a, n);
        if ok {
          AcceptedIsAcyclic(proxy, a, n);
          ghost var witnesses1 := witnesses;
          Attach(a, n, delta);
          ProgressKept(witnesses0, witnesses1, witnesses, clock);
          return;
        }
      }
      proxied, witnesses := proxied0, witnesses0;
    }

    /** The second half of account_witness_proxy: clear the ballots, set the proxy, push the weights up. */
    method Attach(a: Account, n: Account, taken: seq<int>)
      requires a in vests && n in vests && total == Total(vests)
      requires Consistent(vests, proxy - {a}, proxied, ballots[a := {}], witnesses) && AllOnTime(witnesses, clock)
      requires Acyclic((proxy - {a})[a := n])
      requires taken == Negated(Held(vests, proxy - {a}, a))
      modifies this`proxy, this`proxied, this`ballots, this`witnesses
      ensures Consistent(vests, proxy, proxied, ballots, witnesses) && AllOnTime(witnesses, clock)
      ensures proxy == old(proxy)[a := n] && ballots == old(ballots)[a := {}]
      ensures witnesses.Keys == old(witnesses).Keys && SameProgress(old(witnesses), witnesses, clock)
    {
      hide Reached, Amount, Landing, Below, Recount, CountersExact, VotesExact, Acyclic, Total, Pushed, Revoted,
        AllOnTime, Held, Fits, StaysPositive, NonNegative, Sum, SameProgress;
      ghost var base := proxy - {a};
      ballots := ballots[a := {}];
      proxy := proxy[a := n];
      assert proxy == base[a := n];
      var delta := seq(|taken|, i requires 0 <= i < |taken| => -taken[i]);
      assert delta == Held(vests, base, a);
      ghost var proxied0, witnesses0 := proxied, witnesses;
      AttachFits(vests, base, proxied, ballots, witnesses, a, n, proxy, delta);
      var ok := AdjustProxied(a, delta, 0);
      AttachWalkDone(vests, base, proxied0, ballots, witnesses0, clock, a, n, proxy, delta, proxied, witnesses);
    }

    /** account_witness_vote: approve a witness or take the approval back. */
    method VoteWitness(a: Account, w: Witness, approve: bool) returns (ok: bool)
      requires Valid() && a != NULL_ACCOUNT
      modifies this`ballots, this`witnesses
      ensures Valid()
      ensures ok == (&& a in vests && a !in proxy && w in old(witnesses)
                     && (approve ==> a !in declined && w !in old(ballots)[a] && |old(ballots)[a]| < MAX_ACCOUNT_WITNESS_VOTES)
                     && (!approve ==> w in old(ballots)[a]))
      ensures ok ==> ballots == old(ballots)[a := if approve then old(ballots)[a] + {w} else old(ballots)[a] - {w}]
      ensures !ok ==> unchanged(this)
      ensures witnesses.Keys == old(witnesses).Keys && SameProgress(old(witnesses), witnesses, clock)
    {
      hide SameProgress;
      ProgressSame(witnesses, clock);
      if a !in vests || a in proxy || w !in witnesses || (approve && a in declined) {
        return false;
      }
      if w !in ballots[a] {
        if !approve || |ballots[a]| >= MAX_ACCOUNT_WITNESS_VOTES {
          return false;
        }
        Recast(a, w, true);
      } else {
        if approve {
          return false;
        }
        Recast(a, w, false);
      }
      return true;
    }

    /** One ballot entry appears or disappears; the witness's votes follow by the account's weight. */
    method Recast(a: Account, w: Witness, approve: bool)
      requires Valid() && a in vests && a !in proxy && w in witnesses && a !in declined + {NULL_ACCOUNT} && (w in ballots[a]) != approve
      modifies this`ballots, this`witnesses
      ensures Valid() && ballots == old(ballots)[a := if approve then old(ballots)[a] + {w} else old(ballots)[a] - {w}]
      ensures witnesses.Keys == old(witnesses).Keys && SameProgress(old(witnesses), witnesses, clock)
    {
      hide SameProgress;
      var counters := PrefixSum(proxied[a], MAX_PROXY_DEPTH);
      var weight := vests[a] + counters;
      WeightFromCounters(vests, proxy, proxied, ballots, witnesses, a);
      var approved := if approve then ballots[a] + {w} else ballots[a] - {w};
      var x := if approve then weight else -weight;
      BallotKeepsConsistent(vests, proxy, proxied, ballots, witnesses, clock, a, approved, w, x);
      assert witnesses[w].votes + x <= total;
      ballots := ballots[a := approved];
      witnesses := witnesses[w := Reschedule(witnesses[w], clock, x)];
    }

    /** process_decline_voting_rights for one due request: the account never votes or proxies again. */
    method Decline(a: Account)
      requires Valid() && a in vests && a != NULL_ACCOUNT
      modifies this`proxy, this`proxied, this`ballots, this`witnesses, this`declined
      ensures Valid()
      ensures declined == old(declined) + {a} && proxy == old(proxy) - {a} && ballots == old(ballots)[a := {}]
      ensures witnesses.Keys == old(witnesses).Keys && SameProgress(old(witnesses), witnesses, clock)
    {
      hide SameProgress;
      var delta := Detach(a);
      ballots := ballots[a := {}];
      proxy := proxy - {a};
      declined := declined + {a};
    }

    /** clear_null_account_balance: the null account's stake leaves without any vote moving. */
    method BurnNull()
      requires Valid() && NULL_ACCOUNT in vests
      modifies this`vests, this`total
      ensures Valid() && vests == old(vests)[NULL_ACCOUNT := 0]
    {
      var v := vests[NULL_ACCOUNT];
      TotalAfterStake(vests, NULL_ACCOUNT, -v);
      SilentStake(vests, proxy, proxied, ballots, witnesses, NULL_ACCOUNT, -v);
      vests, total := vests[NULL_ACCOUNT := 0], total - v;
    }

    /** A new account: no stake, no proxy, no ballots. */
    method CreateAccount(a: Account)
      requires Valid() && a !in vests && a !in declined
      modifies this`vests, this`proxied, this`ballots
      ensures Valid() && vests == old(vests)[a := 0] && ballots == old(ballots)[a := {}]
    {
      NewAccountKeepsConsistent(vests, proxy, proxied, ballots, witnesses, a);
      vests, proxied, ballots := vests[a := 0], proxied[a := [0, 0, 0, 0]], ballots[a := {}];
    }

    /** A new witness object: nobody has voted for it. */
    method CreateWitness(w: Witness, keyed: bool)
      requires Valid() && w !in witnesses
      modifies this`witnesses
      ensures Valid() && witnesses == old(witnesses)[w := NewCandidate(keyed)] && SameProgress(old(witnesses), witnesses, clock)
    {
      hide Progress;
      NobodyVoted(vests, proxy, ballots, w);
      witnesses := witnesses[w := NewCandidate(keyed)];
    }

    /**
     The voting side of one power-down payment: deposits to routed accounts come first, with the
     stake total not yet touched, then the withdrawn stake leaves. False, with nothing changed,
     when a deposit trips the vote-overflow assertion.
     */
    method WithdrawStake(from: Account, deposits: seq<(Account, int)>, amount: int) returns (ok: bool)
      requires Valid() && from in vests && DepositsSound(vests, deposits) && Paid(deposits) <= amount <= vests[from]
      modifies this`vests, this`total, this`proxied, this`witnesses
      ensures Valid()
      ensures ok == old(DepositsFit(vests, proxy, ballots, total, deposits))
      ensures ok ==> var paid := Credit(old(vests), deposits); vests == paid[from := paid[from] - amount]
      ensures ok ==> total == old(total) - amount + Paid(deposits)
      ensures !ok ==> unchanged(this)
      ensures witnesses.Keys == old(witnesses).Keys && SameProgress(old(witnesses), witnesses, clock)
    {
      hide CountersExact, VotesExact, Acyclic, AllOnTime, DepositsFit, Credit, Recount, Below, Sum, NonNegative,
        SameProgress;
      ProgressSame(witnesses, clock);
      var vests0, proxied0, witnesses0 := vests, proxied, witnesses;
      ok := DepositAll(deposits);
      if ok {
        CreditKeeps(vests0, deposits);
        var paid := PaidTotal(deposits);
        ghost var deposited := witnesses;
        RemoveStake(from, amount, amount - paid);
        ProgressKept(witnesses0, deposited, witnesses, clock);
      } else {
        vests, proxied, witnesses := vests0, proxied0, witnesses0;
      }
    }

    method DepositAll(deposits: seq<(Account, int)>) returns (ok: bool)
      requires Consistent(vests, proxy, proxied, ballots, witnesses) && AllOnTime(witnesses, clock)
      requires DepositsSound(vests, deposits)
      modifies this`vests, this`proxied, this`witnesses
      ensures ok == DepositsFit(old(vests), proxy, ballots, total, deposits)
      ensures ok ==>
        && vests == Credit(old(vests), deposits) && witnesses.Keys == old(witnesses).Keys
        && SameProgress(old(witnesses), witnesses, clock)
      ensures ok ==> Consistent(vests, proxy, proxied, ballots, witnesses) && AllOnTime(witnesses, clock)
      decreases |deposits|
    {
      hide SameProgress;
      if deposits == [] {
        ProgressSame(witnesses, clock);
        return true;
      }
      ok := Deposit(deposits[0].0, deposits[0].1);
      if ok {
        ghost var deposited := witnesses;
        ok := DepositAll(deposits[1..]);
        if ok {
          ProgressKept(old(witnesses), deposited, witnesses, clock);
        }
      }
    }

    method Deposit(to: Account, v: int) returns (ok: bool)
      requires Consistent(vests, proxy, proxied, ballots, witnesses) && AllOnTime(witnesses, clock)
      requires to in vests && 0 <= v
      modifies this`vests, this`proxied, this`witnesses
      ensures vests == old(vests)[to := old(vests)[to] + v]
      ensures ok == DepositFits(vests, proxy, ballots, total, to)
      ensures ok ==> Consistent(vests, proxy, proxied, ballots, witnesses) && AllOnTime(witnesses, clock)
      ensures ok ==> witnesses.Keys == old(witnesses).Keys && SameProgress(old(witnesses), witnesses, clock)
    {
      hide SameProgress;
      DepositFitsNow(vests, proxy, proxied, ballots, witnesses, to, v, total);
      vests := vests[to := vests[to] + v];
      assert vests[to := vests[to] - v] == old(vests);
      ok := PropagateStake(to, v);
    }

    method RemoveStake(from: Account, amount: int, burned: int)
      requires Consistent(vests, proxy, proxied, ballots, witnesses) && AllOnTime(witnesses, clock)
      requires from in vests && 0 <= amount <= vests[from] && Total(vests) == total + amount - burned
      modifies this`vests, this`total, this`proxied, this`witnesses
      ensures Consistent(vests, proxy, proxied, ballots, witnesses) && AllOnTime(witnesses, clock) && total == Total(vests)
      ensures vests == old(vests)[from := old(vests)[from] - amount] && total == old(total) - burned
      ensures witnesses.Keys == old(witnesses).Keys && SameProgress(old(witnesses), witnesses, clock)
    {
      hide SameProgress;
      StakeFits(vests, proxy, proxied, ballots, witnesses, from, -amount);
      TotalAfterStake(vests, from, -amount);
      vests, total := vests[from := vests[from] - amount], total - burned;
      assert vests[from := vests[from] + amount] == old(vests);
      var ok := PropagateStake(from, -amount);
    }

    /**
     update_witness_schedule4 on the same witness objects: the laps and the clock move, the votes do not,
     and no witness ends up on the wrong side of the new clock.
     */
    method UpdateSchedule(byVotes: seq<Witness>, byTime: seq<Witness>, maxVoted: nat, time: nat)
      returns (ok: bool, round: seq<Witness>, ghost passed: nat)
      requires Valid() && Schedule.ByVotes(byVotes, witnesses) && Schedule.ByTime(byTime, witnesses) && maxVoted <= MAX_WITNESSES && time < 0x1_0000_0000
      modifies this`witnesses, this`clock
      ensures Valid() && witnesses.Keys == old(witnesses).Keys && (clock >= old(clock) || clock == 0)
      ensures forall w :: w in witnesses ==> witnesses[w].votes == old(witnesses)[w].votes && witnesses[w].keyed == old(witnesses)[w].keyed
      ensures passed <= |byTime| && var at := Schedule.LastTime(byTime, old(witnesses), passed, old(clock));
        && Schedule.FairLaps(witnesses, Schedule.Starting(byTime, passed, old(witnesses), at), clock)
        && clock == if Schedule.MustReset(byTime, passed, old(witnesses), at) then 0 else at
      ensures ok && 0 < |witnesses| ==>
        && Schedule.Distinct(round) && forall w :: w in round ==> w in witnesses && witnesses[w].keyed
    {
      hide CountersExact, VotesExact, Acyclic, Total, AllOnTime, Recount, NonNegative, Below, Sum, Schedule.ByVotes,
        Schedule.ByTime, Schedule.Elected, Schedule.Lapped, Schedule.FairLaps, Schedule.Starting, Schedule.MustReset;
      ghost var was := witnesses;
      var scheduler := new Schedule.Scheduler(witnesses, clock, []);
      var elected, runners, count;
      ok, elected, runners, count := scheduler.Update(byVotes, byTime, maxVoted, time);
      SameVotesExact(vests, proxy, proxied, ballots, was, scheduler.witnesses);
      passed := count;
      witnesses, clock, round := scheduler.witnesses, scheduler.clock, scheduler.shuffled;
    }

    /** retally_witness_votes: clear everything and add each self-voting account's weight to its witnesses. */
    method Retally() returns (votes: map<Witness, int>)
      requires Valid()
      ensures votes.Keys == witnesses.Keys
      ensures forall w :: w in witnesses ==> votes[w] == witnesses[w].votes
    {
      hide Counting, Consistent, Total, AllOnTime;
      votes := map w | w in witnesses :: 0;
      var todo := vests.Keys;
      ghost var done: set<Account> := {};
      StartCounting(vests, proxy, ballots, votes);
      while todo != {}
        invariant todo <= vests.Keys && done == vests.Keys - todo && votes.Keys == witnesses.Keys
        invariant Counting(done, vests, proxy, ballots, votes)
        decreases |todo|
      {
        var a := Pick(todo);
        ghost var before := votes;
        votes := TallyOne(a, votes);
        RetallyStep(done, vests, proxy, ballots, a, before, votes);
        todo, done := todo - {a}, done + {a};
      }
      assert done == vests.Keys;
      DoneCounting(vests, proxy, proxied, ballots, witnesses, votes);
    }

    /** One account's weight added to everyone it votes for. */
    method TallyOne(a: Account, votes: map<Witness, int>) returns (r: map<Witness, int>)
      requires Valid() && a in vests
      ensures a in ballots && r.Keys == votes.Keys
      ensures forall w :: w in votes ==> r[w] == votes[w] + if w in ballots[a] then Weight(vests, proxy, a) else 0
    {
      hide CountersExact, VotesExact, Acyclic, Total, AllOnTime, Below, Recount, Sum, NonNegative, Weight, Closed;
      if a in proxy {
        return votes;
      }
      WeightFromCounters(vests, proxy, proxied, ballots, witnesses, a);
      var counters := PrefixSum(proxied[a], MAX_PROXY_DEPTH);
      var weight := vests[a] + counters;
      r := map w | w in votes :: if w in ballots[a] then votes[w] + weight else votes[w];
    }

    /** The propagation step shared by every stake change; false when the vote-overflow assertion fires. */
    method PropagateStake(a: Account, v: int) returns (ok: bool)
      requires a in vests && 0 <= vests[a] - v
      requires Consistent(vests[a := vests[a] - v], proxy, proxied, ballots, witnesses) && AllOnTime(witnesses, clock) && NonNegative(vests)
      modifies this`proxied, this`witnesses
      ensures ok == Fits(old(witnesses), Reached(proxy, ballots, a, Single(v), 0), Amount(proxy, a, Single(v), 0), total)
      ensures ok ==> Consistent(vests, proxy, proxied, ballots, witnesses) && AllOnTime(witnesses, clock)
      ensures ok ==> witnesses.Keys == old(witnesses).Keys && SameProgress(old(witnesses), witnesses, clock)
    {
      hide SameProgress;
      ghost var before := vests[a := vests[a] - v];
      assert vests == before[a := before[a] + v];
      ghost var proxied0, witnesses0 := proxied, witnesses;
      StakeFits(before, proxy, proxied, ballots, witnesses, a, v);
      var delta := seq(MAX_PROXY_DEPTH + 1, i => if i == 0 then v else 0);
      assert delta == Single(v);
      ok := AdjustProxied(a, delta, 0);
      if ok {
        StakeWalkDone(before, proxy, proxied0, ballots, witnesses0, clock, a, v, vests, proxied, witnesses);
      }
    }
  }

  /** The deposits of one payment can be rejected although the payment itself is sound. */
  lemma DepositCanOverflow()
    ensures var vests, ballots := map[3 := 10, 4 := 0], map[3 := {7}, 4 := {7}];
            Total(vests) == 10 && !DepositsFit(vests, map[], ballots, 10, [(4, 1)])
  {
    var vests, proxy: ProxyMap, ballots := map[3 := 10, 4 := 0], map[], map[3 := {7}, 4 := {7}];
    var after := vests[4 := 1];
    var d: (Account, int) := (4, 1);
    assert [d][0] == d;
    TotalOfTwo(vests, 3, 4);
    var f := a => if a in ballots && 7 in ballots[a] then Weight(after, proxy, a) else 0;
    SumTake(after.Keys, 3, f);
    SumTake(after.Keys - {3}, 4, f);
    assert after.Keys - {3} - {4} == {};
    OwnWeight(after, proxy, 3);
    OwnWeight(after, proxy, 4);
    assert Recount(after, proxy, ballots, 7) == 11;
    assert 7 in Reached(proxy, ballots, 4, Single(0), 0);
  }

  lemma TotalOfTwo(vests: map<Account, int>, a: Account, b: Account)
    requires a != b && vests.Keys == {a, b}
    ensures Total(vests) == vests[a] + vests[b]
  {
    var f := x => if x in vests then vests[x] else 0;
    SumTake(vests.Keys, a, f);
    SumTake(vests.Keys - {a}, b, f);
    assert vests.Keys - {a} - {b} == {};
  }

  /** Without proxies an account weighs its own stake. */
  lemma OwnWeight(vests: map<Account, int>, proxy: ProxyMap, a: Account)
    requires proxy == map[] && a in vests
    ensures Weight(vests, proxy, a) == vests[a]
  {
    BelowZero(vests, proxy, a);
    OwnWithin(vests, proxy, a, MAX_PROXY_DEPTH);
  }

  lemma {:induction false} OwnWithin(vests: map<Account, int>, proxy: ProxyMap, a: Account, n: nat)
    requires proxy == map[]
    ensures Within(vests, proxy, a, n) == Below(vests, proxy, a, 0)
  {
    if n > 0 {
      OwnWithin(vests, proxy, a, n - 1);
      SumZero(vests.Keys, x => if x in vests && Up(proxy, x, n) == Some(a) then vests[x] else 0);
    }
  }

  /** The operations and block steps that move stake, proxies or votes. */
  datatype VoteStep =
    | SetProxyStep(account: Account, target: Option<Account>)
    | BallotStep(account: Account, candidate: Witness, approve: bool)
    | DeclineStep(account: Account)
    | StakeStep(account: Account, amount: int)
    | WithdrawStep(account: Account, deposits: seq<(Account, int)>, amount: int)
    | BurnNullStep
    | CreateAccountStep(account: Account)
    | CreateWitnessStep(candidate: Witness, keyed: bool)
    | ScheduleStep(byVotes: seq<Witness>, byTime: seq<Witness>, maxVoted: nat, time: nat)

  /**
   Everything the accounts decided, without a single counter: stake, proxies, ballots, declined
   rights and the known witnesses.
   */
  datatype Poll = Poll(vests: map<Account, int>, proxy: ProxyMap, ballots: map<Account, set<Witness>>, declined: set<Account>, known: set<Witness>)

  ghost function PollOf(t: Tally): Poll
    reads t
  {
    Poll(t.vests, t.proxy, t.ballots, t.declined, t.witnesses.Keys)
  }

  ghost predicate MayProxy(p: Poll, a: Account, n: Option<Account>)
  {
    && a != NULL_ACCOUNT && n != Some(a) && a in p.vests && a !in p.declined
    && (if a in p.proxy then Some(p.proxy[a]) else None) != n
    && (n.Some? ==> n.value in p.vests && ChainAccepted(p.proxy, a, n.value))
  }

  predicate MayVote(p: Poll, a: Account, w: Witness, approve: bool)
  {
    && a != NULL_ACCOUNT && a in p.vests && a in p.ballots && a !in p.proxy && w in p.known
    && if approve then a !in p.declined && w !in p.ballots[a] && |p.ballots[a]| < MAX_ACCOUNT_WITNESS_VOTES else w in p.ballots[a]
  }

  ghost predicate MayWithdraw(p: Poll, a: Account, deposits: seq<(Account, int)>, amount: int)
  {
    && a in p.vests && DepositsSound(p.vests, deposits) && Paid(deposits) <= amount <= p.vests[a]
    && DepositsFit(p.vests, p.proxy, p.ballots, Total(p.vests), deposits)
  }

  ghost function PaidOut(vests: map<Account, int>, a: Account, deposits: seq<(Account, int)>, amount: int): map<Account, int>
    requires a in vests && DepositsSound(vests, deposits)
  {
    var paid := Credit(vests, deposits);
    paid[a := paid[a] - amount]
  }

  /** What one step does to the decisions; a step the chain would reject changes nothing. */
  ghost function After(p: Poll, s: VoteStep): Poll
  {
    match s
    case SetProxyStep(a, n) =>
      if MayProxy(p, a, n) then p.(proxy := if n.Some? then p.proxy[a := n.value] else p.proxy - {a}, ballots := p.ballots[a := {}]) else p
    case BallotStep(a, w, approve) =>
      if MayVote(p, a, w, approve) then p.(ballots := p.ballots[a := if approve then p.ballots[a] + {w} else p.ballots[a] - {w}]) else p
    case DeclineStep(a) =>
      if a in p.vests && a != NULL_ACCOUNT then p.(proxy := p.proxy - {a}, ballots := p.ballots[a := {}], declined := p.declined + {a}) else p
    case StakeStep(a, v) => if a in p.vests && 0 <= v then p.(vests := p.vests[a := p.vests[a] + v]) else p
    case WithdrawStep(a, ds, v) => if MayWithdraw(p, a, ds, v) then p.(vests := PaidOut(p.vests, a, ds, v)) else p
    case BurnNullStep => if NULL_ACCOUNT in p.vests then p.(vests := p.vests[NULL_ACCOUNT := 0]) else p
    case CreateAccountStep(a) =>
      if a !in p.vests && a !in p.declined then p.(vests := p.vests[a := 0], ballots := p.ballots[a := {}]) else p
    case CreateWitnessStep(w, keyed) => p.(known := p.known + {w})
    case ScheduleStep(_, _, _, _) => p
  }

  ghost function AfterAll(p: Poll, steps: seq<VoteStep>): Poll
  {
    if steps == [] then p else After(AfterAll(p, steps[..|steps| - 1]), steps[|steps| - 1])
  }

  /**
   The incremental tally refines a recount: after any run of steps the decisions are those of the
   steps alone, no proxy loop exists, and every counter, vote and total is what counting the
   decisions from scratch gives.
   */
  method Run(t: Tally, steps: seq<VoteStep>)
    requires t.Valid()
    modifies t
    ensures t.Valid() && PollOf(t) == AfterAll(old(PollOf(t)), steps)
    ensures var p := AfterAll(old(PollOf(t)), steps);
      Acyclic(p.proxy) && t.total == Total(p.vests) && forall w :: w in t.witnesses ==> t.witnesses[w].votes == Recount(p.vests, p.proxy, p.ballots, w)
    ensures StoredShares(t.vests, t.proxy, t.proxied) == t.total
    ensures AllOnTime(t.witnesses, t.clock)
    ensures (forall i :: 0 <= i < |steps| ==> !steps[i].ScheduleStep?) ==>
      t.clock == old(t.clock) && SameProgress(old(t.witnesses), t.witnesses, t.clock)
  {
    hide SameProgress;
    ProgressSame(t.witnesses, t.clock);
    for i := 0 to |steps|
      invariant t.Valid() && PollOf(t) == AfterAll(old(PollOf(t)), steps[..i])
      invariant (forall k :: 0 <= k < i ==> !steps[k].ScheduleStep?) ==>
        t.clock == old(t.clock) && SameProgress(old(t.witnesses), t.witnesses, t.clock)
    {
      ghost var before := t.witnesses;
      Step(t, steps[i]);
      if forall k :: 0 <= k < i + 1 ==> !steps[k].ScheduleStep? {
        ProgressKept(old(t.witnesses), before, t.witnesses, t.clock);
      }
      assert steps[..i + 1][..i] == steps[..i];
    }
    assert steps[..|steps|] == steps;
    StoredSharesSumToTotal(t.vests, t.proxy, t.proxied, t.ballots, t.witnesses);
  }

  /** The sum validate_invariants forms from the stored counters. */
  ghost function StoredTotal(t: Tally): int
    reads t
  {
    StoredShares(t.vests, t.proxy, t.proxied)
  }

  lemma StoredIsTotal(t: Tally)
    requires t.Valid()
    ensures StoredTotal(t) == t.total == Total(t.vests)
  {
    StoredSharesSumToTotal(t.vests, t.proxy, t.proxied, t.ballots, t.witnesses);
  }

  lemma TotalIs(t: Tally)
    requires t.Valid()
    ensures t.total == Total(t.vests)
  {
  }

  lemma BallotsKnown(t: Tally)
    requires t.Valid()
    ensures t.vests.Keys == t.ballots.Keys && t.total == Total(t.vests)
  {
  }

  method WithdrawChecked(t: Tally, s: VoteStep)
    requires t.Valid() && s.WithdrawStep?
    modifies t
    ensures t.Valid() && PollOf(t) == After(old(PollOf(t)), s)
    ensures t.clock == old(t.clock) && SameProgress(old(t.witnesses), t.witnesses, t.clock)
  {
    hide Acyclic, ChainAccepted, Total, AllOnTime, Recount, DepositsFit, Credit, Paid, StateOk, Consistent,
      DepositsSound, SameProgress;
    ProgressSame(t.witnesses, t.clock);
    BallotsKnown(t);
    var sound := AreSound(t, s.deposits);
    var paid := PaidTotal(s.deposits);
    if s.account in t.vests && sound && paid <= s.amount <= t.vests[s.account] {
      var ok := t.WithdrawStake(s.account, s.deposits, s.amount);
    }
  }

  method UpdateChecked(t: Tally, s: VoteStep)
    requires t.Valid() && s.ScheduleStep?
    modifies t
    ensures t.Valid() && PollOf(t) == After(old(PollOf(t)), s)
  {
    hide Acyclic, ChainAccepted, Total, AllOnTime, Recount, DepositsFit, Credit, Paid, StateOk, Consistent,
      DepositsSound, SameProgress;
    ProgressSame(t.witnesses, t.clock);
    if Schedule.ByVotes(s.byVotes, t.witnesses) && Schedule.ByTime(s.byTime, t.witnesses)
      && s.maxVoted <= MAX_WITNESSES && s.time < 0x1_0000_0000 {
      var ok, round, passed := t.UpdateSchedule(s.byVotes, s.byTime, s.maxVoted, s.time);
    }
  }

  method Step(t: Tally, s: VoteStep)
    requires t.Valid()
    modifies t
    ensures t.Valid() && PollOf(t) == After(old(PollOf(t)), s)
    ensures !s.ScheduleStep? ==> t.clock == old(t.clock) && SameProgress(old(t.witnesses), t.witnesses, t.clock)
  {
    hide Acyclic, ChainAccepted, Total, AllOnTime, Recount, DepositsFit, Credit, Paid, StateOk, Consistent,
      DepositsSound, SameProgress;
    ProgressSame(t.witnesses, t.clock);
    BallotsKnown(t);
    var ok;
    match s {
      case SetProxyStep(a, n) => if a != NULL_ACCOUNT && n != Some(a) { ok := t.SetProxy(a, n); }
      case BallotStep(a, w, approve) => if a != NULL_ACCOUNT { ok := t.VoteWitness(a, w, approve); }
      case DeclineStep(a) => if a in t.vests && a != NULL_ACCOUNT { t.Decline(a); }
      case StakeStep(a, v) => if a in t.vests && 0 <= v { ok := t.AddStake(a, v); }
      case WithdrawStep(a, ds, v) => WithdrawChecked(t, s);
      case BurnNullStep => if NULL_ACCOUNT in t.vests { t.BurnNull(); }
      case CreateAccountStep(a) => if a !in t.vests && a !in t.declined { t.CreateAccount(a); }
      case CreateWitnessStep(w, keyed) => if w !in t.witnesses { t.CreateWitness(w, keyed); }
      case ScheduleStep(byVotes, byTime, maxVoted, time) => UpdateChecked(t, s);
    }
  }

  method AreSound(t: Tally, deposits: seq<(Account, int)>) returns (ok: bool)
    ensures ok == DepositsSound(t.vests, deposits)
  {
    for i := 0 to |deposits|
      invariant DepositsSound(t.vests, deposits[..i])
    {
      if deposits[i].0 !in t.vests || deposits[i].1 < 0 {
        return false;
      }
      assert deposits[..i + 1] == deposits[..i] + [deposits[i]];
    }
    assert deposits[..|deposits|] == deposits;
    return true;
  }

  /** One account's counters with delta added from slot `depth` on. */
  method AddShifted(counters: seq<int>, delta: seq<int>, depth: nat) returns (r: seq<int>)
    requires |counters| == MAX_PROXY_DEPTH && |delta| == MAX_PROXY_DEPTH + 1 && depth < MAX_PROXY_DEPTH
    ensures |r| == |counters|
    ensures forall k: nat :: k < |r| ==> r[k] == counters[k] + if depth <= k then delta[k - depth] else 0
  {
    r := counters;
    var i: int := MAX_PROXY_DEPTH - depth - 1;
    while i >= 0
      invariant -1 <= i < MAX_PROXY_DEPTH - depth && |r| == |counters|
      invariant forall k: nat :: k < |r| ==> r[k] == counters[k] + if i + depth < k then delta[k - depth] else 0
    {
      r := r[i + depth := r[i + depth] + delta[i]];
      i := i - 1;
    }
  }

  method PrefixSum(delta: seq<int>, n: nat) returns (sum: int)
    requires n <= |delta|
    ensures sum == Prefix(delta, n)
  {
    sum := 0;
    for i := 0 to n
      invariant sum == Prefix(delta, i)
    {
      sum := sum + delta[i];
    }
  }
}
