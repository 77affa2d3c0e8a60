/** Vesting shares and the witness votes they carry: two views of the same stake, kept equal. */
module StakeVotes {
  import opened Basics
  import opened Sums
  import opened Ledger
  import opened PowerPlans
  import opened PowerDown
  import opened Staking
  import Proxies
  import V = VoteTally
  import Witnesses

  /** The shares the votes are counted from. */
  function SharesOf(stakes: map<Account, Stake>): map<Account, int>
  {
    map a | a in stakes :: stakes[a].vests
  }

  lemma SharesAt(stakes: map<Account, Stake>)
    ensures SharesOf(stakes).Keys == stakes.Keys && forall a :: a in stakes ==> SharesOf(stakes)[a] == stakes[a].vests
  {
  }

  /** One account's shares moved. */
  lemma SharesGrow(was: map<Account, Stake>, now: map<Account, Stake>, a: Account, shares: int)
    requires a in was && now.Keys == was.Keys
    requires forall b :: b in was ==> now[b].vests == was[b].vests + if b == a then shares else 0
    ensures SharesOf(now) == SharesOf(was)[a := was[a].vests + shares] && a in SharesOf(was) && SharesOf(was)[a] == was[a].vests
  {
    SharesAt(was);
    SharesAt(now);
    hide SharesOf;
    var x, y := SharesOf(now), SharesOf(was)[a := was[a].vests + shares];
    forall b | b in x ensures x[b] == y[b] {}
  }

  /** total_vesting_shares is the total behind the votes. */
  lemma SharesTotal(stakes: map<Account, Stake>)
    ensures Proxies.Total(SharesOf(stakes)) == StakeVests(stakes)
  {
    var shares := SharesOf(stakes);
    assert shares.Keys == stakes.Keys;
    SumMapPart(stakes, VestsOf, stakes.Keys, a => if a in shares then shares[a] else 0);
  }

  // ----- one payment -----

  ghost function ToOf(deposits: seq<(Account, int)>, b: Account): int
  {
    if deposits == [] then 0 else (if deposits[0].0 == b then deposits[0].1 else 0) + ToOf(deposits[1..], b)
  }

  lemma {:induction false} CreditAt(vests: map<Account, int>, deposits: seq<(Account, int)>, b: Account)
    requires V.DepositsSound(vests, deposits) && b in vests
    ensures V.Credit(vests, deposits)[b] == vests[b] + ToOf(deposits, b)
    decreases |deposits|
  {
    if deposits != [] {
      var (to, v) := deposits[0];
      CreditAt(vests[to := vests[to] + v], deposits[1..], b);
    }
  }

  lemma {:induction false} ToOfMore(deposits: seq<(Account, int)>, d: (Account, int), b: Account)
    ensures ToOf(deposits + [d], b) == ToOf(deposits, b) + (if d.0 == b then d.1 else 0)
    decreases |deposits|
  {
    if deposits == [] {
      assert [d][1..] == [];
    } else {
      assert (deposits + [d])[1..] == deposits[1..] + [d];
      ToOfMore(deposits[1..], d, b);
    }
  }

  lemma {:induction false} PaidMore(deposits: seq<(Account, int)>, d: (Account, int))
    ensures V.Paid(deposits + [d]) == V.Paid(deposits) + d.1
    decreases |deposits|
  {
    if deposits == [] {
      assert [d][1..] == [];
    } else {
      assert (deposits + [d])[1..] == deposits[1..] + [d];
      PaidMore(deposits[1..], d);
    }
  }

  /** The vesting routes of one instalment as deposits. */
  method DepositsOf(routes: Routes, from: Account, w: int) returns (deposits: seq<(Account, int)>)
    requires RoutesOk(routes) && RoutesFit(routes) && 0 <= w
    ensures forall b :: ToOf(deposits, b) == DepositTo(routes, from, w, b)
    ensures forall i :: 0 <= i < |deposits| ==> (from, deposits[i].0) in routes && 0 <= deposits[i].1
    ensures V.Paid(deposits) <= w
  {
    hide Sum, RoutesOk, RoutesFit, PassOf, Share;
    deposits := [];
    ghost var all := PassOf(routes, from, true);
    ghost var f := ShareAt(routes, w);
    var left := PassOf(routes, from, true);
    NothingDone(all, f);
    PassFits(routes, from, w);
    while left != {}
      invariant left <= all && V.Paid(deposits) == Sum(all - left, f)
      invariant forall b :: ToOf(deposits, b) == if (from, b) in all - left then f((from, b)) else 0
      invariant forall i :: 0 <= i < |deposits| ==> (from, deposits[i].0) in routes && 0 <= deposits[i].1
      decreases |left|
    {
      var k := Pick(left);
      InPass(routes, from, w, k);
      SumOneMore(all, left, k, f);
      var d := (k.1, Share(w, routes[k].percent));
      PaidMore(deposits, d);
      forall b ensures ToOf(deposits + [d], b) == if (from, b) in all - (left - {k}) then f((from, b)) else 0 {
        ToOfMore(deposits, d, b);
      }
      deposits := deposits + [d];
      left := left - {k};
    }
    assert all - left == all;
    forall b ensures ToOf(deposits, b) == DepositTo(routes, from, w, b) {
      PassMember(routes, from, w, b);
    }
  }

  lemma InPass(routes: Routes, from: Account, w: int, k: (Account, Account))
    requires RoutesOk(routes) && 0 <= w && k in PassOf(routes, from, true)
    ensures k in routes && k == (from, k.1) && 0 <= Share(w, routes[k].percent) == ShareAt(routes, w)(k)
  {
    ShareNonNegative(routes, w, k);
  }

  lemma PassMember(routes: Routes, from: Account, w: int, b: Account)
    ensures DepositTo(routes, from, w, b) == if (from, b) in PassOf(routes, from, true) then ShareAt(routes, w)((from, b)) else 0
  {
  }

  lemma PassFits(routes: Routes, from: Account, w: int)
    requires RoutesOk(routes) && RoutesFit(routes) && 0 <= w
    ensures Sum(PassOf(routes, from, true), ShareAt(routes, w)) <= w
  {
    hide Sum;
    SharesWithin(routes, w, from);
    PassesSplitShares(routes, from, w);
    SharesOfPass(routes, w, from, false);
  }

  /** The vests after a payment, seen from both sides. */
  lemma SameAfterPayment(was: map<Account, Stake>, now: map<Account, Stake>, vests: map<Account, int>, a: Account,
                         w: int,
                         deposits: seq<(Account, int)>, routes: Routes)
    requires now.Keys == was.Keys && a in was && V.DepositsSound(SharesOf(was), deposits)
    requires forall b :: b in now ==> now[b].vests == was[b].vests + DepositTo(routes, a, w, b) - if b == a then w else 0
    requires forall b :: ToOf(deposits, b) == DepositTo(routes, a, w, b)
    requires var paid := V.Credit(SharesOf(was), deposits); vests == paid[a := paid[a] - w]
    ensures vests == SharesOf(now)
  {
    hide DepositTo, V.Credit, ToOf;
    forall b | b in was ensures vests[b] == now[b].vests {
      CreditAt(SharesOf(was), deposits, b);
    }
  }

  // ----- the pass -----

  ghost predicate SameStake(stakes: Stakes, tally: V.Tally)
    reads stakes, stakes.db, tally
  {
    tally.vests == SharesOf(stakes.db.stakes)
  }

  /** The books a power-down moves. */
  datatype Books = Books(plans: map<Account, Plan>, stakes: map<Account, Stake>, purses: map<Account, Purse>, props: Props)

  ghost function BooksOf(stakes: Stakes): Books
    reads stakes, stakes.db
  {
    Books(stakes.plans, stakes.db.stakes, stakes.db.purses, stakes.db.props)
  }

  ghost function PoolIn(b: Books): Pool
  {
    Pool(b.purses, b.props.vestingFund, b.props.vestingShares)
  }

  /** One instalment took the books from one state to the other. */
  ghost predicate InstalmentMade(routes: Routes, x: Payment, was: Books, now: Books, time: int)
  {
    && x.owner in was.plans && x.owner in now.plans && now.plans == was.plans[x.owner := now.plans[x.owner]]
    && InstalmentPaid(was.plans[x.owner], now.plans[x.owner], time) && PaymentOk(routes, x)
    && x.amount == NextPay(was.plans[x.owner])
    && now.plans[x.owner].withdrawn == was.plans[x.owner].withdrawn + x.amount
    && PoolIn(now) == PoolPaid(PoolIn(was), routes, x.owner, x.amount, x.order)
    && now.props == was.props.(vestingFund := now.props.vestingFund, vestingShares := now.props.vestingShares)
    && now.stakes.Keys == was.stakes.Keys
    && forall b :: b in now.stakes ==> now.stakes[b] == was.stakes[b].(vests :=
         was.stakes[b].vests + DepositTo(routes, x.owner, x.amount, b) - if b == x.owner then x.amount else 0)
  }

  /** The deposits of an instalment, made one after the other before it is deducted, lift a witness above all shares. */
  ghost predicate Trips(proxy: Proxies.ProxyMap, ballots: map<Account, set<Witness>>, routes: Routes,
                        stakes: map<Account, Stake>, owner: Account, amount: int)
  {
    exists deposits ::
      && V.DepositsSound(SharesOf(stakes), deposits)
      && (forall b :: ToOf(deposits, b) == DepositTo(routes, owner, amount, b))
      && !V.DepositsFit(SharesOf(stakes), proxy, ballots, Proxies.Total(SharesOf(stakes)), deposits)
  }

  /** Somewhere in the pass an instalment trips the vote-overflow assertion. */
  ghost predicate PassTrips(proxy: Proxies.ProxyMap, ballots: map<Account, set<Witness>>, routes: Routes, was: Books,
                            time: int)
  {
    exists paid, mid, due, a ::
      PassAt(routes, paid, was, mid, due, time) && a in due && a in mid.plans && Trips(proxy, ballots, routes, mid.stakes, a, NextPay(mid.plans[a]))
  }

  /** One instalment with the votes behind it; `tripped` when a deposit fails the vote-overflow assertion. */
  method PayWithVotes(stakes: Stakes, tally: V.Tally, a: Account) returns (ok: bool, tripped: bool, ghost x: Payment)
    requires stakes.Valid() && tally.Valid() && SameStake(stakes, tally) && a in stakes.plans && stakes.plans[a].next <= stakes.db.now
    modifies stakes`plans, stakes.db`stakes, stakes.db`purses, stakes.db`props, tally`vests, tally`total, tally`proxied,
      tally`witnesses
    ensures old(stakes.plans)[a].rate != 0 && (ok || tripped <==> Payable(old(stakes.plans)[a])) && !(ok && tripped)
    ensures ok ==>
      && stakes.Valid() && tally.Valid() && SameStake(stakes, tally)
      && tally.witnesses.Keys == old(tally.witnesses).Keys
      && Witnesses.SameProgress(old(tally.witnesses), tally.witnesses, tally.clock)
    ensures tripped ==>
      Trips(tally.proxy, tally.ballots, stakes.routes, old(stakes.db.stakes), a, NextPay(old(stakes.plans)[a]))
    ensures ok ==>
      && x.owner == a && InstalmentMade(stakes.routes, x, old(BooksOf(stakes)), BooksOf(stakes), stakes.db.now)
    ensures ok ==> a in stakes.plans && Pending(stakes.plans[a]) < Pending(old(stakes.plans)[a])
  {
    hide Stakes.Valid, V.Tally.Valid, Payable, InstalmentPaid, Pending, PaymentOk, PoolPaid, DepositTo, V.DepositsFit,
      V.Credit, V.Paid, ToOf, Witnesses.SameProgress;
    ghost var was := stakes.db.stakes;
    RoutesSound(stakes);
    var w := NextPay(stakes.plans[a]);
    NextPayFits(stakes, a);
    ghost var order;
    ok, order := stakes.PayInstalment(a);
    x := Payment(a, w, order);
    tripped := false;
    assert ok ==> stakes.plans == old(stakes.plans)[a := stakes.plans[a]];
    if ok {
      var deposits := DepositsOf(stakes.routes, a, w);
      DepositsKnown(stakes.routes, was, a, deposits);
      ok := tally.WithdrawStake(a, deposits, w);
      tripped := !ok;
      V.TotalIs(tally);
      if ok {
        SameAfterPayment(was, stakes.db.stakes, tally.vests, a, w, deposits, stakes.routes);
      }
    }
  }

  /** The pass as far as it has got: what was paid, and to whom it is still to come. */
  ghost predicate PassAt(routes: Routes, paid: seq<Payment>, was: Books, now: Books, due: set<Account>, time: int)
  {
    && now.plans.Keys == was.plans.Keys && due <= Due(now.plans, time) && due <= Due(was.plans, time)
    && (forall a :: a in was.plans ==> now.plans[a] == was.plans[a] || (was.plans[a].next <= time && InstalmentPaid(was.plans[a], now.plans[a], time)))
    && (forall a :: a in was.plans && was.plans[a].next <= time && a !in due ==>
          InstalmentPaid(was.plans[a], now.plans[a], time) && was.plans[a].rate != 0 && Payable(was.plans[a]))
    && (forall a :: a in was.plans ==> now.plans[a].withdrawn == was.plans[a].withdrawn + PaidBy(paid, a))
    && PoweredDown(routes, paid, PoolIn(was), PoolIn(now), was.stakes, now.stakes)
    && now.props == was.props.(vestingFund := now.props.vestingFund, vestingShares := now.props.vestingShares)
  }

  lemma PassBegins(routes: Routes, books: Books, time: int)
    ensures PassAt(routes, [], books, books, Due(books.plans, time), time)
  {
    NoInstalment(routes, PoolIn(books), books.stakes);
  }

  lemma PassGoesOn(routes: Routes, paid: seq<Payment>, x: Payment, was: Books, mid: Books, now: Books,
                   due: set<Account>, time: int, again: bool)
    requires PassAt(routes, paid, was, mid, due, time) && x.owner in due && InstalmentMade(routes, x, mid, now, time)
    requires x.owner in was.plans && Steady(was.plans[x.owner]) && was.plans[x.owner].rate != 0
    requires x.owner in mid.plans && mid.plans[x.owner].rate != 0 && Payable(mid.plans[x.owner])
    requires again ==> x.owner in now.plans && now.plans[x.owner].next <= time
    ensures PassAt(routes, paid + [x], was, now, if again then due else due - {x.owner}, time)
  {
    hide InstalmentPaid, Payable, PoweredDown, PaidBy, PaymentOk, PoolPaid, DepositTo, NextPay, Steady;
    var a := x.owner;
    StillPayable(was.plans[a], mid.plans[a], time);
    PaidTwice(was.plans[a], mid.plans[a], now.plans[a], time);
    OneMoreInstalment(routes, paid, x, PoolIn(was), PoolIn(mid), PoolIn(now), was.stakes, mid.stakes, now.stakes);
  }

  lemma PassIsPayable(routes: Routes, paid: seq<Payment>, was: Books, now: Books, time: int)
    requires PassAt(routes, paid, was, now, {}, time)
    ensures AllPayable(was.plans, time)
  {
    hide Payable, InstalmentPaid, PoweredDown, PaidBy;
  }

  /** One negative instalment stops the pass. */
  lemma PassIsStopped(routes: Routes, paid: seq<Payment>, was: Books, mid: Books, due: set<Account>, time: int,
                      a: Account)
    requires PassAt(routes, paid, was, mid, due, time) && a in due && a in mid.plans && mid.plans[a].rate != 0 && !Payable(mid.plans[a])
    requires a in was.plans && Steady(was.plans[a]) && was.plans[a].rate != 0
    ensures !AllPayable(was.plans, time)
  {
    hide Payable, InstalmentPaid, PoweredDown, PaidBy, Steady;
    StillPayable(was.plans[a], mid.plans[a], time);
  }

  lemma RoutesSound(stakes: Stakes)
    requires stakes.Valid()
    ensures RoutesOk(stakes.routes) && RoutesFit(stakes.routes) && Reaches(stakes.routes, stakes.db.accounts)
    ensures stakes.db.stakes.Keys == stakes.plans.Keys == stakes.db.accounts
  {
  }

  lemma NextPayFits(stakes: Stakes, a: Account)
    requires stakes.Valid() && a in stakes.plans && stakes.plans[a].next <= stakes.db.now
    ensures a in stakes.db.stakes && stakes.plans[a].rate != 0
    ensures Payable(stakes.plans[a]) ==> 0 <= NextPay(stakes.plans[a]) <= stakes.db.stakes[a].vests
  {
    StakeIsCovered(stakes.db, a);
    DueIsActive(stakes.plans[a], stakes.db.now);
    InstalmentIs(stakes.plans[a], stakes.db.stakes[a].vests);
  }

  lemma DepositsKnown(routes: Routes, was: map<Account, Stake>, a: Account, deposits: seq<(Account, int)>)
    requires Reaches(routes, was.Keys) && forall i :: 0 <= i < |deposits| ==> (a, deposits[i].0) in routes && 0 <= deposits[i].1
    ensures V.DepositsSound(SharesOf(was), deposits)
  {
  }

  /**
   process_vesting_withdrawals: every due account gets at least one instalment; an account still due
   afterwards may be met again when the walk has not passed its new place yet. Unless a deposit trips
   the vote-overflow assertion the pass fails exactly when some due plan has a negative instalment.
   */
  method ProcessWithdrawals(stakes: Stakes, tally: V.Tally) returns (ok: bool, tripped: bool, ghost paid: seq<Payment>)
    requires stakes.Valid() && tally.Valid() && SameStake(stakes, tally)
    modifies stakes`plans, stakes.db`stakes, stakes.db`purses, stakes.db`props, tally`vests, tally`total, tally`proxied,
      tally`witnesses
    ensures !tripped ==> (ok <==> AllPayable(old(stakes.plans), stakes.db.now))
    ensures tripped ==> !ok && PassTrips(tally.proxy, tally.ballots, stakes.routes, old(BooksOf(stakes)), stakes.db.now)
    ensures ok ==>
      && stakes.Valid() && tally.Valid() && SameStake(stakes, tally)
      && tally.witnesses.Keys == old(tally.witnesses).Keys
      && Witnesses.SameProgress(old(tally.witnesses), tally.witnesses, tally.clock)
    ensures ok ==> PassAt(stakes.routes, paid, old(BooksOf(stakes)), BooksOf(stakes), {}, stakes.db.now)
  {
    hide Stakes.Valid, V.Tally.Valid, SameStake, InstalmentMade, PassAt, Payable, Pending, Outstanding, AllPayable, NextPay, Steady, InstalmentPaid,
      Witnesses.SameProgress, Trips;
    var due := set a | a in stakes.plans && stakes.plans[a].next <= stakes.db.now;
    assert due == Due(stakes.plans, stakes.db.now);
    stakes.PlansSteady();
    tripped, paid := false, [];
    PassBegins(stakes.routes, BooksOf(stakes), stakes.db.now);
    Witnesses.ProgressSame(tally.witnesses, tally.clock);
    ghost var was, now := BooksOf(stakes), stakes.db.now;
    while due != {}
      invariant stakes.Valid() && tally.Valid() && SameStake(stakes, tally) && stakes.db.now == now && !tripped
      invariant tally.witnesses.Keys == old(tally.witnesses).Keys && Witnesses.SameProgress(old(tally.witnesses), tally.witnesses, tally.clock)
      invariant PassAt(stakes.routes, paid, was, BooksOf(stakes), due, now)
      decreases Outstanding(stakes.plans)
    {
      var a := Pick(due);
      ghost var before, witnesses, x := BooksOf(stakes), tally.witnesses, Payment(a, 0, []);
      stakes.OutstandingNonNegative();
      stakes.PlansSteady();
      DueInBoth(stakes.routes, paid, was, before, due, now, a);
      ok, tripped, x := PayWithVotes(stakes, tally, a);
      if !ok {
        if tripped {
          assert PassTrips(tally.proxy, tally.ballots, stakes.routes, was, now);
        } else {
          PassIsStopped(stakes.routes, paid, was, before, due, now, a);
        }
        return;
      }
      stakes.OutstandingNonNegative();
      MadeOne(stakes.routes, x, before, BooksOf(stakes), now);
      OutstandingFalls(before.plans, stakes.plans, a);
      Witnesses.ProgressKept(old(tally.witnesses), witnesses, tally.witnesses, tally.clock);
      var again := false;
      if stakes.plans[a].next <= stakes.db.now {
        if * {
          again := true;
        }
      }
      PassGoesOn(stakes.routes, paid, x, was, before, BooksOf(stakes), due, now, again);
      paid := paid + [x];
      if !again {
        due := due - {a};
      }
    }
    PassIsPayable(stakes.routes, paid, was, BooksOf(stakes), now);
    ok := true;
  }

  lemma DueInBoth(routes: Routes, paid: seq<Payment>, was: Books, now: Books, due: set<Account>, time: int, a: Account)
    requires PassAt(routes, paid, was, now, due, time) && a in due
    ensures a in was.plans && a in now.plans && was.plans[a].next <= time && now.plans[a].next <= time
  {
  }

  lemma MadeOne(routes: Routes, x: Payment, was: Books, now: Books, time: int)
    requires InstalmentMade(routes, x, was, now, time)
    ensures x.owner in was.plans && x.owner in now.plans && now.plans.Keys == was.plans.Keys
    ensures forall b :: b in now.plans && b != x.owner ==> now.plans[b] == was.plans[b]
  {
  }

  /** The tally at genesis: four accounts without shares, and the first miner as the only witness. */
  method GenesisTally() returns (tally: V.Tally)
    ensures fresh(tally) && tally.Valid() && tally.vests == SharesOf(GenesisStakes()) && tally.declined == {}
  {
    hide V.Tally.Valid;
    tally := new V.Tally();
    tally.CreateAccount(MINER_ACCOUNT);
    tally.CreateAccount(NULL_ACCOUNT);
    tally.CreateAccount(TEMP_ACCOUNT);
    tally.CreateAccount(INIT_MINER);
    tally.CreateWitness(INIT_MINER, true);
    assert tally.vests == SharesOf(GenesisStakes());
  }
}
