/** Power-down, withdraw routes and vesting delegations over the ledger. */
module PowerDown {
  import opened Basics
  import opened Sums
  import opened Assets
  import opened Ledger
  import opened PowerPlans

  // ----- paying one instalment -----

  /** The routes one of the two passes looks at. */
  function PassOf(routes: Routes, a: Account, autoVest: bool): set<(Account, Account)>
  {
    set k | k in RoutesOf(routes, a) && routes[k].autoVest == autoVest
  }

  lemma PassesSplitShares(routes: Routes, a: Account, w: int)
    ensures Sum(PassOf(routes, a, true), ShareAt(routes, w)) + Sum(PassOf(routes, a, false), ShareAt(routes, w))
         == Sum(RoutesOf(routes, a), ShareAt(routes, w))
  {
    SumDisjoint(PassOf(routes, a, true), PassOf(routes, a, false), ShareAt(routes, w));
    assert PassOf(routes, a, true) + PassOf(routes, a, false) == RoutesOf(routes, a);
  }

  /** Shares account b gets from an instalment of w. */
  ghost function DepositTo(routes: Routes, from: Account, w: int, b: Account): int
  {
    if (from, b) in PassOf(routes, from, true) then Share(w, routes[(from, b)].percent) else 0
  }

  ghost predicate Reaches(routes: Routes, accounts: set<Account>)
  {
    forall k :: k in routes ==> k.0 in accounts && k.1 in accounts
  }

  /** First pass: routes that keep their share as vesting shares. */
  method DepositShares(db: Database, routes: Routes, from: Account, w: int) returns (total: int)
    requires RoutesOk(routes) && 0 <= w && Reaches(routes, db.stakes.Keys)
    modifies db`stakes
    ensures total == Sum(PassOf(routes, from, true), ShareAt(routes, w))
    ensures StakeVests(db.stakes) == StakeVests(old(db.stakes)) + total
    ensures StakeRewardVests(db.stakes) == StakeRewardVests(old(db.stakes)) && StakeRewardSteem(db.stakes) == StakeRewardSteem(old(db.stakes))
    ensures db.stakes.Keys == old(db.stakes).Keys && (StakesOk(old(db.stakes)) ==> StakesOk(db.stakes))
    ensures forall b :: b in db.stakes ==> db.stakes[b] == old(db.stakes)[b].(vests := old(db.stakes)[b].vests + DepositTo(routes, from, w, b))
  {
    hide SumMap, MulDiv, Sum, RoutesOk, StakesOk, Deposited, DepositTo, Share;
    total := 0;
    ghost var all := PassOf(routes, from, true);
    var left := PassOf(routes, from, true);
    NothingDone(all, ShareAt(routes, w));
    NothingDeposited(db.stakes, routes, w, from, all - left);
    while left != {}
      invariant
        && left <= all && db.stakes.Keys == old(db.stakes).Keys && (StakesOk(old(db.stakes)) ==> StakesOk(db.stakes))
      invariant total == Sum(all - left, ShareAt(routes, w))
      invariant StakeVests(db.stakes) == StakeVests(old(db.stakes)) + total
      invariant StakeRewardVests(db.stakes) == StakeRewardVests(old(db.stakes)) && StakeRewardSteem(db.stakes) == StakeRewardSteem(old(db.stakes))
      invariant Deposited(old(db.stakes), db.stakes, routes, w, from, all - left)
      decreases |left|
    {
      var k := Pick(left);
      SumOneMore(all, left, k, ShareAt(routes, w));
      assert all - (left - {k}) == all - left + {k};
      var deposit := DepositOne(db, routes, w, from, k, old(db.stakes), all - left, all - (left - {k}));
      total := total + deposit;
      left := left - {k};
    }
    assert all - left == all;
    DepositedAll(old(db.stakes), db.stakes, routes, w, from);
  }

  /** One route's share, if it is not zero. */
  method DepositOne(db: Database, routes: Routes, w: int, from: Account, k: (Account, Account),
                    ghost was: map<Account, Stake>, ghost done: set<(Account, Account)>, ghost more: set<(Account, Account)>) returns (deposit: int)
    requires RoutesOk(routes) && 0 <= w && k in routes && k.0 == from && k.1 in db.stakes
    requires Deposited(was, db.stakes, routes, w, from, done) && k !in done && more == done + {k}
    modifies db`stakes
    ensures deposit == Share(w, routes[k].percent) && Deposited(was, db.stakes, routes, w, from, more) && db.stakes.Keys == old(db.stakes).Keys
    ensures StakeVests(db.stakes) == StakeVests(old(db.stakes)) + deposit && (StakesOk(old(db.stakes)) ==> StakesOk(db.stakes))
    ensures StakeRewardVests(db.stakes) == StakeRewardVests(old(db.stakes)) && StakeRewardSteem(db.stakes) == StakeRewardSteem(old(db.stakes))
  {
    hide SumMap, Deposited, Share, RoutesOk;
    ShareNonNegative(routes, w, k);
    DepositedMore(was, db.stakes, routes, w, from, done, k, more);
    deposit := Share(w, routes[k].percent);
    if 0 < deposit {
      var s := db.stakes[k.1];
      db.Restake(k.1, s.(vests := s.vests + deposit));
    }
  }

  /** Every account has its share added once its route's turn has come. */
  ghost predicate Deposited(was: map<Account, Stake>, now: map<Account, Stake>, routes: Routes, w: int, from: Account,
                            done: set<(Account, Account)>)
  {
    now.Keys == was.Keys && forall b :: b in was ==> now[b] == Given(was[b], routes, w, (from, b), done)
  }

  lemma NothingDeposited(m: map<Account, Stake>, routes: Routes, w: int, from: Account, done: set<(Account, Account)>)
    requires done == {}
    ensures Deposited(m, m, routes, w, from, done)
  {
  }

  lemma DepositedMore(was: map<Account, Stake>, now: map<Account, Stake>, routes: Routes, w: int, from: Account,
                      done: set<(Account, Account)>, k: (Account, Account), more: set<(Account, Account)>)
    requires Deposited(was, now, routes, w, from, done) && k !in done && k in routes && k.0 == from && k.1 in now && more == done + {k}
    ensures var share := Share(w, routes[k].percent);
      if share == 0 then Deposited(was, now, routes, w, from, more)
      else Deposited(was, now[k.1 := now[k.1].(vests := now[k.1].vests + share)], routes, w, from, more)
  {
    hide Share;
  }

  lemma DepositedAll(was: map<Account, Stake>, now: map<Account, Stake>, routes: Routes, w: int, from: Account)
    requires Deposited(was, now, routes, w, from, PassOf(routes, from, true))
    ensures forall b :: b in now ==> b in was && now[b] == was[b].(vests := was[b].vests + DepositTo(routes, from, w, b))
  {
  }

  lemma ShareNonNegative(routes: Routes, w: int, k: (Account, Account))
    requires RoutesOk(routes) && 0 <= w && k in routes
    ensures 0 <= Share(w, routes[k].percent)
  {
    assert RouteOk(routes[k]);
    MulDivBounds(w, routes[k].percent, HUNDRED_PERCENT);
  }

  /** A stake with its share added, once the route's turn has come. */
  ghost function Given(s: Stake, routes: Routes, w: int, k: (Account, Account), done: set<(Account, Account)>): Stake
  {
    if k in done && k in routes then s.(vests := s.vests + Share(w, routes[k].percent)) else s
  }

  /** Purses and vesting pool, as conversions move them. */
  datatype Pool = Pool(purses: map<Account, Purse>, fund: int, shares: int)

  ghost function PoolOf(db: Database): Pool
    reads db
  {
    Pool(db.purses, db.props.vestingFund, db.props.vestingShares)
  }

  /** Shares of the pool turned into STEEM for one account at the price before, rounded down. */
  ghost function Converted(p: Pool, b: Account, shares: int): Pool
  {
    var steem := Worth(p, shares);
    if b !in p.purses then p else
    Pool(p.purses[b := p.purses[b].(steem := p.purses[b].steem + steem)], p.fund - steem, p.shares - shares)
  }

  ghost function Worth(p: Pool, shares: int): int
  {
    if p.fund == 0 || p.shares <= 0 then MulDiv(shares, 1000, 1000000) else MulDiv(shares, p.fund, p.shares)
  }

  /** The routes in their turn, each converting its share for its target. */
  ghost function RoutesConverted(p: Pool, routes: Routes, w: int, order: seq<(Account, Account)>): Pool
  {
    if order == [] then p else
    var k, before := order[|order| - 1], RoutesConverted(p, routes, w, order[..|order| - 1]);
    if k in routes && 0 < Share(w, routes[k].percent) then Converted(before, k.1, Share(w, routes[k].percent)) else before
  }

  /** A sequence that runs through a set once. */
  ghost predicate RunsThrough<T(!new)>(order: seq<T>, s: set<T>)
  {
    (forall x :: x in order <==> x in s) && forall i, j :: 0 <= i < j < |order| ==> order[i] != order[j]
  }

  lemma OneMoreRoute(p: Pool, routes: Routes, w: int, order: seq<(Account, Account)>, k: (Account, Account),
                     all: set<(Account, Account)>,
                     left: set<(Account, Account)>)
    requires k in left && left <= all && RunsThrough(order, all - left) && k in routes
    ensures RunsThrough(order + [k], all - (left - {k}))
    ensures var before := RoutesConverted(p, routes, w, order);
      RoutesConverted(p, routes, w, order + [k]) == if 0 < Share(w, routes[k].percent) then Converted(before, k.1, Share(w, routes[k].percent)) else before
  {
    hide Share, Converted;
    assert (order + [k])[..|order|] == order;
    forall x ensures x in order + [k] <==> x in all - (left - {k}) {
      if x != k {
        assert x in order <==> x in all - left;
      }
    }
  }

  /** Second pass: the other routes convert their share at a price that moves with every conversion. */
  method ConvertRoutes(db: Database, routes: Routes, from: Account, w: int)
    returns (total: int, ghost order: seq<(Account, Account)>)
    requires RoutesOk(routes) && 0 <= w && Reaches(routes, db.purses.Keys) && PursesOk(db.purses) && PropsOk(db.props)
    requires Sum(PassOf(routes, from, false), ShareAt(routes, w)) <= db.props.vestingShares
    modifies db`purses, db`props
    ensures total == Sum(PassOf(routes, from, false), ShareAt(routes, w))
    ensures db.props == old(db.props).(vestingShares := old(db.props).vestingShares - total, vestingFund := db.props.vestingFund) && PropsOk(db.props)
    ensures PurseSteem(db.purses) + db.props.vestingFund == PurseSteem(old(db.purses)) + old(db.props).vestingFund
    ensures PurseSbd(db.purses) == PurseSbd(old(db.purses)) && PursesOk(db.purses)
    ensures RunsThrough(order, PassOf(routes, from, false)) && PoolOf(db) == RoutesConverted(old(PoolOf(db)), routes, w, order)
    ensures db.purses.Keys == old(db.purses).Keys
  {
    hide SumMap, MulDiv, Sum, RoutesOk, PropsOk, PursesOk, RunsThrough, RoutesConverted;
    total, order := 0, [];
    ghost var all := PassOf(routes, from, false);
    var left := PassOf(routes, from, false);
    NothingDone(all, ShareAt(routes, w));
    NoRoutes(PoolOf(db), routes, w, all);
    while left != {}
      invariant left <= all && total == Sum(all - left, ShareAt(routes, w)) && db.purses.Keys == old(db.purses).Keys
      invariant db.props == old(db.props).(vestingShares := old(db.props).vestingShares - total, vestingFund := db.props.vestingFund) && PropsOk(db.props)
      invariant PurseSteem(db.purses) + db.props.vestingFund == PurseSteem(old(db.purses)) + old(db.props).vestingFund
      invariant PurseSbd(db.purses) == PurseSbd(old(db.purses)) && PursesOk(db.purses)
      invariant RunsThrough(order, all - left) && PoolOf(db) == RoutesConverted(old(PoolOf(db)), routes, w, order)
      decreases |left|
    {
      var k := Pick(left);
      SumOneMore(all, left, k, ShareAt(routes, w));
      PartWithinWhole(routes, w, all, all - (left - {k}));
      ShareNonNegative(routes, w, k);
      OneMoreRoute(old(PoolOf(db)), routes, w, order, k, all, left);
      var deposit := Share(w, routes[k].percent);
      total := total + deposit;
      if 0 < deposit {
        ConvertFor(db, k.1, deposit);
      }
      order := order + [k];
      left := left - {k};
    }
    assert all - left == all;
  }

  lemma NoRoutes(p: Pool, routes: Routes, w: int, all: set<(Account, Account)>)
    ensures RunsThrough([], all - all) && RoutesConverted(p, routes, w, []) == p
  {
  }

  /** Shares converted at the current price and credited to an account. */
  method ConvertFor(db: Database, b: Account, shares: int)
    requires b in db.purses && PropsOk(db.props) && PursesOk(db.purses)
    requires 0 <= shares <= db.props.vestingShares
    modifies db`purses, db`props
    ensures db.props == old(db.props).(vestingShares := old(db.props).vestingShares - shares, vestingFund := db.props.vestingFund) && PropsOk(db.props)
    ensures PurseSteem(db.purses) + db.props.vestingFund == PurseSteem(old(db.purses)) + old(db.props).vestingFund
    ensures PurseSbd(db.purses) == PurseSbd(old(db.purses)) && PursesOk(db.purses)
    ensures PoolOf(db) == Converted(old(PoolOf(db)), b, shares) && db.purses.Keys == old(db.purses).Keys
  {
    hide SumMap, SteemFor, Worth;
    SteemForCovered(shares, db.props);
    WorthIs(PoolOf(db), db.props, shares);
    var converted := SteemFor(shares, db.props);
    var p := db.purses[b];
    db.Refill(b, p.(steem := p.steem + converted));
    db.props := db.props.(vestingFund := db.props.vestingFund - converted,
                          vestingShares := db.props.vestingShares - shares);
  }

  lemma WorthIs(p: Pool, props: Props, shares: int)
    requires p.fund == props.vestingFund && p.shares == props.vestingShares
    ensures Worth(p, shares) == SteemFor(shares, props)
  {
  }

  lemma PartWithinWhole(routes: Routes, w: int, all: set<(Account, Account)>, part: set<(Account, Account)>)
    requires RoutesOk(routes) && 0 <= w && part <= all <= routes.Keys
    ensures Sum(part, ShareAt(routes, w)) <= Sum(all, ShareAt(routes, w))
  {
    SumDisjoint(part, all - part, ShareAt(routes, w));
    assert part + (all - part) == all;
    SharesFit(routes, w, all - part);
  }

  /**
   One instalment of w shares: routed shares go to their accounts as shares or as STEEM, the rest is
   converted for the owner. Exactly w shares leave the owner and every converted share leaves the fund.
   */
  method PayOut(db: Database, routes: Routes, from: Account, w: int) returns (ghost order: seq<(Account, Account)>)
    requires db.Valid() && RoutesOk(routes) && RoutesFit(routes) && Reaches(routes, db.accounts)
    requires from in db.accounts && 0 <= w <= db.stakes[from].vests
    modifies db`stakes, db`purses, db`props
    ensures db.Valid() && db.stakes.Keys == old(db.stakes).Keys
    ensures forall b :: b in db.stakes ==> db.stakes[b] == old(db.stakes)[b].(vests :=
      old(db.stakes)[b].vests + DepositTo(routes, from, w, b) - if b == from then w else 0)
    ensures db.props.vestingShares == old(db.props).vestingShares - w + Sum(PassOf(routes, from, true), ShareAt(routes, w))
    ensures RunsThrough(order, PassOf(routes, from, false)) && PoolOf(db) == PoolPaid(old(PoolOf(db)), routes, from, w, order)
    ensures db.props == old(db.props).(vestingFund := db.props.vestingFund, vestingShares := db.props.vestingShares)
  {
    hide SumMap, Sum, MulDiv, SteemFor, RoutesFit, RoutesOk, RoutesOf, PursesOk, OrdersOk, OrdersLinked,
      EscrowsOk, EscrowsLinked, WithdrawalsOk, WithdrawalsLinked, ConversionsOk, ConversionsLinked, StakesOk, PassOf, RunsThrough, PoolPaid;
    SharesWithin(routes, w, from);
    PassesSplitShares(routes, from, w);
    SharesOfPass(routes, w, from, true);
    SharesOfPass(routes, w, from, false);
    OneStakeWithinTotal(db.stakes, from);
    var asShares := DepositShares(db, routes, from, w);
    order := ConvertRest(db, routes, from, w, asShares);
    var s := db.stakes[from];
    StakeAt(db.stakes, from);
    db.Restake(from, s.(vests := s.vests - w));
  }

  /** The pool after an instalment: the converting routes in their turn, then the owner for all that no route took. */
  ghost function PoolPaid(p: Pool, routes: Routes, from: Account, w: int, order: seq<(Account, Account)>): Pool
  {
    Converted(RoutesConverted(p, routes, w, order), from, w - Sum(RoutesOf(routes, from), ShareAt(routes, w)))
  }

  /**
   Everything not deposited as shares is converted: first for the routes, then, never a negative
   rest, for the owner.
   */
  method ConvertRest(db: Database, routes: Routes, from: Account, w: int, asShares: int)
    returns (ghost order: seq<(Account, Account)>)
    requires RoutesOk(routes) && 0 <= w && Reaches(routes, db.purses.Keys) && from in db.purses && PursesOk(db.purses) && PropsOk(db.props)
    requires 0 <= Sum(PassOf(routes, from, false), ShareAt(routes, w)) <= w - asShares <= db.props.vestingShares
    requires asShares == Sum(PassOf(routes, from, true), ShareAt(routes, w))
    modifies db`purses, db`props
    ensures db.props == old(db.props).(vestingShares := old(db.props).vestingShares - (w - asShares), vestingFund := db.props.vestingFund) && PropsOk(db.props)
    ensures PurseSteem(db.purses) + db.props.vestingFund == PurseSteem(old(db.purses)) + old(db.props).vestingFund
    ensures PurseSbd(db.purses) == PurseSbd(old(db.purses)) && PursesOk(db.purses) && db.purses.Keys == old(db.purses).Keys
    ensures RunsThrough(order, PassOf(routes, from, false)) && PoolOf(db) == PoolPaid(old(PoolOf(db)), routes, from, w, order)
  {
    hide SumMap, Sum, MulDiv, SteemFor, RoutesOk, PursesOk, PropsOk, PassOf, RunsThrough, RoutesConverted, Converted;
    PassesSplitShares(routes, from, w);
    var asSteem;
    asSteem, order := ConvertRoutes(db, routes, from, w);
    ConvertFor(db, from, w - asShares - asSteem);
  }

  lemma SharesOfPass(routes: Routes, w: int, from: Account, autoVest: bool)
    requires 0 <= w && RoutesOk(routes)
    ensures 0 <= Sum(PassOf(routes, from, autoVest), ShareAt(routes, w))
    ensures forall b :: 0 <= DepositTo(routes, from, w, b)
  {
    SharesFit(routes, w, PassOf(routes, from, autoVest));
    forall b ensures 0 <= DepositTo(routes, from, w, b) {
      if (from, b) in PassOf(routes, from, true) {
        ShareNonNegative(routes, w, (from, b));
      }
    }
  }

  // ----- many instalments -----

  /** One instalment, with the order its converting routes had their turn in. */
  datatype Payment = Payment(owner: Account, amount: int, order: seq<(Account, Account)>)

  ghost predicate PaymentOk(routes: Routes, x: Payment)
  {
    0 <= x.amount && RunsThrough(x.order, PassOf(routes, x.owner, false))
  }

  ghost function PoolAfter(p: Pool, routes: Routes, paid: seq<Payment>): Pool
  {
    if paid == [] then p else
    var x := paid[|paid| - 1];
    PoolPaid(PoolAfter(p, routes, paid[..|paid| - 1]), routes, x.owner, x.amount, x.order)
  }

  /** The shares an account has gained by deposits and lost by its own instalments. */
  ghost function SharesMoved(routes: Routes, paid: seq<Payment>, b: Account): int
  {
    if paid == [] then 0 else
    var x := paid[|paid| - 1];
    SharesMoved(routes, paid[..|paid| - 1], b) + DepositTo(routes, x.owner, x.amount, b) - if b == x.owner then x.amount else 0
  }

  ghost function PaidBy(paid: seq<Payment>, a: Account): int
  {
    if paid == [] then 0 else PaidBy(paid[..|paid| - 1], a) + if paid[|paid| - 1].owner == a then paid[|paid| - 1].amount else 0
  }

  /** The instalments took the books from one state to the other: pool and purses, and everyone's shares. */
  ghost predicate PoweredDown(routes: Routes, paid: seq<Payment>, before: Pool, after: Pool, was: map<Account, Stake>,
                              now: map<Account, Stake>)
  {
    && (forall i :: 0 <= i < |paid| ==> PaymentOk(routes, paid[i])) && after == PoolAfter(before, routes, paid)
    && now.Keys == was.Keys
    && forall b :: b in was ==> now[b] == was[b].(vests := was[b].vests + SharesMoved(routes, paid, b))
  }

  lemma NoInstalment(routes: Routes, p: Pool, stakes: map<Account, Stake>)
    ensures PoweredDown(routes, [], p, p, stakes, stakes) && forall a :: PaidBy([], a) == 0
  {
  }

  lemma OneMoreInstalment(routes: Routes, paid: seq<Payment>, x: Payment, before: Pool, between: Pool, after: Pool,
                          was: map<Account, Stake>, mid: map<Account, Stake>, now: map<Account, Stake>)
    requires PoweredDown(routes, paid, before, between, was, mid) && PaymentOk(routes, x)
    requires after == PoolPaid(between, routes, x.owner, x.amount, x.order) && now.Keys == mid.Keys
    requires forall b :: b in mid ==> now[b] == mid[b].(vests :=
      mid[b].vests + DepositTo(routes, x.owner, x.amount, b) - if b == x.owner then x.amount else 0)
    ensures PoweredDown(routes, paid + [x], before, after, was, now)
    ensures forall a :: PaidBy(paid + [x], a) == PaidBy(paid, a) + if x.owner == a then x.amount else 0
  {
    hide PoolPaid, DepositTo, PaymentOk;
    assert (paid + [x])[..|paid|] == paid;
  }
}
