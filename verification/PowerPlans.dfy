/** Power-down plans, withdraw routes and vesting delegations, as values with the laws they obey. */
module PowerPlans {
  import opened Basics
  import opened Sums
  import opened Assets
  import opened Division
  import opened Ledger

  const WITHDRAW_INTERVALS: int := 13
  const WITHDRAW_INTERVAL_SECONDS: int := 60 * 60 * 24 * 7
  const MAX_WITHDRAW_ROUTES: int := 10

  /** The vesting fields of an account besides the shares themselves. */
  datatype Plan = Plan(toWithdraw: int, withdrawn: int, rate: int, next: int, delegated: int, received: int, routes: int)

  datatype Route = Route(percent: int, autoVest: bool)
  datatype Delegation = Delegation(delegator: Account, delegatee: Account, vests: int, minTime: int)
  datatype Expiration = Expiration(delegator: Account, vests: int, expiration: int)

  type Routes = map<(Account, Account), Route>
  type Delegations = map<(Account, Account), Delegation>
  type Expirations = map<int, Expiration>

  // ----- instalments -----

  /** Integer division and remainder as C++ does them: truncating toward zero. */
  function TruncDiv(a: int, b: int): int
    requires b != 0
  {
    if 0 <= a then a / b else -((-a) / b)
  }

  function TruncRem(a: int, b: int): int
    requires b != 0
  {
    a - TruncDiv(a, b) * b
  }

  /** The weekly rate withdraw_vesting sets for a request. */
  function RateFor(request: int): int
  {
    var rate := TruncDiv(request, WITHDRAW_INTERVALS);
    if rate == 0 then 1 else rate
  }

  /** A thirteenth of the request a week, rounded down, and at least one share. */
  lemma RateIsThirteenth(request: int)
    requires 0 < request
    ensures RateFor(request) == Max(request / WITHDRAW_INTERVALS, 1)
    ensures WITHDRAW_INTERVALS <= request ==>
      WITHDRAW_INTERVALS * RateFor(request) <= request < WITHDRAW_INTERVALS * (RateFor(request) + 1)
    ensures request < WITHDRAW_INTERVALS ==> RateFor(request) == 1
  {
  }

  /**
   A request of at least thirteen shares is never complete after twelve instalments. It is after the
   thirteenth exactly when it is a multiple of thirteen, and at the latest after the twenty-fifth, or
   the fourteenth if it is at least 13 * 12.
   */
  lemma ThirteenWeeks(request: int, n: int)
    requires WITHDRAW_INTERVALS <= request
    ensures request <= n * RateFor(request) ==> WITHDRAW_INTERVALS <= n
    ensures request <= WITHDRAW_INTERVALS * RateFor(request) <==> request % WITHDRAW_INTERVALS == 0
    ensures request <= 25 * RateFor(request)
    ensures 13 * 12 <= request ==> request <= 14 * RateFor(request)
  {
    RateIsThirteenth(request);
    var rate := RateFor(request);
    if request <= n * rate {
      CancelPositive(WITHDRAW_INTERVALS, n, rate);
    }
  }

  /** How many instalments of a plan first due at `next` have come due. */
  function WeeksDue(next: int, now: int): int
  {
    if now < next then 0 else (now - next) / WITHDRAW_INTERVAL_SECONDS + 1
  }

  lemma AtLeastOneWeek(next: int, now: int)
    requires next <= now
    ensures 1 <= WeeksDue(next, now)
  {
  }

  lemma OneWeek(next: int, now: int)
    requires now < next + WITHDRAW_INTERVAL_SECONDS
    ensures WeeksDue(next, now) == if next <= now then 1 else 0
  {
  }

  lemma MoreWeeks(next: int, before: int, now: int)
    requires before <= now
    ensures 0 <= WeeksDue(next, before) <= WeeksDue(next, now)
  {
  }

  lemma WeeksSince(start: int, now: int)
    requires start <= now
    ensures WeeksDue(start + WITHDRAW_INTERVAL_SECONDS, now) == (now - start) / WITHDRAW_INTERVAL_SECONDS
  {
  }

  lemma MoreIsEnough(request: int, rate: int, enough: int, n: int)
    requires 0 <= rate && request <= enough * rate
    ensures enough <= n ==> request <= n * rate
  {
    if enough <= n {
      assert enough * rate <= n * rate;
    }
  }

  /** The first date that has not come due. */
  lemma WeeksOf(next: int, now: int)
    ensures now < next + WeeksDue(next, now) * WITHDRAW_INTERVAL_SECONDS
  {
  }

  lemma WeeksGoOn(next: int, k: int, now: int)
    requires 0 <= k <= WeeksDue(next, now)
    ensures WeeksDue(next, now) == k + WeeksDue(next + k * WITHDRAW_INTERVAL_SECONDS, now)
  {
  }

  /** k instalments of the full rate took p to q. */
  ghost predicate PaidWeeks(p: Plan, q: Plan, k: int)
  {
    q.rate == p.rate && q.next == p.next + k * WITHDRAW_INTERVAL_SECONDS && q.withdrawn == p.withdrawn + k * p.rate
  }

  ghost function WeeksBetween(p: Plan, q: Plan): int
  {
    (q.next - p.next) / WITHDRAW_INTERVAL_SECONDS
  }

  /** What process_vesting_withdrawals takes out in one step. */
  function Instalment(p: Plan, vests: int): int
    requires p.rate != 0
  {
    if p.toWithdraw - p.withdrawn < p.rate then Min(vests, TruncRem(p.toWithdraw, p.rate)) else Min(vests, p.rate)
  }

  function Remaining(p: Plan): int { p.toWithdraw - p.withdrawn }

  /** The plan after an instalment of w that left `vests` shares. */
  function Advanced(p: Plan, w: int, vests: int): Plan
  {
    var q := p.(withdrawn := p.withdrawn + w);
    if q.withdrawn >= q.toWithdraw || vests == 0 then q.(rate := 0, next := NEVER) else q.(next := p.next + WITHDRAW_INTERVAL_SECONDS)
  }

  /**
   A plan is either finished, with everything requested paid out, or active, with whole instalments
   paid so far and something still to pay. The plan of a negative request has paid nothing.
   */
  ghost predicate Steady(p: Plan)
  {
    && 0 <= p.delegated && 0 <= p.received && (p.rate == 0 ==> p.next == NEVER)
    && if 0 <= p.toWithdraw
       then 0 <= p.withdrawn && 0 <= p.rate && if p.rate == 0 then p.withdrawn == p.toWithdraw else p.withdrawn < p.toWithdraw && p.withdrawn % p.rate == 0
       else p.withdrawn == 0 && (p.rate == 0 || p.rate == RateFor(p.toWithdraw))
  }

  /** The next instalment is not negative: no deposit assertion can fire. */
  predicate Payable(p: Plan)
    requires p.rate != 0
  {
    0 <= p.toWithdraw || TruncRem(p.toWithdraw, p.rate) == 0
  }

  /** What a payable plan pays next: the rate or the rest, and nothing for a negative request. */
  function NextPay(p: Plan): int
  {
    if 0 <= p.toWithdraw then Min(p.rate, Remaining(p)) else 0
  }

  /** The shares cover what is lent out and what is still to be withdrawn. */
  ghost predicate Reserved(p: Plan, vests: int)
  {
    p.delegated + Remaining(p) <= vests
  }

  /**
   Any request gives a steady plan; it is payable exactly when it is above minus thirteen or its
   rate leaves no remainder.
   */
  lemma RequestIsSteady(p: Plan, request: int, next: int)
    requires Steady(p) && request != 0
    ensures var q := p.(toWithdraw := request, withdrawn := 0, rate := RateFor(request), next := next);
      && Steady(q) && q.rate != 0
      && (Payable(q) <==> -WITHDRAW_INTERVALS < request || TruncRem(request, RateFor(request)) == 0)
  {
    if -WITHDRAW_INTERVALS < request < 0 {
      assert TruncDiv(request, 1) == request;
    }
  }

  /** An instalment of a covered plan is never cut short: the last one is whatever is left, the others the full rate. */
  lemma InstalmentIsExact(p: Plan, vests: int)
    requires Steady(p) && 0 <= p.toWithdraw && 0 < p.rate && Reserved(p, vests)
    ensures Instalment(p, vests) == NextPay(p) == Min(p.rate, Remaining(p))
    ensures 0 < Instalment(p, vests) <= Remaining(p) <= vests
  {
    var k := p.withdrawn / p.rate;
    assert p.withdrawn == k * p.rate;
    if Remaining(p) < p.rate {
      RemainderIs(p.toWithdraw, p.rate, k);
    }
  }

  lemma RemainderIs(a: int, b: int, k: int)
    requires 0 < b && 0 <= a && 0 <= a - k * b < b
    ensures TruncRem(a, b) == a - k * b
  {
    QuotientIs(a, b, k, a - k * b);
  }

  /** The instalment of a negative request is the remainder of its rate: nothing when payable, negative otherwise. */
  lemma NegativeInstalment(p: Plan, vests: int)
    requires Steady(p) && p.toWithdraw < 0 && p.rate != 0 && 0 <= vests
    ensures Instalment(p, vests) == TruncRem(p.toWithdraw, p.rate) <= 0
  {
    var r := p.toWithdraw;
    if r <= -WITHDRAW_INTERVALS {
      NegativeRemainder(r, p.rate);
      TwelveMore(r);
    } else {
      assert TruncDiv(r, 1) == r;
    }
  }

  lemma TwelveMore(request: int)
    requires request <= -WITHDRAW_INTERVALS
    ensures request < RateFor(request) < 0
  {
  }

  /** What is paid next by any plan that is due, and that it is never more than the shares. */
  lemma InstalmentIs(p: Plan, vests: int)
    requires Steady(p) && p.rate != 0 && Reserved(p, vests) && 0 <= vests
    ensures 0 <= Instalment(p, vests) <==> Payable(p)
    ensures Payable(p) ==> Instalment(p, vests) == NextPay(p) <= vests
    ensures 0 <= p.toWithdraw ==> 0 < NextPay(p)
  {
    if 0 <= p.toWithdraw {
      InstalmentIsExact(p, vests);
    } else {
      NegativeInstalment(p, vests);
    }
  }

  /** One payable step keeps a plan steady and covered; a plan without positive rest is finished by it. */
  lemma StepKeepsSteady(p: Plan, vests: int, left: int)
    requires Steady(p) && p.rate != 0 && Payable(p) && Reserved(p, vests) && 0 <= vests && vests - NextPay(p) <= left
    ensures var q := Advanced(p, NextPay(p), left);
      && Steady(q) && Reserved(q, left) && Remaining(q) == Remaining(p) - NextPay(p) && q.toWithdraw == p.toWithdraw
      && (p.toWithdraw < 0 ==> q.rate == 0)
  {
    InstalmentIs(p, vests);
    hide Instalment;
    if 0 <= p.toWithdraw && p.rate <= Remaining(p) {
      OneMoreMultiple(p.withdrawn, p.rate);
    }
  }

  lemma OneMoreMultiple(a: int, b: int)
    requires 0 < b && a % b == 0
    ensures (a + b) % b == 0
  {
    var q := a / b;
    assert a == q * b && a + b == (q + 1) * b + 0;
    QuotientIs(a + b, b, q + 1, 0);
  }

  /** The plan after n undisturbed instalments, each taken out of shares that cover it. */
  ghost function After(p: Plan, n: nat): (q: Plan)
    requires Steady(p) && 0 <= p.toWithdraw
    ensures Steady(q) && q.toWithdraw == p.toWithdraw
    decreases n
  {
    if n == 0 || p.rate == 0 then p else
    var vests := p.delegated + Remaining(p);
    InstalmentIsExact(p, vests);
    StepKeepsSteady(p, vests, vests);
    After(Advanced(p, Instalment(p, vests), vests), n - 1)
  }

  /** An undisturbed power-down pays exactly what was requested, in as many instalments as the rate needs. */
  lemma {:induction false} PowerDownPaysInFull(p: Plan, n: nat)
    requires Steady(p) && 0 <= p.toWithdraw && Remaining(p) <= n * p.rate
    ensures After(p, n).rate == 0 && After(p, n).withdrawn == p.toWithdraw
    decreases n
  {
    if n != 0 && p.rate != 0 {
      var vests := p.delegated + Remaining(p);
      InstalmentIsExact(p, vests);
      StepKeepsSteady(p, vests, vests);
      var q := Advanced(p, Instalment(p, vests), vests);
      assert (n - 1) * p.rate == n * p.rate - p.rate;
      if q.rate == 0 {
        assert After(q, n - 1) == q;
      } else {
        PowerDownPaysInFull(q, n - 1);
      }
    }
  }

  /**
   The first instalment of a request is non-negative unless the request is at most minus thirteen and
   its rate leaves a remainder. A negative one would fail the deposit assertion.
   */
  lemma FirstInstalmentSign(request: int, vests: int, p: Plan)
    requires 0 <= vests && request != 0 && p.toWithdraw == request && p.withdrawn == 0 && p.rate == RateFor(request)
    ensures 0 <= Instalment(p, vests) <==> -WITHDRAW_INTERVALS < request || TruncRem(request, p.rate) == 0
  {
    if request <= -WITHDRAW_INTERVALS {
      NegativeRemainder(request, p.rate);
    } else if request < 0 {
      assert TruncDiv(request, 1) == request;
    } else {
      var rate := p.rate;
      assert request == request / rate * rate + request % rate;
    }
  }

  lemma NegativeRemainder(a: int, b: int)
    requires a < 0 && b < 0
    ensures TruncRem(a, b) <= 0
  {
    var n, q := -a, (-a) / b;
    assert n == q * b + n % b;
  }

  lemma NegativeRequestExample()
    ensures Instalment(Plan(-27, 0, RateFor(-27), 0, 0, 0, 0), 100) == -1
  {
  }

  // ----- routes -----

  /** The routes of an account the source looks at: both loops start after destination id 0. */
  function RoutesOf(routes: Routes, a: Account): set<(Account, Account)>
  {
    set k | k in routes && k.0 == a && 0 < k.1
  }

  ghost function PercentAt(routes: Routes): ((Account, Account)) -> int
  {
    k => if k in routes then routes[k].percent else 0
  }

  ghost function RouteTotal(routes: Routes, a: Account): int
  {
    Sum(RoutesOf(routes, a), PercentAt(routes))
  }

  ghost predicate RouteOk(r: Route) { 0 < r.percent <= HUNDRED_PERCENT }

  ghost predicate RoutesOk(routes: Routes)
  {
    forall k :: k in routes ==> RouteOk(routes[k])
  }

  ghost predicate RoutesFit(routes: Routes)
  {
    forall a :: RouteTotal(routes, a) <= HUNDRED_PERCENT
  }

  lemma RouteTotalSame(now: Routes, was: Routes, a: Account)
    requires RoutesOf(now, a) == RoutesOf(was, a) && forall k :: k in RoutesOf(was, a) ==> now[k].percent == was[k].percent
    ensures RouteTotal(now, a) == RouteTotal(was, a)
  {
    SumAgree(RoutesOf(was, a), PercentAt(now), PercentAt(was));
  }

  /** Dropping a route lowers its owner's total by its percentage and touches no one else. */
  lemma RouteDropped(routes: Routes, k: (Account, Account), a: Account)
    requires k in routes
    ensures RouteTotal(routes - {k}, a) == RouteTotal(routes, a) - if a == k.0 && 0 < k.1 then routes[k].percent else 0
  {
    var now := routes - {k};
    if a == k.0 && 0 < k.1 {
      assert RoutesOf(now, a) == RoutesOf(routes, a) - {k};
      SumTake(RoutesOf(routes, a), k, PercentAt(routes));
      SumAgree(RoutesOf(now, a), PercentAt(now), PercentAt(routes));
    } else {
      assert RoutesOf(now, a) == RoutesOf(routes, a);
      RouteTotalSame(now, routes, a);
    }
  }

  lemma RouteAdded(routes: Routes, k: (Account, Account), r: Route, a: Account)
    requires k !in routes
    ensures RouteTotal(routes[k := r], a) == RouteTotal(routes, a) + if a == k.0 && 0 < k.1 then r.percent else 0
  {
    var now := routes[k := r];
    assert now - {k} == routes;
    RouteDropped(now, k, a);
  }

  /** Writing a route: no total grows by more than its percentage. */
  lemma RouteWritten(routes: Routes, k: (Account, Account), r: Route, a: Account)
    requires RoutesOk(routes) && 0 <= r.percent
    ensures RouteTotal(routes[k := r], a) <= RouteTotal(routes, a) + r.percent
    ensures a != k.0 ==> RouteTotal(routes[k := r], a) == RouteTotal(routes, a)
  {
    if k in routes {
      assert RouteOk(routes[k]);
      RouteDropped(routes, k, a);
      assert (routes - {k})[k := r] == routes[k := r];
      RouteAdded(routes - {k}, k, r, a);
    } else {
      RouteAdded(routes, k, r, a);
    }
  }

  /** A share of w for a route. */
  function Share(w: int, percent: int): int
  {
    MulDiv(w, percent, HUNDRED_PERCENT)
  }

  ghost function ShareAt(routes: Routes, w: int): ((Account, Account)) -> int
  {
    k => if k in routes then Share(w, routes[k].percent) else 0
  }

  /** Rounded shares of routes that fit never exceed the whole. */
  lemma SharesFit(routes: Routes, w: int, s: set<(Account, Account)>)
    requires 0 <= w && RoutesOk(routes) && s <= routes.Keys
    ensures 0 <= Sum(s, ShareAt(routes, w))
    ensures Sum(s, ShareAt(routes, w)) * HUNDRED_PERCENT <= w * Sum(s, PercentAt(routes))
  {
    forall k | k in s ensures 0 <= PercentAt(routes)(k) && ShareAt(routes, w)(k) == MulDiv(w, PercentAt(routes)(k), HUNDRED_PERCENT) {
      assert RouteOk(routes[k]);
    }
    FloorSharesFit(s, w, HUNDRED_PERCENT, PercentAt(routes), ShareAt(routes, w));
  }

  lemma SharesWithin(routes: Routes, w: int, a: Account)
    requires 0 <= w && RoutesOk(routes) && RoutesFit(routes)
    ensures 0 <= Sum(RoutesOf(routes, a), ShareAt(routes, w)) <= w
  {
    SharesFit(routes, w, RoutesOf(routes, a));
    assert RouteTotal(routes, a) <= HUNDRED_PERCENT;
    hide Sum, RoutesOf, RoutesFit, RoutesOk;
    PartOfLess(w, RouteTotal(routes, a), HUNDRED_PERCENT, Sum(RoutesOf(routes, a), ShareAt(routes, w)));
  }

  ghost function AllRoutesOf(routes: Routes, a: Account): set<(Account, Account)>
  {
    set k | k in routes && k.0 == a
  }

  /**
   A route to the account with id 0 escapes the limit: the plain sum of an account's percentages is its
   checked total plus that route. Payment skips the same route.
   */
  lemma UncheckedRoute(routes: Routes, a: Account)
    requires forall k :: k in routes ==> 0 <= k.1
    ensures Sum(AllRoutesOf(routes, a), PercentAt(routes))
         == RouteTotal(routes, a) + if (a, MINER_ACCOUNT) in routes then routes[(a, MINER_ACCOUNT)].percent else 0
  {
    var all := AllRoutesOf(routes, a);
    var z := (a, MINER_ACCOUNT);
    if z in routes {
      assert all - {z} == RoutesOf(routes, a);
      SumTake(all, z, PercentAt(routes));
    } else {
      assert all == RoutesOf(routes, a);
    }
  }

  lemma UncheckedRouteExample()
    ensures var routes := map[(5, 0) := Route(10000, false), (5, 7) := Route(10000, true)];
      RouteTotal(routes, 5) == 10000 && Sum(AllRoutesOf(routes, 5), PercentAt(routes)) == 20000
  {
    var routes := map[(5, 0) := Route(10000, false), (5, 7) := Route(10000, true)];
    UncheckedRoute(routes, 5);
    assert RoutesOf(routes, 5) == {(5, 7)};
    SumTake({(5, 7)}, (5, 7), PercentAt(routes));
    assert {(5, 7)} - {(5, 7)} == {};
  }
}
