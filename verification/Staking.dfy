/** The account fields behind power-down and delegation, and every operation that changes them. */
module Staking {
  import opened Basics
  import opened Sums
  import opened Assets
  import opened Division
  import opened Ledger
  import opened PowerPlans
  import opened PowerDown
  import Claims

  /** STEEMIT_CASHOUT_WINDOW_SECONDS: how long withdrawn delegations stay locked. */
  const RETURN_DELAY: int := 60 * 60 * 24 * 7
  /** STEEMIT_CREATE_ACCOUNT_DELEGATION_TIME */
  const CREATE_DELEGATION_TIME: int := 60 * 60 * 24 * 30

  // ----- what is lent -----

  ghost function LentBy(a: Account): Delegation -> int { (d: Delegation) => if d.delegator == a then d.vests else 0 }
  ghost function LentTo(a: Account): Delegation -> int { (d: Delegation) => if d.delegatee == a then d.vests else 0 }
  ghost function ReturningTo(a: Account): Expiration -> int { (x: Expiration) => if x.delegator == a then x.vests else 0 }

  ghost function Lent(ds: Delegations, xs: Expirations, a: Account): int
  {
    SumMap(ds, LentBy(a)) + SumMap(xs, ReturningTo(a))
  }

  ghost function Borrowed(ds: Delegations, a: Account): int
  {
    SumMap(ds, LentTo(a))
  }

  /** The counters of every account are the sums over the delegation objects. */
  ghost predicate Exact(plans: map<Account, Plan>, ds: Delegations, xs: Expirations)
  {
    forall a :: a in plans ==> plans[a].delegated == Lent(ds, xs, a) && plans[a].received == Borrowed(ds, a)
  }

  ghost predicate DelegationOk(k: (Account, Account), d: Delegation)
  {
    d.delegator == k.0 && d.delegatee == k.1 && k.0 != k.1 && 0 <= d.vests
  }

  ghost predicate DelegationsOk(ds: Delegations, xs: Expirations, accounts: set<Account>, next: int)
  {
    && (forall k :: k in ds ==> DelegationOk(k, ds[k]) && k.0 in accounts && k.1 in accounts)
    && (forall i :: i in xs ==> xs[i].delegator in accounts && 0 <= xs[i].vests && i < next)
  }

  // ----- shares cover what is owed -----

  ghost predicate AllReserved(plans: map<Account, Plan>, stakes: map<Account, Stake>)
  {
    forall a :: a in plans && a in stakes ==> Reserved(plans[a], stakes[a].vests)
  }

  ghost predicate AllSteady(plans: map<Account, Plan>)
  {
    forall a :: a in plans ==> Steady(plans[a])
  }

  ghost predicate RoutesCounted(plans: map<Account, Plan>, routes: Routes)
  {
    forall a :: a in plans ==> plans[a].routes == |AllRoutesOf(routes, a)| && plans[a].routes <= MAX_WITHDRAW_ROUTES
  }

  const IDLE := Plan(0, 0, 0, NEVER, 0, 0, 0)

  function IdlePlans(accounts: set<Account>): map<Account, Plan>
  {
    map a | a in accounts :: IDLE
  }

  lemma IdleIsExact(accounts: set<Account>, stakes: map<Account, Stake>)
    requires StakesOk(stakes)
    ensures Exact(IdlePlans(accounts), map[], map[]) && RoutesCounted(IdlePlans(accounts), map[]) && RoutesFit(map[])
    ensures AllSteady(IdlePlans(accounts)) && AllReserved(IdlePlans(accounts), stakes)
  {
    var none: Routes := map[];
    forall a ensures AllRoutesOf(none, a) == {} && RouteTotal(none, a) == 0 {
      assert RoutesOf(none, a) == {};
    }
    forall a | a in stakes ensures 0 <= stakes[a].vests {
      assert StakeOk(stakes[a]);
    }
  }

  class Stakes {
    const db: Database
    var plans: map<Account, Plan>
    var routes: Routes
    var delegations: Delegations
    var expirations: Expirations
    var nextExpiration: int

    ghost predicate Valid()
      reads this, db
    {
      && db.Valid() && plans.Keys == db.accounts && db.now < NEVER
      && AllReserved(plans, db.stakes) && AllSteady(plans)
      && Exact(plans, delegations, expirations) && DelegationsOk(delegations, expirations, db.accounts, nextExpiration)
      && RoutesOk(routes) && RoutesFit(routes) && Reaches(routes, db.accounts) && RoutesCounted(plans, routes)
    }

    /** Nobody withdraws, routes or lends yet. */
    constructor (ledger: Database)
      requires ledger.Valid() && ledger.now < NEVER
      ensures Valid() && db == ledger
      ensures plans == IdlePlans(ledger.accounts) && routes == map[] && delegations == map[] && expirations == map[]
    {
      db := ledger;
      plans := IdlePlans(ledger.accounts);
      routes, delegations, expirations := map[], map[], map[];
      nextExpiration := 0;
      new;
      IdleIsExact(db.accounts, db.stakes);
    }

    /**
     withdraw_vesting: a negative request is not rejected; it frees shares for delegation that the
     account does not own.
     */
    method WithdrawVesting(a: Account, request: int, creationFee: int) returns (ok: bool)
      requires Valid()
      modifies this`plans
      ensures Valid()
      ensures !ok ==> plans == old(plans)
      ensures ok <==>
        && a in old(plans) && a in db.stakes
        && MayPowerDown(old(plans)[a], db.stakes[a].vests, request, SharesFor(creationFee, db.props))
      ensures ok ==> plans == old(plans)[a := PoweringDown(old(plans)[a], request, db.now)]
    {
      hide SumMap, MulDiv, Exact, DelegationsOk, RoutesOk, RoutesFit, Reaches, RoutesCounted, Database.Valid, RateFor,
        SharesFor;
      if a !in plans {
        return false;
      }
      StakeKeys(db);
      StakeIsCovered(db, a);
      var p, vests := plans[a], db.stakes[a].vests;
      if vests < 0 || vests - p.delegated < request {
        return false;
      }
      var minimum := 10 * SharesFor(creationFee, db.props);
      if vests <= minimum && request != 0 {
        return false;
      }
      var q;
      if request == 0 {
        if p.rate == 0 {
          return false;
        }
        q := p.(toWithdraw := 0, withdrawn := 0, rate := 0, next := NEVER);
      } else {
        if p.rate == RateFor(request) {
          return false;
        }
        q := p.(toWithdraw := request, withdrawn := 0, rate := RateFor(request),
                next := db.now + WITHDRAW_INTERVAL_SECONDS);
        RequestIsSteady(p, request, q.next);
      }
      SamePromises(plans, a, q, delegations, expirations, routes);
      plans := plans[a := q];
      return true;
    }

    /** set_withdraw_vesting_route: accepted exactly when the checked total still fits, and that check never wraps. */
    method SetRoute(from: Account, to: Account, percent: int, autoVest: bool) returns (ok: bool)
      requires Valid() && 0 <= percent <= HUNDRED_PERCENT
      modifies this`plans, this`routes
      ensures ok ==> Valid()
      ensures ok <==> RouteAllowed(old(plans), old(routes), from, to, percent)
                      && RouteTotal(Rerouted(old(routes), (from, to), Route(percent, autoVest)), from) <= HUNDRED_PERCENT
      ensures ok ==> routes == Rerouted(old(routes), (from, to), Route(percent, autoVest))
      ensures ok ==>
        && from in plans && from in old(plans)
        && plans == old(plans)[from := old(plans)[from].(routes := plans[from].routes)]
    {
      hide SumMap, Exact, DelegationsOk, Database.Valid, RouteTotal, AllReserved, Steady;
      var k, r := (from, to), Route(percent, autoVest);
      if from !in plans || to !in plans || (k !in routes && (percent == 0 || MAX_WITHDRAW_ROUTES <= plans[from].routes)) {
        return false;
      }
      RouteCountAfter(plans, routes, k, r);
      RerouteBound(routes, k, r, from);
      PromisesKeptByRoutes(plans, from, delegations, expirations, db.stakes);
      var p := plans[from];
      if k !in routes {
        plans := plans[from := p.(routes := p.routes + 1)];
        routes := routes[k := r];
      } else if percent == 0 {
        plans := plans[from := p.(routes := p.routes - 1)];
        routes := routes - {k};
      } else {
        routes := routes[k := r];
      }
      var total := TotalPercent(routes, from);
      ok := total <= HUNDRED_PERCENT;
      if ok {
        RerouteFits(old(routes), k, r);
      }
    }

    /** delegate_vesting_shares: `vests` becomes the whole amount lent to the delegatee. */
    method Delegate(delegator: Account, delegatee: Account, vests: int, creationFee: int) returns (ok: bool)
      requires Valid() && delegator != delegatee && 0 <= vests
      modifies this`plans, this`delegations, this`expirations, this`nextExpiration
      ensures ok ==> Valid()
      ensures ok <==>
        && delegator in old(plans) && delegatee in old(plans) && delegator in db.stakes
        && MayDelegate(old(delegations), (delegator, delegatee), vests, Available(old(plans)[delegator], db.stakes[delegator].vests),
                       SharesFor(10 * creationFee, db.props), SharesFor(creationFee, db.props))
      ensures ok ==> Redelegated(old(plans), old(delegations), plans, delegations, (delegator, delegatee), vests)
      ensures ok ==> expirations == Returning(old(expirations), old(nextExpiration), old(delegations), (delegator, delegatee), vests, db.now)
    {
      hide SumMap, MulDiv, SharesFor, RoutesOk, RoutesFit, Reaches, RoutesCounted, Database.Valid, AllReserved,
        AllSteady, Exact, DelegationsOk, Redelegated;
      if delegator !in plans || delegatee !in plans {
        return false;
      }
      StakeKeys(db);
      var available := Available(plans[delegator], db.stakes[delegator].vests);
      var least := SharesFor(10 * creationFee, db.props);
      var step := SharesFor(creationFee, db.props);
      var k := (delegator, delegatee);
      if k !in delegations {
        if available < vests || vests < least {
          return false;
        }
        Lend(k, Delegation(delegator, delegatee, vests, db.now));
        LendingRedelegates(old(plans), old(delegations), k, Delegation(delegator, delegatee, vests, db.now));
      } else if delegations[k].vests <= vests {
        var delta := vests - delegations[k].vests;
        if delta < step || available < delta {
          return false;
        }
        DelegationAt(delegations, expirations, db.accounts, nextExpiration, k);
        Lend(k, delegations[k].(vests := vests));
        LendingRedelegates(old(plans), old(delegations), k, old(delegations)[k].(vests := vests));
      } else {
        var delta := delegations[k].vests - vests;
        if 0 < vests && (delta < step || vests < least) {
          return false;
        }
        TakeBack(k, vests);
        TakingRedelegates(old(plans), old(delegations), k, vests);
      }
      return true;
    }

    /** A delegation that starts or grows, out of shares that are free. */
    method Lend(k: (Account, Account), d: Delegation)
      requires Valid() && k.0 in plans && k.1 in plans && k.0 in db.stakes && DelegationOk(k, d) && VestsAt(delegations, k) <= d.vests
      requires plans[k.0].delegated + Remaining(plans[k.0]) + d.vests - VestsAt(delegations, k) <= db.stakes[k.0].vests
      modifies this`plans, this`delegations
      ensures Valid() && delegations == old(delegations)[k := d]
      ensures var delta := d.vests - VestsAt(old(delegations), k);
        plans == old(plans)[k.0 := old(plans)[k.0].(delegated := old(plans)[k.0].delegated + delta)]
                           [k.1 := old(plans)[k.1].(received := old(plans)[k.1].received + delta)]
    {
      hide SumMap, RoutesOk, RoutesFit, Reaches, RoutesCounted, Database.Valid, Exact, DelegationsOk, AllReserved,
        AllSteady;
      var delta := d.vests - if k in delegations then delegations[k].vests else 0;
      LendKeeps(plans, delegations, expirations, db.stakes, db.accounts, nextExpiration, k, d);
      CountsKept(plans, plans[k.0 := plans[k.0].(delegated := plans[k.0].delegated + delta)]
                             [k.1 := plans[k.1].(received := plans[k.1].received + delta)], routes);
      var p := plans[k.0];
      plans := plans[k.0 := p.(delegated := p.delegated + delta)];
      p := plans[k.1];
      plans := plans[k.1 := p.(received := p.received + delta)];
      delegations := delegations[k := d];
    }

    /** A delegation that shrinks: the difference is locked until it expires. */
    method TakeBack(k: (Account, Account), vests: int)
      requires Valid() && k in delegations && 0 <= vests < delegations[k].vests
      modifies this`plans, this`delegations, this`expirations, this`nextExpiration
      ensures Valid()
      ensures delegations == if 0 < vests then old(delegations)[k := old(delegations)[k].(vests := vests)] else old(delegations) - {k}
      ensures k.1 in old(plans)
      ensures plans == old(plans)[k.1 := old(plans)[k.1].(received := old(plans)[k.1].received - (old(delegations)[k].vests - vests))]
      ensures var d := old(delegations)[k];
        expirations == old(expirations)[old(nextExpiration) := Expiration(k.0, d.vests - vests, Max(db.now + RETURN_DELAY, d.minTime))]
    {
      hide SumMap, RoutesOk, RoutesFit, Reaches, RoutesCounted, Database.Valid, Exact, DelegationsOk, AllReserved,
        AllSteady;
      var d := delegations[k];
      var x := Expiration(k.0, d.vests - vests, Max(db.now + RETURN_DELAY, d.minTime));
      TakeBackKeeps(plans, delegations, expirations, db.stakes, db.accounts, nextExpiration, k, vests, x);
      var p := plans[k.1];
      CountsKept(plans, plans[k.1 := p.(received := p.received - x.vests)], routes);
      expirations := expirations[nextExpiration := x];
      nextExpiration := nextExpiration + 1;
      plans := plans[k.1 := p.(received := p.received - x.vests)];
      if 0 < vests {
        delegations := delegations[k := d.(vests := vests)];
      } else {
        delegations := delegations - {k};
      }
    }

    /** clear_expired_delegations: exactly the expired entries are given back to their owners. */
    method ClearExpiredDelegations()
      requires Valid()
      modifies this`plans, this`expirations
      ensures Valid() && expirations == old(expirations) - Overdue(old(expirations), db.now)
      ensures SharesReturned(old(plans), plans, old(expirations), Overdue(old(expirations), db.now))
    {
      hide Stakes.Valid, Sum, ReturnAt;
      PlanKeys();
      ghost var all := Overdue(expirations, db.now);
      var due := set i | i in expirations && expirations[i].expiration < db.now;
      assert due == all;
      assert all - due == {};
      NothingReturned(plans, expirations, all);
      while due != {}
        invariant Valid() && due <= all && expirations == old(expirations) - (all - due)
        invariant SharesReturned(old(plans), plans, old(expirations), all - due)
        decreases |due|
      {
        var i := Pick(due);
        DropOneMore(old(expirations), all - due, i);
        ghost var before := plans;
        ReturnShares(i);
        OneMoreReturned(old(plans), before, plans, old(expirations), all, due, i);
        assert all - (due - {i}) == all - due + {i};
        due := due - {i};
      }
      assert all - due == all;
    }

    lemma PlanKeys()
      requires Valid()
      ensures plans.Keys == db.accounts == db.stakes.Keys == db.purses.Keys
    {
    }

    method ReturnShares(i: int)
      requires Valid() && i in expirations
      modifies this`plans, this`expirations
      ensures Valid() && expirations == old(expirations) - {i}
      ensures plans.Keys == old(plans).Keys && 0 <= old(expirations)[i].vests
      ensures forall a :: a in plans ==> plans[a] == old(plans)[a].(delegated := old(plans)[a].delegated - ReturningTo(a)(old(expirations)[i]))
    {
      hide SumMap, RoutesOk, RoutesFit, Reaches, RoutesCounted, Database.Valid, Exact, DelegationsOk, AllReserved,
        AllSteady;
      var x := expirations[i];
      ReturnKeeps(plans, delegations, expirations, db.stakes, db.accounts, nextExpiration, i);
      var p := plans[x.delegator];
      CountsKept(plans, plans[x.delegator := p.(delegated := p.delegated - x.vests)], routes);
      plans := plans[x.delegator := p.(delegated := p.delegated - x.vests)];
      expirations := expirations - {i};
    }

    /** One due account of process_vesting_withdrawals. */
    method PayInstalment(a: Account) returns (ok: bool, ghost order: seq<(Account, Account)>)
      requires Valid() && a in plans && plans[a].next <= db.now
      modifies this`plans, db`stakes, db`purses, db`props
      ensures old(plans)[a].rate != 0 && (ok <==> Payable(old(plans)[a]))
      ensures ok ==> Valid() && plans.Keys == old(plans).Keys
      ensures ok ==> forall b :: b in plans && b != a ==> plans[b] == old(plans)[b]
      ensures ok ==> InstalmentPaid(old(plans)[a], plans[a], db.now) && Pending(plans[a]) < Pending(old(plans)[a])
      ensures ok ==> plans[a].withdrawn == old(plans)[a].withdrawn + NextPay(old(plans)[a])
      ensures ok ==> var w := NextPay(old(plans)[a]);
        && PaymentOk(routes, Payment(a, w, order)) && PoolOf(db) == PoolPaid(old(PoolOf(db)), routes, a, w, order)
        && db.props == old(db.props).(vestingFund := db.props.vestingFund, vestingShares := db.props.vestingShares)
        && db.stakes.Keys == old(db.stakes).Keys
        && forall b :: b in db.stakes ==> db.stakes[b] == old(db.stakes)[b].(vests :=
             old(db.stakes)[b].vests + DepositTo(routes, a, w, b) - if b == a then w else 0)
      ensures !ok ==> unchanged(this) && unchanged(db)
    {
      hide SumMap, Sum, Share, RoutesOk, RoutesFit, Reaches, RoutesCounted, Database.Valid, Exact, DelegationsOk, RoutesOf, PassOf, Instalment, Advanced, RateFor, PoolPaid,
           RunsThrough, NextPay, Payable, InstalmentPaid, Pending;
      PlanKeys();
      var p := plans[a];
      StakeIsCovered(db, a);
      DueIsActive(p, db.now);
      InstalmentIs(p, db.stakes[a].vests);
      var w := Instalment(p, db.stakes[a].vests);
      order := [];
      if w < 0 {
        return false, [];
      }
      ghost var was := db.stakes;
      order := PayOut(db, routes, a, w);
      DepositsGrow(routes, a, w);
      var q := Advanced(p, w, db.stakes[a].vests);
      StepKeepsSteady(p, was[a].vests, db.stakes[a].vests);
      StepIsInstalment(p, was[a].vests, db.stakes[a].vests, db.now);
      AdvancedKeeps(p, w, db.stakes[a].vests);
      SamePromises(plans, a, q, delegations, expirations, routes);
      plans := plans[a := q];
      ok := true;
    }

    lemma PlansSteady()
      requires Valid()
      ensures AllSteady(plans)
      ensures forall a :: a in plans ==> Steady(plans[a]) && (plans[a].next <= db.now ==> plans[a].rate != 0)
    {
    }

    lemma OutstandingNonNegative()
      requires Valid()
      ensures 0 <= Outstanding(plans)
    {
      SumMapNonNegative(plans, Pending);
    }

    /** account_create: the vesting fields of a new account start out idle. */
    method CreateAccount(creator: Account, a: Account, fee: int, minimum: int) returns (ok: bool)
      requires Valid() && 0 <= fee
      modifies this`plans, db`accounts, db`purses, db`stakes, db`props
      ensures ok ==>
        && Valid() && db.accounts == old(db.accounts) + {a} && a !in old(plans) && plans == old(plans)[a := IDLE]
      ensures ok == (creator in old(db.purses) && fee <= old(db.purses)[creator].steem && minimum <= fee && a !in old(db.accounts))
      ensures ok ==>
        forall b :: b in old(plans) ==> b in db.stakes && b in old(db.stakes) && db.stakes[b] == old(db.stakes)[b]
      ensures ok ==> Claims.Joined(old(db.purses), db.purses, old(db.stakes), db.stakes, creator, a, fee, SharesFor(fee, old(db.props)))
    {
      hide SumMap, MulDiv, RoutesOk, RoutesFit, Database.Valid, SharesFor;
      PlanKeys();
      ok := Claims.CreateAccount(db, creator, a, fee, minimum);
      if ok {
        StakeKeys(db);
        NewcomerLendsNothing(plans, delegations, expirations, routes, old(db.accounts), nextExpiration, a);
        StakeIsCovered(db, a);
        plans := plans[a := IDLE];
      }
    }

    /** account_create_with_delegation: part of the required stake is lent by the creator. */
    method CreateWithDelegation(creator: Account, a: Account, fee: int, delegation: int, creationFee: int)
      returns (ok: bool)
      requires Valid() && 0 <= fee && 0 <= delegation && creator != a
      modifies this`plans, this`delegations, db`accounts, db`purses, db`stakes, db`props
      ensures ok ==> Valid() && db.accounts == old(db.accounts) + {a} && a !in old(plans) && creator in old(plans)
      ensures ok ==> plans == old(plans)[creator := old(plans)[creator].(delegated := old(plans)[creator].delegated + delegation)]
                                        [a := IDLE.(received := delegation)]
      ensures ok <==>
        && creator in old(plans) && creator in old(db.stakes) && creator in old(db.purses)
        && fee <= old(db.purses)[creator].steem && creationFee <= fee
        && a !in old(db.accounts) && delegation <= Available(old(plans)[creator], old(db.stakes)[creator].vests)
        && SharesFor(150 * creationFee, old(db.props)) <= SharesFor(5 * fee, old(db.props)) + delegation
      ensures ok ==> Claims.Joined(old(db.purses), db.purses, old(db.stakes), db.stakes, creator, a, fee, SharesFor(fee, old(db.props)))
      ensures ok ==> delegations == if 0 < delegation
        then old(delegations)[(creator, a) := Delegation(creator, a, delegation, db.now + CREATE_DELEGATION_TIME)] else old(delegations)
    {
      hide SumMap, MulDiv, SharesFor, RoutesOk, RoutesFit, Reaches, RoutesCounted, Database.Valid, Exact, DelegationsOk,
        AllReserved, AllSteady, Claims.Joined;
      PlanKeys();
      if creator !in plans {
        return false;
      }
      if Available(plans[creator], db.stakes[creator].vests) < delegation {
        return false;
      }
      if SharesFor(5 * fee, db.props) + delegation < SharesFor(150 * creationFee, db.props) {
        return false;
      }
      ok := CreateAccount(creator, a, fee, creationFee);
      if !ok {
        return;
      }
      if 0 < delegation {
        NoDelegationYet(old(delegations), expirations, old(db.accounts), nextExpiration, creator, a);
        Lend((creator, a), Delegation(creator, a, delegation, db.now + CREATE_DELEGATION_TIME));
      } else {
        assert plans[creator] == old(plans)[creator].(delegated := old(plans)[creator].delegated + delegation);
      }
    }
  }

  function Due(plans: map<Account, Plan>, now: int): set<Account>
  {
    set a | a in plans && plans[a].next <= now
  }

  function Overdue(xs: Expirations, now: int): set<int>
  {
    set i | i in xs && xs[i].expiration < now
  }

  /** A bound on how often a plan can still be paid. */
  ghost function Pending(p: Plan): (n: int)
    ensures 0 <= n
  {
    if p.rate == 0 then 0 else if Remaining(p) <= 0 then 1 else Remaining(p) + 1
  }

  ghost function Outstanding(plans: map<Account, Plan>): int
  {
    SumMap(plans, Pending)
  }

  lemma OutstandingFalls(was: map<Account, Plan>, now: map<Account, Plan>, a: Account)
    requires a in was && now.Keys == was.Keys && Pending(now[a]) < Pending(was[a])
    requires forall b :: b in now && b != a ==> now[b] == was[b]
    ensures Outstanding(now) < Outstanding(was)
  {
    assert now == was[a := now[a]];
    SumMapUpdate(was, a, now[a], Pending);
  }

  /** No due plan has a negative instalment. */
  ghost predicate AllPayable(plans: map<Account, Plan>, now: int)
  {
    forall a :: a in plans && plans[a].next <= now && plans[a].rate != 0 ==> Payable(plans[a])
  }

  /**
   One or more instalments took p to q by now: either everything is paid, or the full rate for each week
   passed. No instalment is paid before its week.
   */
  ghost predicate InstalmentPaid(p: Plan, q: Plan, now: int)
  {
    && q.toWithdraw == p.toWithdraw && q.delegated == p.delegated && q.received == p.received && q.routes == p.routes
    && if q.rate == 0 then
         && q.withdrawn == (if 0 <= p.toWithdraw then p.toWithdraw else p.withdrawn)
         && (0 <= p.toWithdraw ==> Remaining(p) <= WeeksDue(p.next, now) * p.rate)
       else 0 <= p.toWithdraw && var k := WeeksBetween(p, q); 1 <= k <= WeeksDue(p.next, now) && PaidWeeks(p, q, k)
  }

  lemma StepIsInstalment(p: Plan, vests: int, left: int, now: int)
    requires p.next <= now && Steady(p) && p.rate != 0 && Payable(p) && Reserved(p, vests) && 0 <= vests
    requires vests - NextPay(p) <= left
    ensures InstalmentPaid(p, Advanced(p, NextPay(p), left), now) && Pending(Advanced(p, NextPay(p), left)) < Pending(p)
  {
    StepKeepsSteady(p, vests, left);
    InstalmentIs(p, vests);
    hide Payable, Instalment;
    AtLeastOneWeek(p.next, now);
    if 0 <= p.toWithdraw && Remaining(p) <= p.rate {
      CancelPositive(1, WeeksDue(p.next, now), p.rate);
    }
  }

  /** A plan that was paid, is due again and is paid again. */
  lemma PaidTwice(p: Plan, q: Plan, r: Plan, now: int)
    requires Steady(p) && (q == p || InstalmentPaid(p, q, now)) && q.rate != 0 && q.next <= now && InstalmentPaid(q, r, now)
    ensures InstalmentPaid(p, r, now)
  {
    if q != p {
      var j, k := WeeksBetween(p, q), WeeksBetween(q, r);
      WeeksGoOn(p.next, j, now);
      if r.rate != 0 {
        assert r.next == p.next + (j + k) * WITHDRAW_INTERVAL_SECONDS;
        Distribute(p.rate, j, k);
      } else {
        Distribute(p.rate, j, WeeksDue(q.next, now));
      }
    }
  }

  /** Whether a plan is payable does not change by being paid. */
  lemma StillPayable(p: Plan, q: Plan, now: int)
    requires Steady(p) && p.rate != 0 && q.rate != 0 && (q == p || InstalmentPaid(p, q, now))
    ensures Payable(p) <==> Payable(q)
  {
  }

  lemma DueIsActive(p: Plan, now: int)
    requires Steady(p) && p.next <= now < NEVER
    ensures p.rate != 0
  {
  }

  lemma DepositsGrow(routes: Routes, from: Account, w: int)
    requires RoutesOk(routes) && 0 <= w
    ensures forall b :: 0 <= DepositTo(routes, from, w, b)
  {
    SharesOfPass(routes, w, from, true);
  }

  lemma AdvancedKeeps(p: Plan, w: int, vests: int)
    ensures var q := Advanced(p, w, vests);
      q.delegated == p.delegated && q.received == p.received && q.routes == p.routes && q.toWithdraw == p.toWithdraw && q.withdrawn == p.withdrawn + w
  {
  }

  lemma ReturnKeeps(plans: map<Account, Plan>, ds: Delegations, xs: Expirations, stakes: map<Account, Stake>,
                    accounts: set<Account>, next: int, i: int)
    requires plans.Keys == accounts && i in xs
    requires Exact(plans, ds, xs) && DelegationsOk(ds, xs, accounts, next) && AllReserved(plans, stakes) && AllSteady(plans)
    ensures xs[i].delegator in plans && 0 <= xs[i].vests
    ensures var q := plans[xs[i].delegator := plans[xs[i].delegator].(delegated := plans[xs[i].delegator].delegated - xs[i].vests)];
      Exact(q, ds, xs - {i}) && DelegationsOk(ds, xs - {i}, accounts, next) && AllReserved(q, stakes) && AllSteady(q)
  {
    hide SumMap;
    var x := xs[i];
    forall a | a in plans ensures Lent(ds, xs - {i}, a) == Lent(ds, xs, a) - if a == x.delegator then x.vests else 0 {
      SumMapRemove(xs, i, ReturningTo(a));
    }
    LentNonNegative(ds, xs - {i}, x.delegator);
  }

  lemma LentNonNegative(ds: Delegations, xs: Expirations, a: Account)
    requires (forall k :: k in ds ==> DelegationOk(k, ds[k])) && forall i :: i in xs ==> 0 <= xs[i].vests
    ensures 0 <= Lent(ds, xs, a)
  {
    SumMapNonNegative(ds, LentBy(a));
    forall i | i in xs ensures 0 <= ReturningTo(a)(xs[i]) {}
    SumMapNonNegative(xs, ReturningTo(a));
  }

  /** No delegation, expiration or route can mention an account that does not exist yet. */
  lemma NewcomerLendsNothing(plans: map<Account, Plan>, ds: Delegations, xs: Expirations, routes: Routes,
                             accounts: set<Account>, next: int, a: Account)
    requires plans.Keys == accounts && a !in accounts && Exact(plans, ds, xs) && DelegationsOk(ds, xs, accounts, next)
    requires Reaches(routes, accounts) && RoutesCounted(plans, routes)
    ensures Exact(plans[a := IDLE], ds, xs) && DelegationsOk(ds, xs, accounts + {a}, next)
    ensures Reaches(routes, accounts + {a}) && RoutesCounted(plans[a := IDLE], routes)
  {
    hide SumMap;
    StrangerLendsNothing(ds, xs, accounts, next, a);
    assert AllRoutesOf(routes, a) == {};
  }

  lemma StrangerLendsNothing(ds: Delegations, xs: Expirations, accounts: set<Account>, next: int, a: Account)
    requires a !in accounts && DelegationsOk(ds, xs, accounts, next)
    ensures Lent(ds, xs, a) == 0 && Borrowed(ds, a) == 0
  {
    hide SumMap;
    SumMapZero(ds, LentBy(a));
    SumMapZero(ds, LentTo(a));
    forall i | i in xs ensures ReturningTo(a)(xs[i]) == 0 {}
    SumMapZero(xs, ReturningTo(a));
  }

  lemma StakeIsCovered(db: Database, a: Account)
    requires db.Valid() && a in db.stakes
    ensures 0 <= db.stakes[a].vests
  {
    assert StakeOk(db.stakes[a]);
  }

  lemma NoDelegationYet(ds: Delegations, xs: Expirations, accounts: set<Account>, next: int, creator: Account,
                        a: Account)
    requires DelegationsOk(ds, xs, accounts, next) && a !in accounts
    ensures VestsAt(ds, (creator, a)) == 0
  {
  }

  function VestsAt(ds: Delegations, k: (Account, Account)): int
  {
    if k in ds then ds[k].vests else 0
  }

  lemma DelegationAt(ds: Delegations, xs: Expirations, accounts: set<Account>, next: int, k: (Account, Account))
    requires DelegationsOk(ds, xs, accounts, next) && k in ds
    ensures DelegationOk(k, ds[k]) && k.0 in accounts && k.1 in accounts
  {
  }

  /** Shares neither lent nor promised to a power-down. */
  function Available(p: Plan, vests: int): int
  {
    vests - p.delegated - (p.toWithdraw - p.withdrawn)
  }

  /** A plan after a request: cancelled by zero, else started afresh with the first instalment one interval away. */
  function PoweringDown(p: Plan, request: int, now: int): Plan
  {
    if request == 0 then p.(toWithdraw := 0, withdrawn := 0, rate := 0, next := NEVER)
    else p.(toWithdraw := request, withdrawn := 0, rate := RateFor(request), next := now + WITHDRAW_INTERVAL_SECONDS)
  }

  /** What an expiring entry gives back to an account. */
  ghost function ReturnAt(xs: Expirations, a: Account): int -> int
  {
    i => if i in xs && xs[i].delegator == a then xs[i].vests else 0
  }

  /** Every owner has back exactly what the given entries lent, and nothing else in any plan moved. */
  ghost predicate SharesReturned(was: map<Account, Plan>, now: map<Account, Plan>, xs: Expirations, done: set<int>)
  {
    now.Keys == was.Keys && forall a :: a in was ==> now[a] == was[a].(delegated := was[a].delegated - Sum(done, ReturnAt(xs, a)))
  }

  lemma NothingReturned(plans: map<Account, Plan>, xs: Expirations, all: set<int>)
    ensures SharesReturned(plans, plans, xs, all - all)
  {
    assert all - all == {};
  }

  lemma OneMoreReturned(was: map<Account, Plan>, mid: map<Account, Plan>, now: map<Account, Plan>, xs: Expirations,
                        all: set<int>,
                        left: set<int>, i: int)
    requires SharesReturned(was, mid, xs, all - left) && i in left && left <= all && i in xs && now.Keys == mid.Keys
    requires forall a :: a in now ==> now[a] == mid[a].(delegated := mid[a].delegated - ReturningTo(a)(xs[i]))
    ensures SharesReturned(was, now, xs, all - (left - {i}))
  {
    hide Sum;
    forall a | a in was ensures now[a] == was[a].(delegated := was[a].delegated - Sum(all - (left - {i}), ReturnAt(xs, a))) {
      SumOneMore(all, left, i, ReturnAt(xs, a));
    }
  }

  /** Nobody lends more after entries have expired. */
  lemma ReturnedIsLess(was: map<Account, Plan>, now: map<Account, Plan>, xs: Expirations, done: set<int>)
    requires SharesReturned(was, now, xs, done) && forall i :: i in xs ==> 0 <= xs[i].vests
    ensures forall a :: a in was ==> now[a].delegated <= was[a].delegated
  {
    hide Sum;
    forall a | a in was ensures now[a].delegated <= was[a].delegated {
      var zero: int -> int := i => 0;
      SumZero(done, zero);
      forall i | i in done ensures zero(i) <= ReturnAt(xs, a)(i) {}
      SumMonotone(done, zero, ReturnAt(xs, a));
    }
  }

  /** An account can lend no more than it owns exactly while nothing negative is to be withdrawn. */
  lemma LendingLimit(p: Plan, vests: int)
    ensures Available(p, vests) <= vests - p.delegated <==> 0 <= Remaining(p)
  {
  }

  /** An account with 100 shares asks to withdraw -12 and may then delegate 112. */
  lemma OverlentExample()
    ensures var p := PoweringDown(IDLE, -12, 0);
      && MayPowerDown(IDLE, 100, -12, 1) && Steady(p) && Reserved(p.(delegated := 112), 100)
      && MayDelegate(map[], (5, 6), 112, Available(p, 100), 10, 1)
  {
    RequestIsSteady(IDLE, -12, WITHDRAW_INTERVAL_SECONDS);
  }

  /**
   From its due time until it is replaced, a request fails every pass exactly when its first
   instalment is negative.
   */
  lemma NegativeRequestBlocks(plans: map<Account, Plan>, a: Account, request: int, asked: int, now: int)
    requires a in plans && Steady(plans[a]) && request != 0 && asked + WITHDRAW_INTERVAL_SECONDS <= now
    ensures AllPayable(plans[a := PoweringDown(plans[a], request, asked)], now) <==>
      AllPayable(plans - {a}, now) && (-WITHDRAW_INTERVALS < request || TruncRem(request, RateFor(request)) == 0)
  {
    RequestIsSteady(plans[a], request, asked + WITHDRAW_INTERVAL_SECONDS);
    hide Payable, RateFor;
    var q := PoweringDown(plans[a], request, asked);
    var all, others := plans[a := q], plans - {a};
    assert all[a] == q && forall b :: b in all <==> b == a || b in others;
    assert forall b :: b in others ==> all[b] == others[b];
    if AllPayable(all, now) {
      forall b | b in others && others[b].next <= now && others[b].rate != 0 ensures Payable(others[b]) {
        assert Payable(all[b]);
      }
    }
  }

  /**
   A request must be covered by unlent shares, change the rate, and not come from an account near
   the minimum stake.
   */
  predicate MayPowerDown(p: Plan, vests: int, request: int, fee: int)
  {
    && request <= vests - p.delegated
    && if request == 0 then p.rate != 0 else 10 * fee < vests && p.rate != RateFor(request)
  }

  /** Delegations start at `least`, move by at least `step`, and end at nothing. */
  predicate MayDelegate(ds: Delegations, k: (Account, Account), vests: int, available: int, least: int, step: int)
  {
    if k !in ds then vests <= available && least <= vests
    else if ds[k].vests <= vests then step <= vests - ds[k].vests <= available
    else vests == 0 || (step <= ds[k].vests - vests && least <= vests)
  }

  /**
   One delegation now has the given amount; the delegator is charged for growth only, the delegatee
   follows both ways.
   */
  ghost predicate Redelegated(plans: map<Account, Plan>, ds: Delegations, plans': map<Account, Plan>, ds': Delegations,
                              k: (Account, Account), vests: int)
  {
    && k.0 in plans && k.1 in plans && plans'.Keys == plans.Keys && VestsAt(ds', k) == vests && ds' - {k} == ds - {k}
    && forall a :: a in plans ==> plans'[a] == plans[a].(
         delegated := plans[a].delegated + if a == k.0 then Max(0, vests - VestsAt(ds, k)) else 0,
         received := plans[a].received + if a == k.1 then vests - VestsAt(ds, k) else 0)
  }

  lemma LendingRedelegates(plans: map<Account, Plan>, ds: Delegations, k: (Account, Account), d: Delegation)
    requires k.0 in plans && k.1 in plans && k.0 != k.1 && VestsAt(ds, k) <= d.vests
    ensures var delta := d.vests - VestsAt(ds, k);
      Redelegated(plans, ds, plans[k.0 := plans[k.0].(delegated := plans[k.0].delegated + delta)]
                                  [k.1 := plans[k.1].(received := plans[k.1].received + delta)], ds[k := d], k, d.vests)
  {
  }

  lemma TakingRedelegates(plans: map<Account, Plan>, ds: Delegations, k: (Account, Account), vests: int)
    requires k.0 in plans && k.1 in plans && k in ds && 0 <= vests < ds[k].vests
    ensures Redelegated(plans, ds, plans[k.1 := plans[k.1].(received := plans[k.1].received - (ds[k].vests - vests))],
                        if 0 < vests then ds[k := ds[k].(vests := vests)] else ds - {k}, k, vests)
  {
  }

  /** The expirations after a delegation is set: a decrease waits out the return delay or the minimum lending time. */
  ghost function Returning(xs: Expirations, next: int, ds: Delegations, k: (Account, Account), vests: int, now: int): Expirations
  {
    if k in ds && vests < ds[k].vests then xs[next := Expiration(k.0, ds[k].vests - vests, Max(now + RETURN_DELAY, ds[k].minTime))] else xs
  }

  lemma LentWritten(ds: Delegations, k: (Account, Account), d: Delegation, a: Account)
    requires DelegationOk(k, d) && (k in ds ==> DelegationOk(k, ds[k]))
    ensures SumMap(ds[k := d], LentBy(a)) == SumMap(ds, LentBy(a)) + if a == k.0 then d.vests - VestsAt(ds, k) else 0
    ensures SumMap(ds[k := d], LentTo(a)) == SumMap(ds, LentTo(a)) + if a == k.1 then d.vests - VestsAt(ds, k) else 0
  {
    hide SumMap;
    if k in ds {
      SumMapUpdate(ds, k, d, LentBy(a));
      SumMapUpdate(ds, k, d, LentTo(a));
    } else {
      SumMapInsert(ds, k, d, LentBy(a));
      SumMapInsert(ds, k, d, LentTo(a));
    }
  }

  lemma LentDropped(ds: Delegations, k: (Account, Account), a: Account)
    requires k in ds && DelegationOk(k, ds[k])
    ensures SumMap(ds - {k}, LentBy(a)) == SumMap(ds, LentBy(a)) - if a == k.0 then ds[k].vests else 0
    ensures SumMap(ds - {k}, LentTo(a)) == SumMap(ds, LentTo(a)) - if a == k.1 then ds[k].vests else 0
  {
    hide SumMap;
    SumMapRemove(ds, k, LentBy(a));
    SumMapRemove(ds, k, LentTo(a));
  }

  lemma LendKeeps(plans: map<Account, Plan>, ds: Delegations, xs: Expirations, stakes: map<Account, Stake>,
                  accounts: set<Account>, next: int,
                  k: (Account, Account), d: Delegation)
    requires plans.Keys == accounts && k.0 in plans && k.1 in plans && k.0 in stakes && DelegationOk(k, d)
    requires VestsAt(ds, k) <= d.vests
    requires Exact(plans, ds, xs) && DelegationsOk(ds, xs, accounts, next) && AllReserved(plans, stakes) && AllSteady(plans)
    requires plans[k.0].delegated + Remaining(plans[k.0]) + d.vests - VestsAt(ds, k) <= stakes[k.0].vests
    ensures var delta := d.vests - VestsAt(ds, k);
      var q := plans[k.0 := plans[k.0].(delegated := plans[k.0].delegated + delta)][k.1 := plans[k.1].(received := plans[k.1].received + delta)];
      Exact(q, ds[k := d], xs) && DelegationsOk(ds[k := d], xs, accounts, next) && AllReserved(q, stakes) && AllSteady(q)
  {
    hide SumMap;
    forall a | a in plans
      ensures Lent(ds[k := d], xs, a) == Lent(ds, xs, a) + if a == k.0 then d.vests - VestsAt(ds, k) else 0
      ensures Borrowed(ds[k := d], a) == Borrowed(ds, a) + if a == k.1 then d.vests - VestsAt(ds, k) else 0
    {
      LentWritten(ds, k, d, a);
    }
  }

  lemma TakeBackKeeps(plans: map<Account, Plan>, ds: Delegations, xs: Expirations, stakes: map<Account, Stake>,
                      accounts: set<Account>, next: int,
                      k: (Account, Account), vests: int, x: Expiration)
    requires plans.Keys == accounts && k in ds && 0 <= vests < ds[k].vests && x.delegator == k.0
    requires x.vests == ds[k].vests - vests
    requires Exact(plans, ds, xs) && DelegationsOk(ds, xs, accounts, next) && AllReserved(plans, stakes) && AllSteady(plans)
    ensures k.0 in plans && k.1 in plans
    ensures var q := plans[k.1 := plans[k.1].(received := plans[k.1].received - x.vests)];
      var after := if 0 < vests then ds[k := ds[k].(vests := vests)] else ds - {k};
      Exact(q, after, xs[next := x]) && DelegationsOk(after, xs[next := x], accounts, next + 1) && AllReserved(q, stakes) && AllSteady(q)
  {
    hide SumMap;
    assert DelegationOk(k, ds[k]) && k.0 in accounts && k.1 in accounts;
    var after := if 0 < vests then ds[k := ds[k].(vests := vests)] else ds - {k};
    BorrowedAtLeast(ds, k);
    forall a | a in plans
      ensures Lent(after, xs[next := x], a) == Lent(ds, xs, a)
      ensures Borrowed(after, a) == Borrowed(ds, a) - if a == k.1 then x.vests else 0
    {
      if 0 < vests {
        LentWritten(ds, k, ds[k].(vests := vests), a);
      } else {
        LentDropped(ds, k, a);
      }
      SumMapInsert(xs, next, x, ReturningTo(a));
    }
    assert DelegationsOk(after, xs[next := x], accounts, next + 1);
  }

  lemma BorrowedAtLeast(ds: Delegations, k: (Account, Account))
    requires k in ds && forall i :: i in ds ==> DelegationOk(i, ds[i])
    ensures ds[k].vests <= Borrowed(ds, k.1)
  {
    SumMapBounds(ds, k, LentTo(k.1));
  }

  lemma CountsKept(was: map<Account, Plan>, now: map<Account, Plan>, routes: Routes)
    requires RoutesCounted(was, routes) && now.Keys == was.Keys && forall a :: a in now ==> now[a].routes == was[a].routes
    ensures RoutesCounted(now, routes)
  {
  }

  function Rerouted(routes: Routes, k: (Account, Account), r: Route): Routes
  {
    if r.percent == 0 then routes - {k} else routes[k := r]
  }

  /** Both accounts exist; a new route is not empty and not one too many. */
  predicate RouteAllowed(plans: map<Account, Plan>, routes: Routes, from: Account, to: Account, percent: int)
  {
    && from in plans && to in plans
    && ((from, to) !in routes ==> percent != 0 && plans[from].routes < MAX_WITHDRAW_ROUTES)
  }

  /** The sum the source keeps in sixteen bits. */
  method TotalPercent(routes: Routes, a: Account) returns (total: int)
    requires RoutesOk(routes)
    ensures RouteTotal(routes, a) < 0x1_0000 ==> total == RouteTotal(routes, a)
  {
    hide Sum, RoutesOk;
    total := 0;
    ghost var all := RoutesOf(routes, a);
    var left := RoutesOf(routes, a);
    NothingDone(all, PercentAt(routes));
    while left != {}
      invariant left <= all
      invariant RouteTotal(routes, a) < 0x1_0000 ==> total == Sum(all - left, PercentAt(routes))
      decreases |left|
    {
      var k := Pick(left);
      SumOneMore(all, left, k, PercentAt(routes));
      PartialTotal(routes, all, all - (left - {k}));
      total := (total + routes[k].percent) % 0x1_0000;
      left := left - {k};
    }
    assert all - left == all;
  }

  lemma PartialTotal(routes: Routes, all: set<(Account, Account)>, part: set<(Account, Account)>)
    requires RoutesOk(routes) && part <= all <= routes.Keys
    ensures 0 <= Sum(part, PercentAt(routes)) <= Sum(all, PercentAt(routes))
  {
    assert part + (all - part) == all;
    SumDisjoint(part, all - part, PercentAt(routes));
    PercentsNonNegative(routes, part);
    PercentsNonNegative(routes, all - part);
  }

  lemma PercentsNonNegative(routes: Routes, s: set<(Account, Account)>)
    requires RoutesOk(routes) && s <= routes.Keys
    ensures 0 <= Sum(s, PercentAt(routes))
  {
    SumZero(s, k => 0);
    forall k | k in s ensures 0 <= PercentAt(routes)(k) { assert RouteOk(routes[k]); }
    SumMonotone(s, k => 0, PercentAt(routes));
  }

  lemma RerouteBound(routes: Routes, k: (Account, Account), r: Route, a: Account)
    requires RoutesOk(routes) && RoutesFit(routes) && 0 <= r.percent <= HUNDRED_PERCENT && (k !in routes ==> r.percent != 0)
    ensures RoutesOk(Rerouted(routes, k, r)) && RouteTotal(Rerouted(routes, k, r), a) <= 2 * HUNDRED_PERCENT
    ensures a != k.0 ==> RouteTotal(Rerouted(routes, k, r), a) == RouteTotal(routes, a)
  {
    assert RouteTotal(routes, a) <= HUNDRED_PERCENT;
    if r.percent == 0 {
      RouteDropped(routes, k, a);
      assert RouteOk(routes[k]);
    } else {
      RouteWritten(routes, k, r, a);
    }
  }

  lemma RerouteFits(routes: Routes, k: (Account, Account), r: Route)
    requires RoutesOk(routes) && RoutesFit(routes) && 0 <= r.percent <= HUNDRED_PERCENT && (k !in routes ==> r.percent != 0)
    requires RouteTotal(Rerouted(routes, k, r), k.0) <= HUNDRED_PERCENT
    ensures RoutesFit(Rerouted(routes, k, r))
  {
    forall a ensures RouteTotal(Rerouted(routes, k, r), a) <= HUNDRED_PERCENT {
      RerouteBound(routes, k, r, a);
      assert RouteTotal(routes, a) <= HUNDRED_PERCENT;
    }
  }

  /** The route counter moves with the number of route objects. */
  lemma RouteCountAfter(plans: map<Account, Plan>, routes: Routes, k: (Account, Account), r: Route)
    requires k.0 in plans && k.1 in plans && RoutesCounted(plans, routes)
    requires RouteAllowed(plans, routes, k.0, k.1, r.percent)
    ensures var n := if k !in routes then 1 else if r.percent == 0 then -1 else 0;
      RoutesCounted(plans[k.0 := plans[k.0].(routes := plans[k.0].routes + n)], Rerouted(routes, k, r))
  {
    forall a | a in plans && a != k.0 ensures AllRoutesOf(Rerouted(routes, k, r), a) == AllRoutesOf(routes, a) {
      OthersKeepRoutes(routes, k, r, a);
    }
    OwnRoutes(routes, k, r);
    hide AllRoutesOf, Rerouted;
  }

  lemma OthersKeepRoutes(routes: Routes, k: (Account, Account), r: Route, a: Account)
    requires a != k.0
    ensures AllRoutesOf(Rerouted(routes, k, r), a) == AllRoutesOf(routes, a)
  {
  }

  lemma OwnRoutes(routes: Routes, k: (Account, Account), r: Route)
    requires k !in routes ==> r.percent != 0
    ensures |AllRoutesOf(Rerouted(routes, k, r), k.0)| == |AllRoutesOf(routes, k.0)| + if k !in routes then 1 else if r.percent == 0 then -1 else 0
  {
    var before, after := AllRoutesOf(routes, k.0), AllRoutesOf(Rerouted(routes, k, r), k.0);
    if k !in routes {
      assert after == before + {k};
    } else if r.percent == 0 {
      assert after == before - {k};
    } else {
      assert after == before;
    }
  }

  lemma PromisesKeptByRoutes(plans: map<Account, Plan>, a: Account, ds: Delegations, xs: Expirations,
                             stakes: map<Account, Stake>)
    requires a in plans && Exact(plans, ds, xs) && AllReserved(plans, stakes) && AllSteady(plans)
    ensures forall n :: var q := plans[a := plans[a].(routes := n)]; Exact(q, ds, xs) && AllReserved(q, stakes) && AllSteady(q)
  {
    hide SumMap;
  }

  lemma StakeKeys(db: Database)
    requires db.Valid()
    ensures db.stakes.Keys == db.accounts && db.purses.Keys == db.accounts
  {
  }

  /** Plans that differ only in the withdrawal fields keep the delegation and route counters exact. */
  lemma SamePromises(plans: map<Account, Plan>, a: Account, q: Plan, ds: Delegations, xs: Expirations, routes: Routes)
    requires a in plans && q.delegated == plans[a].delegated && q.received == plans[a].received
    requires q.routes == plans[a].routes
    requires Exact(plans, ds, xs) && RoutesCounted(plans, routes)
    ensures Exact(plans[a := q], ds, xs) && RoutesCounted(plans[a := q], routes)
  {
    hide SumMap;
  }
}
