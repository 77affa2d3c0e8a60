/** Evaluators that move liquid balances, savings, escrows and conversions. */
module Transfers {
  import opened Basics
  import opened Sums
  import opened Assets
  import opened Ledger
  import opened Payments

  /** STEEMIT_SAVINGS_WITHDRAW_REQUEST_LIMIT */
  const SAVINGS_REQUEST_LIMIT: int := 100
  /** STEEMIT_SAVINGS_WITHDRAW_TIME, three days */
  const SAVINGS_WITHDRAW_TIME: int := 3 * 24 * 60 * 60
  /** STEEMIT_CONVERSION_DELAY, twelve times seven hours */
  const CONVERSION_DELAY: int := 12 * 7 * 60 * 60

  /** The purses after x has gone from one account to another, possibly the same one. */
  function Sent(purses: map<Account, Purse>, from: Account, to: Account, x: Asset, now: int, rate: int): map<Account, Purse>
    requires from in purses && to in purses
  {
    var p := purses[from := Credited(purses[from], x.Negate(), now, rate)];
    p[to := Credited(p[to], x, now, rate)]
  }

  /** The same with the savings of the receiver. */
  function Stored(purses: map<Account, Purse>, from: Account, to: Account, x: Asset, now: int, rate: int): map<Account, Purse>
    requires from in purses && to in purses
  {
    var p := purses[from := Credited(purses[from], x.Negate(), now, rate)];
    p[to := CreditedSavings(p[to], x, now, rate)]
  }

  /** Savings that leave for a withdrawal request or come back from one, with the count of open requests. */
  function Requested(purses: map<Account, Purse>, from: Account, x: Asset, requests: int, now: int, rate: int): map<Account, Purse>
    requires from in purses
  {
    var p := CreditedSavings(purses[from], x, now, rate);
    purses[from := p.(savingsRequests := p.savingsRequests + requests)]
  }

  /** transfer: debit first, credit second; each side earns the interest due to it. */
  method Transfer(db: Database, from: Account, to: Account, x: Asset) returns (ok: bool)
    requires db.Valid() && 0 < x.amount && x.symbol != VESTS
    modifies db`purses, db`props
    ensures ok ==> db.Valid()
    ensures ok ==> from in old(db.purses) && to in old(db.purses) && x.amount <= Liquid(old(db.purses)[from], x.symbol)
    ensures ok ==> db.purses == Sent(old(db.purses), from, to, x, db.now, old(db.props.interestRate))
    ensures db.median.Price? ==>
      ok == (from in old(db.purses) && to in old(db.purses) && x.amount <= Liquid(old(db.purses)[from], x.symbol))
  {
    hide SumMap, Moved, OrdersOk, OrdersLinked, EscrowsOk, EscrowsLinked, WithdrawalsOk, WithdrawalsLinked,
      ConversionsOk, ConversionsLinked, StakesOk;
    if from !in db.purses || to !in db.purses || Liquid(db.purses[from], x.symbol) < x.amount {
      return false;
    }
    ok := db.AdjustBalance(from, x.Negate());
    if ok {
      ok := db.AdjustBalance(to, x);
    }
  }

  /** transfer_to_vesting: liquid STEEM becomes vesting shares of the receiver. */
  method TransferToVesting(db: Database, from: Account, to: Account, amount: int) returns (ok: bool)
    requires db.Valid() && 0 < amount
    modifies db`purses, db`stakes, db`props
    ensures ok ==> db.Valid()
    ensures ok == (from in old(db.purses) && to in old(db.purses) && amount <= old(db.purses)[from].steem)
    ensures ok ==>
      db.purses == old(db.purses)[from := old(db.purses)[from].(steem := old(db.purses)[from].steem - amount)]
    ensures ok ==> db.stakes == old(db.stakes)[to := old(db.stakes)[to].(vests := old(db.stakes)[to].vests + SharesFor(amount, old(db.props)))]
  {
    hide SumMap, MulDiv;
    if from !in db.purses || to !in db.purses || db.purses[from].steem < amount {
      return false;
    }
    StakeTotals(db.stakes);
    ok := db.AdjustBalance(from, Asset(-amount, STEEM));
    var shares;
    ok, shares := db.CreateVesting(to, amount, false);
  }

  // ----- savings -----

  method TransferToSavings(db: Database, from: Account, to: Account, x: Asset) returns (ok: bool)
    requires db.Valid() && 0 < x.amount && x.symbol != VESTS
    modifies db`purses, db`props
    ensures ok ==> db.Valid()
    ensures ok ==> from in old(db.purses) && to in old(db.purses) && x.amount <= Liquid(old(db.purses)[from], x.symbol)
    ensures ok ==> db.purses == Stored(old(db.purses), from, to, x, db.now, old(db.props.interestRate))
    ensures db.median.Price? ==>
      ok == (from in old(db.purses) && to in old(db.purses) && x.amount <= Liquid(old(db.purses)[from], x.symbol))
  {
    hide SumMap, Moved, OrdersOk, OrdersLinked, EscrowsOk, EscrowsLinked, WithdrawalsOk, WithdrawalsLinked,
      ConversionsOk, ConversionsLinked, StakesOk;
    if from !in db.purses || to !in db.purses || Liquid(db.purses[from], x.symbol) < x.amount {
      return false;
    }
    ok := db.AdjustBalance(from, x.Negate());
    if ok {
      ok := db.AdjustSavings(to, x);
    }
  }

  /** transfer_from_savings: the amount leaves the savings at once and waits three days in a request. */
  method TransferFromSavings(db: Database, from: Account, to: Account, id: int, x: Asset) returns (ok: bool)
    requires db.Valid() && 0 < x.amount && x.symbol != VESTS
    modifies db`purses, db`props, db`withdrawals
    ensures ok ==> db.Valid()
    ensures ok ==> from in old(db.purses) && to in old(db.purses) && x.amount <= Saved(old(db.purses)[from], x.symbol)
    ensures ok ==> old(db.purses)[from].savingsRequests < SAVINGS_REQUEST_LIMIT && (from, id) !in old(db.withdrawals)
    ensures ok ==> db.purses == Requested(old(db.purses), from, x.Negate(), 1, db.now, old(db.props.interestRate))
    ensures ok ==>
      db.withdrawals == old(db.withdrawals)[(from, id) := Withdrawal(to, x, db.now + SAVINGS_WITHDRAW_TIME)]
    ensures db.median.Price? ==>
      ok == (from in old(db.purses) && to in old(db.purses) && x.amount <= Saved(old(db.purses)[from], x.symbol)
             && old(db.purses)[from].savingsRequests < SAVINGS_REQUEST_LIMIT && (from, id) !in old(db.withdrawals))
  {
    hide SumMap, Moved, OrdersOk, OrdersLinked, EscrowsOk, EscrowsLinked, WithdrawalsOk, WithdrawalsLinked,
      ConversionsOk, ConversionsLinked, StakesOk, PursesOk;
    if from !in db.purses || to !in db.purses || db.purses[from].savingsRequests >= SAVINGS_REQUEST_LIMIT
       || Saved(db.purses[from], x.symbol) < x.amount || (from, id) in db.withdrawals {
      return false;
    }
    ok := db.AdjustSavings(from, x.Negate());
    if ok {
      db.CreateWithdrawal((from, id), Withdrawal(to, x, db.now + SAVINGS_WITHDRAW_TIME));
      CountRequest(db, from, 1);
    }
  }

  method CountRequest(db: Database, a: Account, n: int)
    requires a in db.purses
    modifies db`purses
    ensures db.purses == old(db.purses)[a := old(db.purses)[a].(savingsRequests := old(db.purses)[a].savingsRequests + n)]
    ensures PurseSteem(db.purses) == PurseSteem(old(db.purses)) && PurseSbd(db.purses) == PurseSbd(old(db.purses))
    ensures PursesOk(old(db.purses)) ==> PursesOk(db.purses)
  {
    hide SumMap;
    var p := db.purses[a];
    db.Refill(a, p.(savingsRequests := p.savingsRequests + n));
  }

  /** cancel_transfer_from_savings: the pending amount returns to the savings it came from. */
  method CancelFromSavings(db: Database, from: Account, id: int) returns (ok: bool)
    requires db.Valid()
    modifies db`purses, db`props, db`withdrawals
    ensures ok ==>
      && db.Valid() && (from, id) in old(db.withdrawals) && db.withdrawals == old(db.withdrawals) - {(from, id)}
    ensures ok ==> from in old(db.purses)
    ensures ok ==> db.purses == Requested(old(db.purses), from, old(db.withdrawals)[(from, id)].amount, -1, db.now, old(db.props.interestRate))
    ensures db.median.Price? ==> ok == ((from, id) in old(db.withdrawals))
  {
    hide SumMap, Moved, OrdersOk, OrdersLinked, EscrowsOk, EscrowsLinked, WithdrawalsOk, WithdrawalsLinked,
      ConversionsOk, ConversionsLinked, StakesOk;
    if (from, id) !in db.withdrawals {
      return false;
    }
    db.WithdrawalFacts((from, id));
    ok := db.AdjustSavings(from, db.withdrawals[(from, id)].amount);
    if ok {
      db.RemoveWithdrawal((from, id));
      CountRequest(db, from, -1);
    }
  }

  function DueWithdrawals(requests: map<(Account, int), Withdrawal>, now: int): set<(Account, int)>
  {
    set k | k in requests && requests[k].complete <= now
  }

  /** What the withdrawals owe: the amount to the receiver, and one open request less for the sender. */
  function SavingsBills(requests: map<(Account, int), Withdrawal>, keys: set<(Account, int)>): map<(Account, int), Bill>
  {
    map k | k in requests && k in keys :: Amount(requests[k].to, requests[k].amount).(from := k.0, requests := -1)
  }

  lemma NoBills(requests: map<(Account, int), Withdrawal>, purses: map<Account, Purse>, time: int, rate: int)
    ensures AllSettled(purses, purses, SavingsBills(requests, {}), time, rate) && Plain(SavingsBills(requests, {}))
  {
    NothingSettled<(Account, int)>(purses, time, rate);
    assert SavingsBills(requests, {}) == map[];
  }

  lemma OneMoreSaving(requests: map<(Account, int), Withdrawal>, keys: set<(Account, int)>, k: (Account, int))
    requires k in requests && k !in keys
    ensures k !in SavingsBills(requests, keys)
    ensures SavingsBills(requests, keys + {k}) ==
      SavingsBills(requests, keys)[k := Amount(requests[k].to, requests[k].amount).(from := k.0, requests := -1)]
  {
  }

  /** process_savings_withdraws: every request that is due pays its receiver; the others stay. */
  method ProcessSavingsWithdraws(db: Database) returns (ok: bool)
    requires db.Valid()
    modifies db`purses, db`props, db`withdrawals
    ensures ok ==> db.Valid()
    ensures ok ==> db.withdrawals == old(db.withdrawals) - DueWithdrawals(old(db.withdrawals), db.now)
    ensures ok ==> AllSettled(old(db.purses), db.purses, SavingsBills(old(db.withdrawals), DueWithdrawals(old(db.withdrawals), db.now)),
                              db.now, old(db.props.interestRate))
    ensures ok ==> SameTerms(old(db.props), db.props)
    ensures db.median.Price? ==> ok
  {
    hide SumMap, Moved, Database.Valid, AllSettled, SavingsBills, PayBill, Plain;
    var due := set k | k in db.withdrawals && db.withdrawals[k].complete <= db.now;
    assert due == DueWithdrawals(db.withdrawals, db.now);
    ghost var paid: set<(Account, int)> := {};
    ghost var rate := db.props.interestRate;
    NoBills(db.withdrawals, db.purses, db.now, rate);
    while due != {}
      invariant Plain(SavingsBills(old(db.withdrawals), paid)) && SameTerms(old(db.props), db.props)
      invariant AllSettled(old(db.purses), db.purses, SavingsBills(old(db.withdrawals), paid), db.now, rate)
      invariant db.Valid() && due !! paid && due + paid == DueWithdrawals(old(db.withdrawals), db.now)
      invariant db.withdrawals == old(db.withdrawals) - paid
      decreases |due|
    {
      var k := Pick(due);
      DropOneMore(old(db.withdrawals), paid, k);
      ghost var before := db.purses;
      ok := PayWithdrawal(db, k);
      if !ok {
        return;
      }
      OneMoreSaving(old(db.withdrawals), paid, k);
      ghost var b := Amount(old(db.withdrawals)[k].to, old(db.withdrawals)[k].amount).(from := k.0, requests := -1);
      OneMoreBill(old(db.purses), before, db.purses, SavingsBills(old(db.withdrawals), paid), k, b, db.now, rate);
      due, paid := due - {k}, paid + {k};
    }
    assert paid == DueWithdrawals(old(db.withdrawals), db.now);
    return true;
  }

  method PayWithdrawal(db: Database, k: (Account, int)) returns (ok: bool)
    requires db.Valid() && k in db.withdrawals
    modifies db`purses, db`props, db`withdrawals
    ensures ok ==> db.Valid() && db.withdrawals == old(db.withdrawals) - {k}
    ensures db.median.Price? ==> ok
    ensures ok ==> SameTerms(old(db.props), db.props)
    ensures ok ==> var b := Amount(old(db.withdrawals)[k].to, old(db.withdrawals)[k].amount).(from := k.0, requests := -1);
      && b.to in old(db.purses) && b.from in old(db.purses)
      && db.purses == PayBill(old(db.purses), b, db.now, old(db.props.interestRate))
  {
    hide SumMap, Moved, OrdersOk, OrdersLinked, EscrowsOk, EscrowsLinked, WithdrawalsOk, WithdrawalsLinked,
      ConversionsOk, ConversionsLinked, StakesOk;
    db.WithdrawalFacts(k);
    ok := db.AdjustBalance(db.withdrawals[k].to, db.withdrawals[k].amount);
    if ok {
      CountRequest(db, k.0, -1);
      db.RemoveWithdrawal(k);
    }
  }

  // ----- conversions -----

  /** convert: SBD leaves the balance now and becomes STEEM at the price of a later block. */
  method Convert(db: Database, owner: Account, id: int, sbd: int) returns (ok: bool)
    requires db.Valid() && 0 < sbd
    modifies db`purses, db`props, db`conversions
    ensures ok ==> db.Valid()
    ensures ok == (owner in old(db.purses) && sbd <= old(db.purses)[owner].sbd.balance && db.median.Price? && (owner, id) !in old(db.conversions))
    ensures ok ==> db.purses == old(db.purses)[owner := Credited(old(db.purses[owner]), Asset(-sbd, SBD), db.now, old(db.props.interestRate))]
    ensures ok ==> db.conversions == old(db.conversions)[(owner, id) := Conversion(sbd, db.now + CONVERSION_DELAY)]
  {
    hide SumMap, Moved, WithdrawalsOk, WithdrawalsLinked, PursesOk, StakesOk;
    if owner !in db.purses || db.purses[owner].sbd.balance < sbd || db.median.NoPrice? || (owner, id) in db.conversions {
      return false;
    }
    ok := db.AdjustBalance(owner, Asset(-sbd, SBD));
    db.CreateConversion((owner, id), Conversion(sbd, db.now + CONVERSION_DELAY));
  }

  function DueConversions(requests: map<(Account, int), Conversion>, now: int): set<(Account, int)>
  {
    set k | k in requests && requests[k].date <= now
  }

  /** The STEEM one account is due for a set of requests, each rounded down on its own. */
  ghost function Issued(requests: map<(Account, int), Conversion>, keys: set<(Account, int)>, a: Account, price: Price): int
    requires price.Price? && 0 < price.sbd
  {
    Sum(keys, k => if k in requests && k.0 == a then ToSteem(price, requests[k].sbd) else 0)
  }

  /** Every owner has received exactly the STEEM issued for the given requests, and nobody anything else. */
  ghost predicate AllPaidOut(before: map<Account, Purse>, requests: map<(Account, int), Conversion>,
                             keys: set<(Account, int)>,
                             price: Price, after: map<Account, Purse>)
    requires price.Price? && 0 < price.sbd
  {
    && after.Keys == before.Keys
    && forall a :: a in before ==> after[a] == before[a].(steem := before[a].steem + Issued(requests, keys, a, price))
  }

  lemma PaidOutOneMore(start: map<Account, Purse>, requests: map<(Account, int), Conversion>, keys: set<(Account, int)>,
                       k: (Account, int),
                       price: Price, before: map<Account, Purse>, after: map<Account, Purse>)
    requires price.Price? && 0 < price.sbd && k !in keys && k in requests && k.0 in before
    requires AllPaidOut(start, requests, keys, price, before)
    requires after == before[k.0 := before[k.0].(steem := before[k.0].steem + ToSteem(price, requests[k].sbd))]
    ensures AllPaidOut(start, requests, keys + {k}, price, after)
  {
    hide MulDiv;
    forall a | a in start ensures after[a] == start[a].(steem := start[a].steem + Issued(requests, keys + {k}, a, price)) {
      IssuedOneMore(requests, keys, k, a, price);
    }
  }

  lemma NothingPaidOut(start: map<Account, Purse>, requests: map<(Account, int), Conversion>, price: Price)
    requires price.Price? && 0 < price.sbd
    ensures AllPaidOut(start, requests, {}, price, start)
  {
  }

  lemma IssuedOneMore(requests: map<(Account, int), Conversion>, keys: set<(Account, int)>, k: (Account, int),
                      a: Account, price: Price)
    requires price.Price? && 0 < price.sbd && k !in keys && k in requests
    ensures Issued(requests, keys + {k}, a, price) == Issued(requests, keys, a, price) + if k.0 == a then ToSteem(price, requests[k].sbd) else 0
  {
    hide MulDiv;
    assert keys + {k} - {k} == keys;
    SumTake(keys + {k}, k, x => if x in requests && x.0 == a then ToSteem(price, requests[x].sbd) else 0);
  }

  /**
   process_conversions: every due request is paid at the median price and removed; the STEEM
   issued enters the supply and the SBD converted leaves it.
   */
  method ProcessConversions(db: Database)
    requires db.Valid()
    modifies db`purses, db`props, db`conversions
    ensures db.Valid()
    ensures db.props == old(db.props).(currentSupply := db.props.currentSupply, sbdSupply := db.props.sbdSupply, virtualSupply := db.props.virtualSupply)
    ensures db.median.NoPrice? ==> unchanged(db)
    ensures db.median.Price? ==>
      && db.conversions == old(db.conversions) - DueConversions(old(db.conversions), db.now)
      && AllPaidOut(old(db.purses), old(db.conversions), DueConversions(old(db.conversions), db.now), db.median, db.purses)
  {
    hide SumMap, MulDiv, OrdersOk, OrdersLinked, EscrowsOk, EscrowsLinked, WithdrawalsOk, WithdrawalsLinked, ConversionsOk, ConversionsLinked,
         PursesOk, StakesOk, AllPaidOut;
    if db.median.NoPrice? {
      return;
    }
    var netSbd, netSteem := PayDueConversions(db);
    db.props := db.props.(currentSupply := db.props.currentSupply + netSteem, sbdSupply := db.props.sbdSupply - netSbd,
                          virtualSupply := db.props.virtualSupply + netSteem - ToSteem(db.median, netSbd));
  }

  method FindDue(requests: map<(Account, int), Conversion>, now: int) returns (due: set<(Account, int)>)
    ensures due == DueConversions(requests, now)
  {
    due := set k | k in requests && requests[k].date <= now;
  }

  /** The loop over the due requests, with the totals the supplies must follow. */
  method PayDueConversions(db: Database) returns (netSbd: int, netSteem: int)
    requires db.Linked() && db.Covered() && db.median.Price?
    modifies db`purses, db`conversions
    ensures db.Linked() && db.Covered()
    ensures db.conversions == old(db.conversions) - DueConversions(old(db.conversions), db.now)
    ensures AllPaidOut(old(db.purses), old(db.conversions), DueConversions(old(db.conversions), db.now), db.median, db.purses)
    ensures PurseSteem(db.purses) == PurseSteem(old(db.purses)) + netSteem && PurseSbd(db.purses) == PurseSbd(old(db.purses))
    ensures ConversionSbd(db.conversions) == ConversionSbd(old(db.conversions)) - netSbd
  {
    hide SumMap, MulDiv, OrdersOk, OrdersLinked, EscrowsOk, EscrowsLinked, WithdrawalsOk, WithdrawalsLinked, ConversionsOk, ConversionsLinked,
         PursesOk, StakesOk, AllPaidOut;
    ghost var all := DueConversions(db.conversions, db.now);
    var due := FindDue(db.conversions, db.now);
    netSbd, netSteem := 0, 0;
    NothingPaidOut(db.purses, db.conversions, db.median);
    assert all - due == {};
    while due != {}
      invariant db.Linked() && db.Covered() && due <= all
      invariant PurseSteem(db.purses) == PurseSteem(old(db.purses)) + netSteem && PurseSbd(db.purses) == PurseSbd(old(db.purses))
      invariant ConversionSbd(db.conversions) == ConversionSbd(old(db.conversions)) - netSbd
      invariant db.conversions == old(db.conversions) - (all - due)
      invariant AllPaidOut(old(db.purses), old(db.conversions), all - due, db.median, db.purses)
      decreases |due|
    {
      var k := Pick(due);
      ghost var before, paid := db.purses, all - due;
      assert k in db.conversions && db.conversions[k] == old(db.conversions)[k];
      netSbd := netSbd + db.conversions[k].sbd;
      var issue := PayConversion(db, k);
      netSteem := netSteem + issue;
      DropOneMore(old(db.conversions), paid, k);
      PaidOutOneMore(old(db.purses), old(db.conversions), paid, k, db.median, before, db.purses);
      due := due - {k};
      assert all - due == paid + {k};
    }
    assert all - due == all;
  }

  /** One due request; the supplies follow after the loop. */
  method PayConversion(db: Database, k: (Account, int)) returns (issue: int)
    requires db.Linked() && db.Covered() && k in db.conversions && db.median.Price?
    modifies db`purses, db`conversions
    ensures db.Linked() && db.Covered() && issue == ToSteem(db.median, old(db.conversions)[k].sbd)
    ensures db.purses == old(db.purses)[k.0 := old(db.purses)[k.0].(steem := old(db.purses)[k.0].steem + issue)]
    ensures db.conversions == old(db.conversions) - {k}
    ensures PurseSteem(db.purses) == PurseSteem(old(db.purses)) + issue
    ensures PurseSbd(db.purses) == PurseSbd(old(db.purses))
    ensures ConversionSbd(db.conversions) == ConversionSbd(old(db.conversions)) - old(db.conversions)[k].sbd
  {
    hide SumMap, MulDiv;
    issue := ToSteem(db.median, db.conversions[k].sbd);
    MulDivBounds(db.conversions[k].sbd, db.median.steem, db.median.sbd);
    var p := db.purses[k.0];
    db.Refill(k.0, p.(steem := p.steem + issue));
    db.RemoveConversion(k);
  }
}
