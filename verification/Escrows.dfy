/** Escrow evaluators: money held by the chain until the parties or their agent release it. */
module Escrows {
  import opened Basics
  import opened Sums
  import opened Assets
  import opened Ledger
  import opened Payments

  /** escrow_transfer: amounts and fee leave the sender and wait in a new escrow. */
  method EscrowTransfer(db: Database, from: Account, to: Account, agent: Account, id: int,
                        steem: int, sbd: int, fee: Asset, deadline: int, expiration: int) returns (ok: bool)
    requires db.Valid() && 0 <= steem && 0 <= sbd && 0 <= fee.amount && fee.symbol != VESTS
    modifies db`purses, db`props, db`escrows
    ensures ok ==> db.Valid()
    ensures ok ==>
      && from in old(db.purses) && to in old(db.purses) && agent in old(db.purses) && (from, id) !in old(db.escrows)
    ensures ok ==> db.now < deadline && db.now < expiration
    ensures ok ==> db.escrows == old(db.escrows)[(from, id) := Escrow(to, agent, deadline, expiration, steem, sbd, fee, false, false, false)]
    ensures ok ==>
      db.purses == old(db.purses)[from := CreditedBoth(old(db.purses[from]), -steem - AmountIn(fee, STEEM), -sbd - AmountIn(fee, SBD),
                                                       db.now, old(db.props.interestRate))]
    ensures db.median.Price? ==>
      ok == (from in old(db.purses) && to in old(db.purses) && agent in old(db.purses) && (from, id) !in old(db.escrows)
             && db.now < deadline && db.now < expiration
             && steem + AmountIn(fee, STEEM) <= old(db.purses)[from].steem
             && sbd + AmountIn(fee, SBD) <= old(db.purses)[from].sbd.balance)
  {
    hide SumMap, CreditedBoth, Moved, OrdersOk, OrdersLinked, EscrowsOk, EscrowsLinked, ConversionsOk,
      ConversionsLinked, WithdrawalsOk, WithdrawalsLinked, StakesOk, PursesOk;
    if from !in db.purses || to !in db.purses || agent !in db.purses || deadline <= db.now || expiration <= db.now || (from, id) in db.escrows {
      return false;
    }
    var steemSpent := steem + if fee.symbol == STEEM then fee.amount else 0;
    var sbdSpent := sbd + if fee.symbol == STEEM then 0 else fee.amount;
    if db.purses[from].steem < steemSpent || db.purses[from].sbd.balance < sbdSpent {
      return false;
    }
    ok := db.AdjustBoth(from, -steemSpent, -sbdSpent);
    if ok {
      db.CreateEscrow((from, id), Escrow(to, agent, deadline, expiration, steem, sbd, fee, false, false, false));
    }
  }

  /** The purses after an escrow's amounts and fee have gone back to their sender. */
  function Returned(purses: map<Account, Purse>, from: Account, e: Escrow, now: int, rate: int): map<Account, Purse>
    requires from in purses
  {
    purses[from := Credited(CreditedBoth(purses[from], e.steem, e.sbd, now, rate), e.fee, now, rate)]
  }

  /** Late interest can raise the virtual supply and nothing lowers it; the STEEM supply stays. */
  ghost predicate SupplyKept(was: Props, now: Props)
  {
    now.currentSupply == was.currentSupply && was.virtualSupply <= now.virtualSupply
  }

  /** Everything an escrow holds goes back to the sender. */
  method Refund(db: Database, k: (Account, int)) returns (ok: bool)
    requires db.Valid() && k in db.escrows
    modifies db`purses, db`props, db`escrows
    ensures ok ==> db.Valid() && db.escrows == old(db.escrows) - {k}
    ensures db.median.Price? ==> ok
    ensures ok ==> db.purses == Returned(old(db.purses), k.0, old(db.escrows)[k], db.now, old(db.props.interestRate))
    ensures ok ==> SupplyKept(old(db.props), db.props) && SameTerms(old(db.props), db.props)
  {
    hide SumMap, CreditedBoth, Moved, OrdersOk, OrdersLinked, EscrowsOk, EscrowsLinked, WithdrawalsOk,
      WithdrawalsLinked, ConversionsOk, ConversionsLinked, StakesOk;
    db.EscrowFacts(k);
    var e := db.escrows[k];
    ok := db.AdjustBoth(k.0, e.steem, e.sbd);
    if ok {
      ok := db.AdjustBalance(k.0, e.fee);
      if ok {
        db.RemoveEscrow(k);
      }
    }
  }

  /** Each party answers once, naming the same parties as the escrow, no later than the ratification deadline. */
  predicate Approvable(e: Escrow, to: Account, agent: Account, who: Account, now: int)
  {
    e.to == to && e.agent == agent && now <= e.deadline && (who == to ==> !e.toApproved) && (who == agent ==> !e.agentApproved)
  }

  /** escrow_approve: a rejection refunds everything; the second approval pays the agent's fee. */
  method EscrowApprove(db: Database, from: Account, id: int, to: Account, agent: Account, who: Account, approve: bool)
    returns (ok: bool)
    requires db.Valid() && (who == to || who == agent)
    modifies db`purses, db`props, db`escrows
    ensures ok ==> db.Valid() && (from, id) in old(db.escrows)
    ensures ok ==> from in old(db.purses) && agent in old(db.purses)
    ensures ok ==> Approvable(old(db.escrows)[(from, id)], to, agent, who, db.now)
    ensures db.median.Price? ==>
      ok == ((from, id) in old(db.escrows) && Approvable(old(db.escrows)[(from, id)], to, agent, who, db.now))
    ensures ok && !approve ==> db.escrows == old(db.escrows) - {(from, id)}
    ensures ok && !approve ==>
      db.purses == Returned(old(db.purses), from, old(db.escrows)[(from, id)], db.now, old(db.props.interestRate))
    ensures ok && approve ==> var e := old(db.escrows)[(from, id)];
      var f := e.(toApproved := e.toApproved || who == to, agentApproved := e.agentApproved || who == agent);
      && db.escrows == old(db.escrows)[(from, id) := if f.toApproved && f.agentApproved then f.(fee := f.fee.(amount := 0)) else f]
      && db.purses == if f.toApproved && f.agentApproved
                      then old(db.purses)[agent := Credited(old(db.purses)[agent], e.fee, db.now, old(db.props.interestRate))] else old(db.purses)
  {
    hide SumMap, CreditedBoth, Moved, OrdersOk, OrdersLinked, EscrowsOk, EscrowsLinked, WithdrawalsOk,
      WithdrawalsLinked, ConversionsOk, ConversionsLinked, StakesOk;
    var k := (from, id);
    if k !in db.escrows {
      return false;
    }
    db.EscrowFacts(k);
    var e := db.escrows[k];
    if e.to != to || e.agent != agent || e.deadline < db.now || (who == to && e.toApproved) || (who == agent && e.agentApproved) {
      return false;
    }
    if !approve {
      ok := Refund(db, k);
      return;
    }
    ok := Ratify(db, k, e.(toApproved := e.toApproved || who == to, agentApproved := e.agentApproved || who == agent));
  }

  /** An approval is recorded, and the fee paid out once both parties have approved. */
  method Ratify(db: Database, k: (Account, int), f: Escrow) returns (ok: bool)
    requires db.Valid() && k in db.escrows
    requires f == db.escrows[k].(toApproved := f.toApproved, agentApproved := f.agentApproved)
    modifies db`purses, db`props, db`escrows
    ensures ok ==> db.Valid()
    ensures ok ==>
      db.escrows == old(db.escrows)[k := if f.toApproved && f.agentApproved then f.(fee := f.fee.(amount := 0)) else f]
    ensures db.median.Price? ==> ok
    ensures ok ==> db.purses == if f.toApproved && f.agentApproved
      then old(db.purses)[f.agent := Credited(old(db.purses)[f.agent], f.fee, db.now, old(db.props.interestRate))] else old(db.purses)
  {
    hide SumMap, CreditedBoth, Moved, OrdersOk, OrdersLinked, EscrowsOk, EscrowsLinked, WithdrawalsOk,
      WithdrawalsLinked, ConversionsOk, ConversionsLinked, StakesOk, PursesOk;
    db.EscrowFacts(k);
    PurseAt(db.purses, f.agent);
    if f.toApproved && f.agentApproved {
      ok := db.AdjustBalance(f.agent, f.fee);
      if ok {
        db.ModifyEscrow(k, f.(fee := f.fee.(amount := 0)));
      }
    } else {
      db.ModifyEscrow(k, f);
      ok := true;
    }
  }

  method EscrowDispute(db: Database, from: Account, id: int, to: Account, agent: Account) returns (ok: bool)
    requires db.Valid()
    modifies db`escrows
    ensures db.Valid()
    ensures ok == ((from, id) in old(db.escrows) && var e := old(db.escrows)[(from, id)];
                   db.now < e.expiration && e.toApproved && e.agentApproved && !e.disputed && e.to == to && e.agent == agent)
    ensures db.escrows == if ok then old(db.escrows)[(from, id) := old(db.escrows)[(from, id)].(disputed := true)] else old(db.escrows)
  {
    hide SumMap;
    var k := (from, id);
    if k !in db.escrows {
      return false;
    }
    var e := db.escrows[k];
    if e.expiration <= db.now || !e.toApproved || !e.agentApproved || e.disputed || e.to != to || e.agent != agent {
      return false;
    }
    db.ModifyEscrow(k, e.(disputed := true));
    return true;
  }

  /** Who may send escrowed money where. */
  predicate MayRelease(e: Escrow, from: Account, who: Account, receiver: Account, now: int)
  {
    && (receiver == from || receiver == e.to) && e.toApproved && e.agentApproved
    && if e.disputed then who == e.agent
       else (who == from || who == e.to) && (now < e.expiration ==> if who == from then receiver == e.to else receiver == from)
  }

  /** escrow_release: part of the held amounts goes to a permitted receiver; an empty escrow disappears. */
  method EscrowRelease(db: Database, from: Account, id: int, to: Account, agent: Account, who: Account,
                       receiver: Account,
                       steem: int, sbd: int) returns (ok: bool)
    requires db.Valid() && 0 <= steem && 0 <= sbd
    modifies db`purses, db`props, db`escrows
    ensures ok ==> db.Valid() && (from, id) in old(db.escrows)
    ensures ok ==> var e := old(db.escrows)[(from, id)];
      && steem <= e.steem && sbd <= e.sbd && e.to == to && e.agent == agent
      && MayRelease(e, from, who, receiver, db.now)
      && var left := e.(steem := e.steem - steem, sbd := e.sbd - sbd);
         db.escrows == if left.steem == 0 && left.sbd == 0 then old(db.escrows) - {(from, id)} else old(db.escrows)[(from, id) := left]
    ensures ok ==>
      db.purses == old(db.purses)[receiver := CreditedBoth(old(db.purses[receiver]), steem, sbd, db.now, old(db.props.interestRate))]
    ensures db.median.Price? ==>
      ok == ((from, id) in old(db.escrows) && var e := old(db.escrows)[(from, id)];
             steem <= e.steem && sbd <= e.sbd && e.to == to && e.agent == agent && MayRelease(e, from, who, receiver, db.now))
    ensures ok ==> receiver in old(db.purses)
  {
    hide SumMap, CreditedBoth, Moved, OrdersOk, OrdersLinked, EscrowsOk, EscrowsLinked, WithdrawalsOk,
      WithdrawalsLinked, ConversionsOk, ConversionsLinked, StakesOk;
    var k := (from, id);
    if k !in db.escrows {
      return false;
    }
    db.EscrowFacts(k);
    var e := db.escrows[k];
    if receiver !in db.purses || e.steem < steem || e.sbd < sbd || e.to != to || e.agent != agent || (receiver != from && receiver != e.to)
       || !e.toApproved || !e.agentApproved {
      return false;
    }
    if e.disputed {
      if who != e.agent {
        return false;
      }
    } else if (who != from && who != e.to) || (db.now < e.expiration && (if who == from then receiver != e.to else receiver != from)) {
      return false;
    }
    ok := db.AdjustBoth(receiver, steem, sbd);
    if ok {
      SettleEscrow(db, k, steem, sbd);
    }
  }

  /** The released amounts leave the escrow record. */
  method SettleEscrow(db: Database, k: (Account, int), steem: int, sbd: int)
    requires k in db.escrows && steem <= db.escrows[k].steem && sbd <= db.escrows[k].sbd
    requires EscrowsOk(db.escrows) && EscrowsLinked(db.escrows, db.accounts)
    requires db.escrows[k].toApproved && db.escrows[k].agentApproved
    modifies db`escrows
    ensures EscrowsOk(db.escrows) && EscrowsLinked(db.escrows, db.accounts)
    ensures var e := old(db.escrows)[k]; var left := e.(steem := e.steem - steem, sbd := e.sbd - sbd);
      db.escrows == if left.steem == 0 && left.sbd == 0 then old(db.escrows) - {k} else old(db.escrows)[k := left]
    ensures EscrowSteem(db.escrows) == EscrowSteem(old(db.escrows)) - steem && EscrowSbd(db.escrows) == EscrowSbd(old(db.escrows)) - sbd
  {
    hide SumMap;
    var e := db.escrows[k];
    var left := e.(steem := e.steem - steem, sbd := e.sbd - sbd);
    if left.steem == 0 && left.sbd == 0 {
      db.RemoveEscrow(k);
    } else {
      db.ModifyEscrow(k, left);
    }
  }

  function Expired(escrows: map<(Account, int), Escrow>, now: int): set<(Account, int)>
  {
    set k | k in escrows && !(escrows[k].toApproved && escrows[k].agentApproved) && escrows[k].deadline <= now
  }

  /** What an escrow gives back: both amounts and the fee. */
  function RefundBill(from: Account, e: Escrow): Bill
  {
    var fee := Amount(from, e.fee);
    Bill(from, e.steem + fee.steem, e.sbd + fee.sbd, true, from, 0)
  }

  function RefundBills(escrows: map<(Account, int), Escrow>, keys: set<(Account, int)>): map<(Account, int), Bill>
  {
    map k | k in escrows && k in keys :: RefundBill(k.0, escrows[k])
  }

  lemma ReturnedIsBill(purses: map<Account, Purse>, from: Account, e: Escrow, now: int, rate: int)
    requires from in purses && e.fee.symbol != VESTS
    ensures Returned(purses, from, e, now, rate) == PayBill(purses, RefundBill(from, e), now, rate)
  {
    var p := Received(purses[from], e.steem, e.sbd, true, 0, now, rate);
    assert CreditedBoth(purses[from], e.steem, e.sbd, now, rate) == p;
    hide Moved;
    var fee := Amount(from, e.fee);
    assert Credited(p, e.fee, now, rate) == Received(p, fee.steem, fee.sbd, fee.moves, 0, now, rate);
    SettledTwice(purses[from], e.steem, fee.steem, e.sbd, fee.sbd, true, fee.moves, 0, 0, now, rate);
  }

  lemma RefundMoves(from: Account, e: Escrow)
    ensures RefundBill(from, e).moves && RefundBill(from, e).to == RefundBill(from, e).from == from
  {
  }

  lemma OneMoreRefund(escrows: map<(Account, int), Escrow>, keys: set<(Account, int)>, k: (Account, int))
    requires k in escrows && k !in keys
    ensures k !in RefundBills(escrows, keys)
    ensures RefundBills(escrows, keys + {k}) == RefundBills(escrows, keys)[k := RefundBill(k.0, escrows[k])]
  {
  }

  lemma NoRefunds(escrows: map<(Account, int), Escrow>, purses: map<Account, Purse>, time: int, rate: int)
    ensures AllSettled(purses, purses, RefundBills(escrows, {}), time, rate) && Plain(RefundBills(escrows, {}))
  {
    NothingSettled<(Account, int)>(purses, time, rate);
    assert RefundBills(escrows, {}) == map[];
  }

  /** expire_escrow_ratification: exactly the escrows not ratified in time are refunded and removed. */
  method ExpireEscrows(db: Database) returns (ok: bool)
    requires db.Valid()
    modifies db`purses, db`props, db`escrows
    ensures ok ==> db.Valid() && db.escrows == old(db.escrows) - Expired(old(db.escrows), db.now)
    ensures db.median.Price? ==> ok
    ensures ok ==> SupplyKept(old(db.props), db.props) && SameTerms(old(db.props), db.props)
    ensures ok ==> AllSettled(old(db.purses), db.purses, RefundBills(old(db.escrows), Expired(old(db.escrows), db.now)),
                              db.now, old(db.props.interestRate))
  {
    hide SumMap, Database.Valid, AllSettled, RefundBills, PayBill, Plain, Returned, RefundBill;
    ghost var rate := db.props.interestRate;
    NoRefunds(db.escrows, db.purses, db.now, rate);
    ghost var all := Expired(db.escrows, db.now);
    var due := set k | k in db.escrows && (!db.escrows[k].toApproved || !db.escrows[k].agentApproved) && db.escrows[k].deadline <= db.now;
    assert due == all;
    assert all - due == {};
    while due != {}
      invariant
        && db.Valid() && due <= all && db.escrows == old(db.escrows) - (all - due)
        && SupplyKept(old(db.props), db.props) && SameTerms(old(db.props), db.props)
      invariant Plain(RefundBills(old(db.escrows), all - due))
      invariant AllSettled(old(db.purses), db.purses, RefundBills(old(db.escrows), all - due), db.now, rate)
      decreases |due|
    {
      var k := Pick(due);
      DropOneMore(old(db.escrows), all - due, k);
      ghost var before := db.purses;
      db.EscrowFacts(k);
      ReturnedIsBill(before, k.0, db.escrows[k], db.now, rate);
      OneMoreRefund(old(db.escrows), all - due, k);
      ok := Refund(db, k);
      if !ok {
        return;
      }
      RefundMoves(k.0, old(db.escrows)[k]);
      OneMoreBill(old(db.purses), before, db.purses, RefundBills(old(db.escrows), all - due), k,
                  RefundBill(k.0, old(db.escrows)[k]), db.now, rate);
      assert all - (due - {k}) == all - due + {k};
      due := due - {k};
    }
    assert all - due == all;
    return true;
  }
}
