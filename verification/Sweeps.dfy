/** Blocks as values: what the end of one does to the chain's image, and one account's power-down over many. */
module Sweeps {
  import opened Basics
  import opened Sums
  import opened Assets
  import opened Division
  import opened Ledger
  import opened Payments
  import opened Transfers
  import opened Claims
  import opened Curves
  import opened Curation
  import opened Rewards
  import E = Escrows
  import M = Market
  import S = Staking
  import P = PowerPlans
  import PD = PowerDown
  import I = Inflation
  import V = VoteTally
  import SV = StakeVotes
  import Proxies
  import Witnesses
  import opened Operations

  datatype Block = Block(operations: seq<Operation>, time: int, median: Price, rate: int, head: int, producer: Account, weight: int, factor: int)

  ghost predicate BlockOk(b: Block)
  {
    b.time < NEVER && Sound(b.median) && 0 <= b.rate && 0 <= b.weight && 0 < b.factor
  }

  /** Applied, undone, or outside the states in which the chain's invariants are kept. */
  datatype Verdict = Accepted | Refused | Outside

  /** The cashout of a block at this time adds up claims past 128 bits. */
  ghost predicate Overflows(time: int, i: Image, curve: Curve)
  {
    CurveOk(curve) && i.ledger.funds != [] && !ClaimsFit(i.ledger.funds[POST_FUND], i.posts.comments, curve, time)
  }

  ghost predicate NullIdle(plans: map<Account, P.Plan>)
  {
    && NULL_ACCOUNT in plans && plans[NULL_ACCOUNT].delegated == 0
    && SameWithdrawal(S.IDLE, plans[NULL_ACCOUNT])
  }

  // ----- what the end of a block does -----

  /** Clearing the expired orders, at the time of the block. */
  ghost predicate OrdersExpire(time: int, i: Image, j: Image)
  {
    var l, m, due := i.ledger, j.ledger, M.Expired(i.ledger.orders, time);
    && j == i.(ledger := l.(now := time, orders := l.orders - due, purses := m.purses, props := m.props))
    && SameTerms(l.props, m.props)
    && AllSettled(l.purses, m.purses, M.CancelBills(l.orders, due), time, l.props.interestRate)
  }

  /** Clearing the expired delegations. */
  ghost predicate SharesReturn(i: Image, j: Image)
  {
    var s, t, due := i.staking, j.staking, S.Overdue(i.staking.expirations, i.ledger.now);
    j == i.(staking := s.(plans := t.plans, expirations := s.expirations - due)) && S.SharesReturned(s.plans, t.plans, s.expirations, due)
  }

  /** The virtual supply and the print rate recomputed from the two supplies and the feed. */
  ghost predicate Repriced(p: Props, q: Props, median: Price)
  {
    && Sound(median)
    && var worth := if median.Price? then ToSteem(median, p.sbdSupply) else 0;
       && q == p.(virtualSupply := p.currentSupply + worth, printRate := q.printRate)
       && q.printRate == if median.Price? && 0 < q.virtualSupply then PrintRate(MulDiv(worth, HUNDRED_PERCENT, q.virtualSupply)) else p.printRate
  }

  /** The new feed and interest rate, and the supply. */
  ghost predicate FeedTaken(b: Block, i: Image, j: Image)
  {
    var l, m := i.ledger, j.ledger;
    j == i.(ledger := l.(median := b.median, props := m.props)) && Repriced(l.props.(interestRate := b.rate), m.props, b.median)
  }

  /** Everything the null account holds is burned. */
  ghost predicate NullBurns(i: Image, j: Image)
  {
    var l, m := i.ledger, j.ledger;
    && j == i.(ledger := l.(purses := m.purses, stakes := m.stakes, props := m.props), votes := j.votes)
    && SameDecisions(i.votes, j.votes)
    && NULL_ACCOUNT in l.purses && NULL_ACCOUNT in l.stakes && NULL_ACCOUNT in m.purses && NULL_ACCOUNT in m.stakes
    && var p, s := l.purses[NULL_ACCOUNT], l.stakes[NULL_ACCOUNT];
       && m.purses == l.purses[NULL_ACCOUNT := m.purses[NULL_ACCOUNT]]
       && Drained(p, m.purses[NULL_ACCOUNT], l.now, l.props.interestRate)
       && m.stakes == l.stakes[NULL_ACCOUNT := Stake(0, 0, if 0 < s.rewardVests then 0 else s.rewardVestSteem)]
       && Burned(l.props, m.props, p, s)
  }

  /** The new STEEM of the block. */
  ghost predicate FundsGrow(b: Block, i: Image, j: Image)
  {
    var l, m := i.ledger, j.ledger;
    && j == i.(ledger := l.(funds := m.funds, stakes := m.stakes, props := m.props), votes := j.votes)
    && SameDecisions(i.votes, j.votes)
    && I.Minted(l.funds, m.funds, l.props, m.props, l.stakes, m.stakes, b.head, b.producer, b.weight, b.factor)
  }

  /** Due conversions are paid at the median price; without one they wait. */
  ghost predicate ConversionsPaid(i: Image, j: Image)
  {
    var l, m := i.ledger, j.ledger;
    if l.median.NoPrice? then j == i else
    var due := DueConversions(l.conversions, l.now);
    && j == i.(ledger := l.(purses := m.purses, props := m.props, conversions := l.conversions - due))
    && 0 < l.median.sbd && AllPaidOut(l.purses, l.conversions, due, l.median, m.purses)
    && m.props == l.props.(currentSupply := m.props.currentSupply, sbdSupply := m.props.sbdSupply, virtualSupply := m.props.virtualSupply)
  }

  /** Due comments are paid from the fund. */
  ghost predicate CommentsPaid(author: Curve, i: Image, j: Image)
  {
    var l, m, f, g := i.ledger, j.ledger, i.posts, j.posts;
    && j == i.(ledger := l.(purses := m.purses, stakes := m.stakes, props := m.props, funds := m.funds), posts := f.(comments := g.comments, payouts := g.payouts))
    && Paying(f.comments, g.comments, {}, DueComments(f.comments, l.now), l.now) && f.payouts <= g.payouts
    && CashedOut(f.comments, f.votes, author, l.median, l.props.printRate, l.now, l.funds, m.funds, l.stakes, m.stakes, l.purses, m.purses)
    && m.props.interestRate == l.props.interestRate
  }

  /** Due power-downs pay the given instalments, to the owners and along their routes, and the votes follow. */
  ghost predicate PowerDownsPaid(paid: seq<PD.Payment>, i: Image, j: Image)
  {
    var l, m, s, t := i.ledger, j.ledger, i.staking, j.staking;
    && j == i.(ledger := l.(purses := m.purses, stakes := m.stakes, props := m.props), staking := s.(plans := t.plans), votes := j.votes)
    && SameDecisions(i.votes, j.votes) && Instalments(s.plans, t.plans, l.now)
    && (forall a :: a in s.plans && a in t.plans ==> t.plans[a].withdrawn == s.plans[a].withdrawn + PD.PaidBy(paid, a))
    && PD.PoweredDown(s.routes, paid, PD.Pool(l.purses, l.props.vestingFund, l.props.vestingShares),
                      PD.Pool(m.purses, m.props.vestingFund, m.props.vestingShares), l.stakes, m.stakes)
    && m.props == l.props.(vestingFund := m.props.vestingFund, vestingShares := m.props.vestingShares)
  }

  /** Due savings withdrawals reach their receivers. */
  ghost predicate SavingsPaid(i: Image, j: Image)
  {
    var l, m, due := i.ledger, j.ledger, DueWithdrawals(i.ledger.withdrawals, i.ledger.now);
    && j == i.(ledger := l.(purses := m.purses, props := m.props, withdrawals := l.withdrawals - due))
    && SameTerms(l.props, m.props)
    && AllSettled(l.purses, m.purses, SavingsBills(l.withdrawals, due), l.now, l.props.interestRate)
  }

  ghost predicate SupplyUpdated(i: Image, j: Image)
  {
    var l, m := i.ledger, j.ledger;
    j == i.(ledger := l.(props := m.props)) && Repriced(l.props, m.props, l.median)
  }

  /** Escrows that were not ratified in time are refunded. */
  ghost predicate EscrowsExpire(i: Image, j: Image)
  {
    var l, m, due := i.ledger, j.ledger, E.Expired(i.ledger.escrows, i.ledger.now);
    && j == i.(ledger := l.(purses := m.purses, props := m.props, escrows := l.escrows - due))
    && SameTerms(l.props, m.props)
    && AllSettled(l.purses, m.purses, E.RefundBills(l.escrows, due), l.now, l.props.interestRate)
  }

  /** The images between the steps of the end of a block, and the instalments paid on the way. */
  datatype Sweep = Sweep(expired: Image, returned: Image, priced: Image, burned: Image, minted: Image, converted: Image, cashed: Image,
                         poweredDown: Image, saved: Image, updated: Image, paid: seq<PD.Payment>)

  /** The end of a block, step by step: who is paid what, and at which time. */
  ghost predicate Steps(b: Block, author: Curve, i: Image, s: Sweep, j: Image)
  {
    && OrdersExpire(b.time, i, s.expired) && SharesReturn(s.expired, s.returned) && FeedTaken(b, s.returned, s.priced)
    && NullBurns(s.priced, s.burned) && FundsGrow(b, s.burned, s.minted)
    && ConversionsPaid(s.minted, s.converted) && CommentsPaid(author, s.converted, s.cashed)
    && PowerDownsPaid(s.paid, s.cashed, s.poweredDown) && SavingsPaid(s.poweredDown, s.saved)
    && SupplyUpdated(s.saved, s.updated) && EscrowsExpire(s.updated, j)
  }

  /** Every power-down that was due has paid its instalments, and no other plan has changed its withdrawal. */
  ghost predicate Instalments(was: map<Account, P.Plan>, now: map<Account, P.Plan>, time: int)
  {
    && now.Keys == was.Keys
    && forall a :: a in was ==> if was[a].next <= time then Paid(was[a], now[a], time) else SameWithdrawal(was[a], now[a])
  }

  ghost predicate SameWithdrawal(p: P.Plan, q: P.Plan)
  {
    q.toWithdraw == p.toWithdraw && q.withdrawn == p.withdrawn && q.rate == p.rate && q.next == p.next
  }

  /** The instalments of one plan, whatever it has lent, borrowed or routed meanwhile. */
  ghost predicate Paid(p: P.Plan, q: P.Plan, now: int)
  {
    S.InstalmentPaid(p.(delegated := q.delegated, received := q.received, routes := q.routes), q, now)
  }

  /** A finished pass over the power-downs. */
  lemma PassMade(routes: P.Routes, paid: seq<PD.Payment>, b: SV.Books, c: SV.Books, time: int)
    requires SV.PassAt(routes, paid, b, c, {}, time)
    ensures Instalments(b.plans, c.plans, time) && (forall a :: a in b.plans && a in c.plans ==> c.plans[a].withdrawn == b.plans[a].withdrawn + PD.PaidBy(paid, a))
    ensures PD.PoweredDown(routes, paid, SV.PoolIn(b), SV.PoolIn(c), b.stakes, c.stakes)
    ensures c.props == b.props.(vestingFund := c.props.vestingFund, vestingShares := c.props.vestingShares)
    ensures NullIdle(b.plans) && time < NEVER ==> NullIdle(c.plans)
  {
    hide PD.PoweredDown, PD.PaidBy, S.InstalmentPaid, P.Payable;
    InstalmentsMade(b.plans, c.plans, time);
    if NullIdle(b.plans) && time < NEVER {
      StillNoPlan(b.plans, c.plans, time);
    }
  }

  lemma PassPaysDown(paid: seq<PD.Payment>, i: Image, j: Image, b: SV.Books, c: SV.Books)
    requires b == SV.Books(i.staking.plans, i.ledger.stakes, i.ledger.purses, i.ledger.props)
    requires c == SV.Books(j.staking.plans, j.ledger.stakes, j.ledger.purses, j.ledger.props)
    requires SV.PassAt(i.staking.routes, paid, b, c, {}, i.ledger.now) && SameDecisions(i.votes, j.votes)
    requires j == i.(ledger := i.ledger.(purses := j.ledger.purses, stakes := j.ledger.stakes, props := j.ledger.props),
                     staking := i.staking.(plans := j.staking.plans), votes := j.votes)
    ensures PowerDownsPaid(paid, i, j)
  {
    hide SV.PassAt, SameDecisions, Instalments, PD.PoweredDown, PD.PaidBy;
    PassMade(i.staking.routes, paid, b, c, i.ledger.now);
  }

  lemma InstalmentsMade(was: map<Account, P.Plan>, now: map<Account, P.Plan>, time: int)
    requires now.Keys == was.Keys
    requires forall a :: a in now ==> if was[a].next <= time then S.InstalmentPaid(was[a], now[a], time) else now[a] == was[a]
    ensures Instalments(was, now, time)
  {
    forall a | a in was ensures if was[a].next <= time then Paid(was[a], now[a], time) else SameWithdrawal(was[a], now[a]) {
      assert was[a].next <= time ==>
        was[a].(delegated := now[a].delegated, received := now[a].received, routes := now[a].routes) == was[a];
    }
  }

  /** The null account's plan is never due. */
  lemma StillNoPlan(was: map<Account, P.Plan>, now: map<Account, P.Plan>, time: int)
    requires NullIdle(was) && now.Keys == was.Keys && time < NEVER
    requires forall a :: a in now ==> if was[a].next <= time then S.InstalmentPaid(was[a], now[a], time) else now[a] == was[a]
    ensures NullIdle(now)
  {
    assert now[NULL_ACCOUNT] == was[NULL_ACCOUNT];
  }

  /** The end of a block removes exactly what its time makes due from every queue, and takes over its feed. */
  ghost predicate Cleared(b: Block, i: Image, j: Image)
  {
    var l, m, s, t := i.ledger, j.ledger, i.staking, j.staking;
    && m.now == b.time && m.median == b.median && m.accounts == l.accounts && m.nextOrder == l.nextOrder
    && m.orders == l.orders - M.Expired(l.orders, b.time)
    && m.escrows == l.escrows - E.Expired(l.escrows, b.time)
    && m.withdrawals == l.withdrawals - DueWithdrawals(l.withdrawals, b.time)
    && m.conversions == (if b.median.Price? then l.conversions - DueConversions(l.conversions, b.time) else l.conversions)
    && t == s.(plans := t.plans, expirations := s.expirations - S.Overdue(s.expirations, b.time))
    && Instalments(s.plans, t.plans, b.time)
    && SameDecisions(i.votes, j.votes)
    && j.posts == i.posts.(comments := j.posts.comments, payouts := j.posts.payouts)
    && Paying(i.posts.comments, j.posts.comments, {}, DueComments(i.posts.comments, b.time), b.time)
    && i.posts.payouts <= j.posts.payouts
  }

  /** The steps at the end of a block take one image to the other, and nothing due is left. */
  ghost predicate Swept(b: Block, author: Curve, i: Image, j: Image)
  {
    Cleared(b, i, j) && exists s :: Steps(b, author, i, s, j)
  }

  lemma SameDecisionsTwice(v: TallyImage, w: TallyImage, x: TallyImage)
    requires SameDecisions(v, w) && SameDecisions(w, x)
    ensures SameDecisions(v, x)
  {
    Witnesses.ProgressKept(v.witnesses, w.witnesses, x.witnesses, v.clock);
    hide Witnesses.SameProgress;
  }

  /** Expired delegations leave every withdrawal alone. */
  lemma ReturnedThenPaid(was: map<Account, P.Plan>, mid: map<Account, P.Plan>, now: map<Account, P.Plan>,
                         xs: P.Expirations, due: set<int>, time: int)
    requires S.SharesReturned(was, mid, xs, due) && Instalments(mid, now, time)
    ensures Instalments(was, now, time)
  {
    hide Sum;
  }

  lemma StepsClear(b: Block, author: Curve, i: Image, s: Sweep, j: Image)
    requires Steps(b, author, i, s, j)
    ensures Swept(b, author, i, j)
  {
    hide AllSettled, SameTerms, S.SharesReturned, Repriced, Drained, Burned, I.Minted, AllPaidOut, Paying, CashedOut, Instalments, PD.PoweredDown, PD.PaidBy,
      SameDecisions, M.Expired, E.Expired, S.Overdue, DueConversions, DueWithdrawals, DueComments, M.CancelBills, E.RefundBills, SavingsBills;
    ReturnedThenPaid(i.staking.plans, s.returned.staking.plans, j.staking.plans, i.staking.expirations,
                     S.Overdue(i.staking.expirations, b.time), b.time);
    SameDecisionsTwice(i.votes, s.burned.votes, s.minted.votes);
    SameDecisionsTwice(i.votes, s.minted.votes, j.votes);
  }

  /** Nothing the chain pays out or drops by the clock is waiting any more. */
  ghost predicate NothingDue(i: Image)
  {
    var l := i.ledger;
    && M.Expired(l.orders, l.now) == {} && E.Expired(l.escrows, l.now) == {}
    && DueWithdrawals(l.withdrawals, l.now) == {}
    && (l.median.Price? ==> DueConversions(l.conversions, l.now) == {})
    && S.Overdue(i.staking.expirations, l.now) == {} && DueComments(i.posts.comments, l.now) == {}
  }

  lemma SweptLeavesNothing(b: Block, i: Image, j: Image)
    requires Cleared(b, i, j) && b.time < NEVER
    ensures NothingDue(j) && j.ledger.now == b.time
  {
    NoneDueAnyMore(i.posts.comments, j.posts.comments, b.time);
  }

  /** Each operation leads from one image to the next. */
  ghost predicate Traced(ops: seq<Operation>, curve: Curve, trace: seq<Image>)
  {
    |trace| <= |ops| + 1 && forall k :: 0 <= k < |trace| - 1 ==> Effect(ops[k], curve, trace[k], trace[k + 1])
  }

  /** Nothing at the end of a block stands in the way: the claims add up, and no due instalment is negative. */
  ghost predicate Processable(time: int, i: Image, curve: Curve)
  {
    !Overflows(time, i, curve) && S.AllPayable(i.staking.plans, time)
  }

  /**
   All there is to say about a block that took the image from i to j: every operation of the trace has its
   effect, the end of an accepted block sweeps the last image, and anything else leaves no trace behind.
   */
  ghost predicate BlockOutcome(b: Block, curve: Curve, author: Curve, i: Image, trace: seq<Image>, j: Image, r: Verdict)
  {
    && trace != [] && trace[0] == i && Traced(b.operations, curve, trace)
    && (!r.Accepted? ==> j == i)
    && (r.Refused? ==> b.time <= i.ledger.now || Fails(b, trace, author))
    && (r.Outside? ==> Leaves(b, trace, author))
    && (r.Accepted? ==> Finishes(b, author, trace, j) && i.ledger.now < j.ledger.now == b.time)
  }

  /** A block that is refused, at the operation or at the end its trace leads to, and why. */
  ghost predicate Fails(b: Block, trace: seq<Image>, author: Curve)
  {
    && 0 < |trace| <= |b.operations| + 1
    && var last := trace[|trace| - 1];
       if |trace| <= |b.operations| then
         var op := b.operations[|trace| - 1];
         last.ledger.median.NoPrice? || !WellFormed(op, last.ledger.now, last.ledger.accounts) || !Admissible(op, last)
       else Hindered(b, author, last)
  }

  ghost predicate Finishes(b: Block, author: Curve, trace: seq<Image>, j: Image)
  {
    && |trace| == |b.operations| + 1 && Swept(b, author, trace[|b.operations|], j)
    && Processable(b.time, trace[|b.operations|], author)
    && NothingDue(j) && j.ledger.props.currentSupply <= j.ledger.props.virtualSupply
  }

  /** From image i the block leaves the invariants. */
  ghost predicate Stops(b: Block, curve: Curve, author: Curve, i: Image, trace: seq<Image>)
  {
    trace != [] && trace[0] == i && Traced(b.operations, curve, trace) && Leaves(b, trace, author)
  }

  /** A block that leaves the invariants, at the operation or at the end its trace leads to. */
  ghost predicate Leaves(b: Block, trace: seq<Image>, curve: Curve)
  {
    && 0 < |trace| <= |b.operations| + 1
    && if |trace| <= |b.operations| then Unbacked(b.operations[|trace| - 1], trace[|trace| - 1].ledger)
       else Overflows(b.time, trace[|trace| - 1], curve)
  }

  lemma OutcomeMeans(b: Block, curve: Curve, author: Curve, i: Image, trace: seq<Image>, j: Image, r: Verdict)
    requires BlockOutcome(b, curve, author, i, trace, j, r)
    ensures !r.Accepted? ==> j == i
    ensures r.Outside? ==> Stops(b, curve, author, j, trace)
    ensures r.Accepted? ==>
      && i.ledger.now < j.ledger.now == b.time && j.ledger.props.currentSupply <= j.ledger.props.virtualSupply
  {
  }

  /** The first steps, up to the conversions. */
  ghost predicate Begun(b: Block, i: Image, s: Sweep)
  {
    && OrdersExpire(b.time, i, s.expired) && SharesReturn(s.expired, s.returned) && FeedTaken(b, s.returned, s.priced)
    && NullBurns(s.priced, s.burned) && FundsGrow(b, s.burned, s.minted) && ConversionsPaid(s.minted, s.converted)
  }

  lemma HasBegun(b: Block, i: Image, s: Sweep)
    requires OrdersExpire(b.time, i, s.expired) && SharesReturn(s.expired, s.returned) && FeedTaken(b, s.returned, s.priced)
    requires NullBurns(s.priced, s.burned) && FundsGrow(b, s.burned, s.minted) && ConversionsPaid(s.minted, s.converted)
    ensures Begun(b, i, s)
  {
  }

  lemma StillBegun(b: Block, i: Image, s: Sweep, t: Sweep)
    requires Begun(b, i, s) && t == s.(cashed := t.cashed, poweredDown := t.poweredDown, saved := t.saved, updated := t.updated, paid := t.paid)
    ensures Begun(b, i, t) && t.converted == s.converted
  {
    hide OrdersExpire, SharesReturn, FeedTaken, NullBurns, FundsGrow, ConversionsPaid;
  }

  lemma AllSteps(b: Block, author: Curve, i: Image, s: Sweep, j: Image)
    requires Begun(b, i, s) && CommentsPaid(author, s.converted, s.cashed) && PowerDownsPaid(s.paid, s.cashed, s.poweredDown)
    requires SavingsPaid(s.poweredDown, s.saved) && SupplyUpdated(s.saved, s.updated) && EscrowsExpire(s.updated, j)
    ensures Steps(b, author, i, s, j)
  {
    hide OrdersExpire, SharesReturn, FeedTaken, NullBurns, FundsGrow, ConversionsPaid, CommentsPaid, PowerDownsPaid,
      SavingsPaid, SupplyUpdated, EscrowsExpire;
  }

  /** What can be seen before the end of a block to stand in its way. */
  ghost predicate Unready(b: Block, i: Image)
  {
    || i.ledger.median.NoPrice? || b.median.NoPrice? || i.ledger.props.currentSupply <= 0
    || b.producer !in i.ledger.accounts || HUNDRED_PERCENT < I.PercentTotal(i.ledger.funds) || !S.AllPayable(i.staking.plans, b.time)
  }

  /**
   Why the end of a block fails: it is not ready for it, comments cannot be paid, a deposit of a power-down
   trips the vote assertion, or no STEEM is left.
   */
  ghost predicate Hindered(b: Block, author: Curve, i: Image)
  {
    Unready(b, i) || exists s :: Begun(b, i, s) && StopsIn(b, author, s)
  }

  ghost predicate StopsIn(b: Block, author: Curve, s: Sweep)
  {
    var k, c := s.converted, s.cashed;
    || CannotPay(k.posts.comments, author, k.ledger.funds, k.ledger.props, b.time)
    || (CommentsPaid(author, k, c)
        && (|| SV.PassTrips(c.votes.proxy, c.votes.ballots, c.staking.routes, SV.Books(c.staking.plans, c.ledger.stakes, c.ledger.purses, c.ledger.props), b.time)
            || (PowerDownsPaid(s.paid, c, s.poweredDown) && SavingsPaid(s.poweredDown, s.saved) && s.saved.ledger.props.currentSupply <= 0)))
  }

  /** What the first steps leave as it was. */
  lemma FirstSteps(b: Block, i: Image, s: Sweep)
    requires OrdersExpire(b.time, i, s.expired) && SharesReturn(s.expired, s.returned)
    ensures s.returned.ledger.props.currentSupply == i.ledger.props.currentSupply
    ensures s.returned.ledger.accounts == i.ledger.accounts
    ensures s.returned.ledger.funds == i.ledger.funds
  {
    hide AllSettled, S.SharesReturned;
  }

  lemma NextSteps(b: Block, i: Image, s: Sweep)
    requires FeedTaken(b, s.returned, s.priced)
    ensures s.priced.ledger.median == b.median && s.priced.ledger.accounts == s.returned.ledger.accounts
    ensures s.priced.ledger.funds == s.returned.ledger.funds
    ensures NullBurns(s.priced, s.burned) ==> s.burned.ledger.accounts == s.priced.ledger.accounts && s.burned.ledger.funds == s.priced.ledger.funds
  {
    hide Repriced, Drained, Burned, SameDecisions;
  }

  /** The feed and the withdrawals at the later steps. */
  lemma LaterSteps(b: Block, author: Curve, i: Image, s: Sweep)
    requires Begun(b, i, s)
    ensures s.converted.ledger.median == b.median && s.converted.ledger.now == b.time
    ensures S.AllPayable(i.staking.plans, b.time) ==> S.AllPayable(s.converted.staking.plans, b.time)
    ensures CommentsPaid(author, s.converted, s.cashed) ==>
      && s.cashed.ledger.median == b.median && s.cashed.ledger.now == b.time && s.cashed.staking == s.converted.staking
      && (PowerDownsPaid(s.paid, s.cashed, s.poweredDown) ==>
          && s.poweredDown.ledger.median == b.median
          && (SavingsPaid(s.poweredDown, s.saved) ==>
              && s.saved.ledger.median == b.median
              && (SupplyUpdated(s.saved, s.updated) ==> s.updated.ledger.median == b.median)))
  {
    hide AllSettled, SameTerms, Repriced, Drained, Burned, I.Minted, AllPaidOut, Paying, CashedOut, Instalments, PD.PoweredDown, PD.PaidBy, SameDecisions,
      M.Expired, S.Overdue, DueConversions, DueWithdrawals, DueComments, M.CancelBills, SavingsBills, Sum;
    var was, now := i.staking.plans, s.converted.staking.plans;
    if S.AllPayable(was, b.time) {
      forall a | a in now && now[a].next <= b.time && now[a].rate != 0 ensures P.Payable(now[a]) {
        assert P.Payable(was[a]);
      }
    }
  }

  lemma NotReady(b: Block, i: Image)
    requires i.ledger.median.NoPrice? || b.median.NoPrice? || i.ledger.props.currentSupply <= 0
      || b.producer !in i.ledger.accounts || HUNDRED_PERCENT < I.PercentTotal(i.ledger.funds)
    ensures Unready(b, i)
  {
  }

  lemma CommentsStop(b: Block, author: Curve, s: Sweep)
    requires var k := s.converted; CannotPay(k.posts.comments, author, k.ledger.funds, k.ledger.props, b.time)
    ensures StopsIn(b, author, s)
  {
    hide CannotPay;
  }

  lemma PowerDownsStop(b: Block, author: Curve, i: Image, s: Sweep, books: SV.Books)
    requires Begun(b, i, s) && CommentsPaid(author, s.converted, s.cashed)
    requires var c := s.cashed; books == SV.Books(c.staking.plans, c.ledger.stakes, c.ledger.purses, c.ledger.props)
    requires !S.AllPayable(s.cashed.staking.plans, b.time) || SV.PassTrips(s.cashed.votes.proxy, s.cashed.votes.ballots, s.cashed.staking.routes, books, b.time)
    ensures Unready(b, i) || StopsIn(b, author, s)
  {
    LaterSteps(b, author, i, s);
    hide Begun, CommentsPaid, S.AllPayable, SV.PassTrips;
  }

  lemma SupplyStops(b: Block, author: Curve, s: Sweep)
    requires CommentsPaid(author, s.converted, s.cashed) && PowerDownsPaid(s.paid, s.cashed, s.poweredDown) && SavingsPaid(s.poweredDown, s.saved)
    requires s.saved.ledger.props.currentSupply <= 0
    ensures StopsIn(b, author, s)
  {
    hide CommentsPaid, PowerDownsPaid, SavingsPaid, CannotPay;
  }

  lemma IsHindered(b: Block, author: Curve, i: Image, s: Sweep)
    requires Unready(b, i) || (Begun(b, i, s) && StopsIn(b, author, s))
    ensures Hindered(b, author, i)
  {
    hide Unready, StopsIn, Begun;
  }

  lemma SweptClears(b: Block, author: Curve, i: Image, j: Image)
    requires Swept(b, author, i, j)
    ensures Cleared(b, i, j)
  {
  }

  lemma BlockInTime(b: Block)
    requires BlockOk(b)
    ensures b.time < NEVER
  {
  }

  lemma CanProcess(time: int, i: Image, curve: Curve)
    requires !Overflows(time, i, curve) && S.AllPayable(i.staking.plans, time)
    ensures Processable(time, i, curve)
  {
  }

  /** Until the comments are paid nothing changes what they claim; until the power-downs, no withdrawal. */
  lemma StillProcessable(b: Block, i: Image, s: Sweep, curve: Curve)
    requires Begun(b, i, s)
    ensures s.converted.ledger.now == b.time && (Overflows(b.time, s.converted, curve) <==> Overflows(b.time, i, curve))
    ensures S.AllPayable(s.converted.staking.plans, b.time) ==> S.AllPayable(i.staking.plans, b.time)
  {
    hide AllSettled, Drained, Burned, AllPaidOut, Repriced, SameDecisions, DueClaims, Faded, Sum, M.Expired, S.Overdue, DueConversions, SharesFor, FundTotal,
      I.ProducerPay, I.VestingPart, I.ContentPart, MulDiv;
    var was, now := i.staking.plans, s.converted.staking.plans;
    if S.AllPayable(now, b.time) {
      forall a | a in was && was[a].next <= b.time && was[a].rate != 0 ensures P.Payable(was[a]) {
        assert P.Payable(now[a]);
      }
    }
  }

  // ----- one account's power-down over blocks -----

  /** No operation of the block is another request of the account. */
  ghost predicate Undisturbed(b: Block, a: Account)
  {
    forall i :: 0 <= i < |b.operations| ==> !(b.operations[i].Withdraw? && b.operations[i].owner == a)
  }

  /** The plan that started as p has paid one rate for every week that came due, or is finished within them. */
  ghost predicate OnTime(p: P.Plan, q: P.Plan, now: int)
  {
    && q.toWithdraw == p.toWithdraw
    && var due := P.WeeksDue(p.next, now);
       if q.rate == 0 then q.withdrawn == q.toWithdraw && P.Remaining(p) <= due * p.rate else P.PaidWeeks(p, q, due)
  }

  lemma PaysOnTime(p: P.Plan, now: int)
    requires P.Steady(p) && 0 <= p.toWithdraw && now < p.next
    ensures OnTime(p, p, now)
  {
  }

  lemma StillOnTime(p: P.Plan, was: P.Plan, q: P.Plan, before: int, now: int)
    requires OnTime(p, was, before) && P.Steady(p) && P.Steady(was) && 0 <= p.toWithdraw && before < now <= before + P.WITHDRAW_INTERVAL_SECONDS
    requires if was.next <= now then Paid(was, q, now) else SameWithdrawal(was, q)
    ensures OnTime(p, q, now) && q.toWithdraw == p.toWithdraw
  {
    var k, l := P.WeeksDue(p.next, before), P.WeeksDue(p.next, now);
    P.MoreWeeks(p.next, before, now);
    if was.rate == 0 {
      assert k * p.rate <= l * p.rate;
    } else {
      P.WeeksOf(p.next, before);
      P.WeeksGoOn(p.next, k, now);
      P.OneWeek(was.next, now);
      if was.next <= now && q.rate == 0 {
        Distribute(p.rate, k, 1);
      } else if was.next <= now {
        Distribute(p.rate, k, 1);
        assert P.WeeksBetween(was, q) == 1;
      }
    }
  }

  /** What a plan on time has paid, and that it is finished exactly when the weeks that came due suffice. */
  lemma PaidByTheWeek(p: P.Plan, q: P.Plan, now: int)
    requires OnTime(p, q, now) && P.Steady(p) && P.Steady(q) && 0 <= p.toWithdraw
    ensures q.withdrawn == p.withdrawn + Min(P.Remaining(p), P.WeeksDue(p.next, now) * p.rate) <= q.toWithdraw
    ensures q.rate == 0 <==> P.Remaining(p) <= P.WeeksDue(p.next, now) * p.rate
  {
  }

  lemma RequestMade(a: Account, request: int, fee: int, curve: Curve, i: Image, j: Image)
    requires Effect(Withdraw(a, request, fee), curve, i, j) && request != 0
    ensures a in j.staking.plans && j.ledger.now == i.ledger.now
    ensures var p := j.staking.plans[a];
      && p.toWithdraw == request && p.withdrawn == 0 && p.rate == P.RateFor(request)
      && p.next == i.ledger.now + P.WITHDRAW_INTERVAL_SECONDS
  {
    hide P.RateFor, SharesFor;
  }

  lemma OpKeepsPlan(op: Operation, curve: Curve, i: Image, j: Image, a: Account)
    requires Effect(op, curve, i, j) && a in i.staking.plans && !(op.Withdraw? && op.owner == a)
    ensures a in j.staking.plans && SameWithdrawal(i.staking.plans[a], j.staking.plans[a])
  {
    hide BalanceEffect, VestingEffect, EscrowEffect, MarketEffect, ForumEffect, Joined, SharesFor;
  }

  lemma {:induction false} OpsKeepPlan(ops: seq<Operation>, curve: Curve, trace: seq<Image>, a: Account, k: nat)
    requires Traced(ops, curve, trace) && k < |trace| && a in trace[0].staking.plans
    requires forall i :: 0 <= i < |ops| ==> !(ops[i].Withdraw? && ops[i].owner == a)
    ensures a in trace[k].staking.plans && SameWithdrawal(trace[0].staking.plans[a], trace[k].staking.plans[a])
  {
    hide Effect;
    if 0 < k {
      OpsKeepPlan(ops, curve, trace, a, k - 1);
      assert Effect(ops[k - 1], curve, trace[k - 1], trace[k - 1 + 1]);
      OpKeepsPlan(ops[k - 1], curve, trace[k - 1], trace[k], a);
    }
  }

  /** A whole block without a new request: the account's plan is paid if it was due, and else untouched. */
  lemma BlockPays(b: Block, curve: Curve, author: Curve, i: Image, trace: seq<Image>, j: Image, a: Account)
    requires BlockOutcome(b, curve, author, i, trace, j, Accepted) && Undisturbed(b, a) && a in i.staking.plans
    ensures a in j.staking.plans
    ensures var p, q := i.staking.plans[a], j.staking.plans[a]; if p.next <= b.time then Paid(p, q, b.time) else SameWithdrawal(p, q)
  {
    hide Traced, Paying, DueComments, NothingDue, Processable, Leaves;
    OpsKeepPlan(b.operations, curve, trace, a, |b.operations|);
    PaidAfterSame(trace[0].staking.plans[a], trace[|b.operations|].staking.plans[a], j.staking.plans[a], b.time);
  }

  lemma PaidAfterSame(p: P.Plan, q: P.Plan, r: P.Plan, now: int)
    requires SameWithdrawal(p, q)
    ensures Paid(q, r, now) <==> Paid(p, r, now)
  {
    assert q.(delegated := r.delegated, received := r.received, routes := r.routes) == p.(delegated := r.delegated, received := r.received, routes := r.routes);
  }
}
