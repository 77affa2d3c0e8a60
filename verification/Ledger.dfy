/**
 Every place the chain keeps STEEM, SBD and vesting shares, the supply equations of
 validate_invariants, and the primitive adjustments all operations are made of.
 */
module Ledger {
  import opened Basics
  import opened Sums
  import opened Assets

  const SECONDS_PER_YEAR: int := 60 * 60 * 24 * 365
  /** STEEMIT_SBD_INTEREST_COMPOUND_INTERVAL_SEC */
  const COMPOUND_INTERVAL: int := 60 * 60 * 24 * 30

  // ----- objects -----

  /** An SBD balance together with the clock that earns interest on it. */
  datatype Holding = Holding(balance: int, seconds: int, lastUpdate: int, lastPayment: int)

  datatype Purse = Purse(steem: int, sbd: Holding, savings: int, savingsSbd: Holding,
                         rewardSteem: int, rewardSbd: int, savingsRequests: int)

  datatype Stake = Stake(vests: int, rewardVests: int, rewardVestSteem: int)

  datatype Order = Order(seller: Account, orderid: int, sellsSteem: bool, forSale: int, base: int, quote: int, expiration: int)

  datatype Escrow = Escrow(to: Account, agent: Account, deadline: int, expiration: int,
                           steem: int, sbd: int, fee: Asset, toApproved: bool, agentApproved: bool, disputed: bool)

  datatype Conversion = Conversion(sbd: int, date: int)

  datatype Withdrawal = Withdrawal(to: Account, amount: Asset, complete: int)

  datatype Fund = Fund(balance: int, recentClaims: int, lastUpdate: int, percentContent: int, percentCuration: int)

  datatype Props = Props(currentSupply: int, sbdSupply: int, virtualSupply: int,
                         vestingFund: int, vestingShares: int, rewardFund: int,
                         pendingSteem: int, pendingShares: int, interestRate: int, printRate: int)

  // ----- interest -----

  /** Whether an SBD movement at `now` pays the interest earned so far. */
  predicate InterestDue(h: Holding, now: int)
  {
    && h.lastUpdate != now
    && h.seconds + h.balance * (now - h.lastUpdate) > 0
    && now - h.lastPayment > COMPOUND_INTERVAL
  }

  function Interest(h: Holding, now: int, rate: int): int
  {
    if !InterestDue(h, now) then 0
    else (h.seconds + h.balance * (now - h.lastUpdate)) / SECONDS_PER_YEAR * rate / HUNDRED_PERCENT
  }

  /** A holding after an SBD movement: clock brought up to date, interest paid if due, then the amount added. */
  function Moved(h: Holding, amount: int, now: int, rate: int): Holding
  {
    if h.lastUpdate == now then h.(balance := h.balance + amount)
    else if InterestDue(h, now) then Holding(h.balance + Interest(h, now, rate) + amount, 0, now, now)
    else Holding(h.balance + amount, h.seconds + h.balance * (now - h.lastUpdate), now, h.lastPayment)
  }

  /** The SBD-seconds a holding has earned interest on by a given time. */
  function CoinSeconds(h: Holding, now: int): int
  {
    h.seconds + h.balance * (now - h.lastUpdate)
  }

  /**
   Interest is paid for whole SBD-years only, at the rate in hundredths of a percent, rounded down; no
   more than once in thirty days.
   */
  lemma InterestIs(h: Holding, now: int, rate: int, years: int)
    requires 0 <= rate && years * SECONDS_PER_YEAR <= CoinSeconds(h, now) < (years + 1) * SECONDS_PER_YEAR
    ensures InterestDue(h, now) ==> Interest(h, now, rate) * HUNDRED_PERCENT <= years * rate < (Interest(h, now, rate) + 1) * HUNDRED_PERCENT
    ensures !InterestDue(h, now) ==> Interest(h, now, rate) == 0
    ensures now <= h.lastPayment + COMPOUND_INTERVAL || CoinSeconds(h, now) <= 0 || now == h.lastUpdate <==>
      !InterestDue(h, now)
  {
    assert CoinSeconds(h, now) / SECONDS_PER_YEAR == years;
  }

  /** Being brought up to date without a payment loses nothing: interest is earned by the second. */
  lemma SecondsAddUp(h: Holding, x: int, t1: int, t2: int, rate: int)
    requires !InterestDue(h, t1)
    ensures var m := Moved(h, x, t1, rate);
      && m.balance == h.balance + x && m.lastPayment == h.lastPayment
      && CoinSeconds(m, t2) == CoinSeconds(h, t2) + x * (t2 - t1)
  {
    assert h.balance * (t1 - h.lastUpdate) + (h.balance + x) * (t2 - t1) == h.balance * (t2 - h.lastUpdate) + x * (t2 - t1);
  }

  /** Once paid, interest starts over, and is not paid again within thirty days whatever moves meanwhile. */
  lemma InterestStartsOver(h: Holding, x: int, now: int, rate: int, later: int)
    requires InterestDue(h, now)
    ensures var m := Moved(h, x, now, rate);
      && m.balance == h.balance + Interest(h, now, rate) + x && CoinSeconds(m, later) == m.balance * (later - now)
      && (later <= now + COMPOUND_INTERVAL ==> !InterestDue(m, later))
  {
  }

  lemma InterestSign(h: Holding, now: int, rate: int)
    ensures 0 <= rate ==> 0 <= Interest(h, now, rate)
  {
    if 0 <= rate && InterestDue(h, now) {
      var years := (h.seconds + h.balance * (now - h.lastUpdate)) / SECONDS_PER_YEAR;
      assert 0 <= years * rate;
    }
  }

  // ----- sums over the objects -----

  ghost function SteemOf(p: Purse): int { p.steem + p.savings + p.rewardSteem }
  ghost function SbdOf(p: Purse): int { p.sbd.balance + p.savingsSbd.balance + p.rewardSbd }
  ghost function VestsOf(s: Stake): int { s.vests }
  ghost function RewardVestsOf(s: Stake): int { s.rewardVests }
  ghost function RewardVestSteemOf(s: Stake): int { s.rewardVestSteem }
  ghost function OrderSteemOf(o: Order): int { if o.sellsSteem then o.forSale else 0 }
  ghost function OrderSbdOf(o: Order): int { if o.sellsSteem then 0 else o.forSale }
  ghost function AmountIn(x: Asset, s: Symbol): int { if x.symbol == s then x.amount else 0 }
  ghost function EscrowSteemOf(e: Escrow): int { e.steem + AmountIn(e.fee, STEEM) }
  ghost function EscrowSbdOf(e: Escrow): int { e.sbd + AmountIn(e.fee, SBD) }
  ghost function ConversionSbdOf(c: Conversion): int { c.sbd }
  ghost function WithdrawalSteemOf(w: Withdrawal): int { AmountIn(w.amount, STEEM) }
  ghost function WithdrawalSbdOf(w: Withdrawal): int { AmountIn(w.amount, SBD) }

  ghost function FundTotal(funds: seq<Fund>): int
  {
    if funds == [] then 0 else funds[0].balance + FundTotal(funds[1..])
  }

  ghost function PurseSteem(m: map<Account, Purse>): int { SumMap(m, SteemOf) }
  ghost function PurseSbd(m: map<Account, Purse>): int { SumMap(m, SbdOf) }
  ghost function StakeVests(m: map<Account, Stake>): int { SumMap(m, VestsOf) }
  ghost function StakeRewardVests(m: map<Account, Stake>): int { SumMap(m, RewardVestsOf) }
  ghost function StakeRewardSteem(m: map<Account, Stake>): int { SumMap(m, RewardVestSteemOf) }
  ghost function OrderSteem(m: map<int, Order>): int { SumMap(m, OrderSteemOf) }
  ghost function OrderSbd(m: map<int, Order>): int { SumMap(m, OrderSbdOf) }
  ghost function EscrowSteem(m: map<(Account, int), Escrow>): int { SumMap(m, EscrowSteemOf) }
  ghost function EscrowSbd(m: map<(Account, int), Escrow>): int { SumMap(m, EscrowSbdOf) }
  ghost function ConversionSbd(m: map<(Account, int), Conversion>): int { SumMap(m, ConversionSbdOf) }
  ghost function WithdrawalSteem(m: map<(Account, int), Withdrawal>): int { SumMap(m, WithdrawalSteemOf) }
  ghost function WithdrawalSbd(m: map<(Account, int), Withdrawal>): int { SumMap(m, WithdrawalSbdOf) }

  lemma {:induction false} FundTotalUpdate(funds: seq<Fund>, i: nat, f: Fund)
    requires i < |funds|
    ensures FundTotal(funds[i := f]) == FundTotal(funds) - funds[i].balance + f.balance
  {
    if i == 0 {
      assert funds[0 := f][1..] == funds[1..];
    } else {
      assert funds[i := f][1..] == funds[1..][i - 1 := f];
      FundTotalUpdate(funds[1..], i - 1, f);
    }
  }

  /** A purse after adjust_balance. */
  function Credited(p: Purse, x: Asset, now: int, rate: int): Purse
  {
    match x.symbol
    case STEEM => p.(steem := p.steem + x.amount)
    case SBD => p.(sbd := Moved(p.sbd, x.amount, now, rate))
    case VESTS => p
  }

  /** A purse after a STEEM and then an SBD adjustment. */
  function CreditedBoth(p: Purse, steem: int, sbd: int, now: int, rate: int): Purse
  {
    Credited(Credited(p, Asset(steem, STEEM), now, rate), Asset(sbd, SBD), now, rate)
  }

  /** A purse after adjust_savings_balance. */
  function CreditedSavings(p: Purse, x: Asset, now: int, rate: int): Purse
  {
    match x.symbol
    case STEEM => p.(savings := p.savings + x.amount)
    case SBD => p.(savingsSbd := Moved(p.savingsSbd, x.amount, now, rate))
    case VESTS => p
  }

  /** Whether the movement throws: vesting shares are not liquid, and interest needs a price feed. */
  predicate Blocked(h: Holding, x: Asset, now: int, median: Price)
  {
    x.symbol == VESTS || (x.symbol == SBD && InterestDue(h, now) && median.NoPrice?)
  }

  /**
   A purse after a reward in SBD: the print rate's part at the median price, the rest in STEEM;
   liquid STEEM without a feed.
   */
  function Rewarded(p: Purse, steem: int, median: Price, printRate: int): Purse
    requires Sound(median)
  {
    if median.NoPrice? || steem == 0 then p.(steem := p.steem + steem)
    else var printed := MulDiv(printRate, steem, HUNDRED_PERCENT);
         p.(rewardSbd := p.rewardSbd + ToSbd(median, printed), rewardSteem := p.rewardSteem + steem - printed)
  }

  function Earned(h: Holding, x: Asset, now: int, rate: int): int
  {
    if x.symbol == SBD then Interest(h, now, rate) else 0
  }

  function Liquid(p: Purse, s: Symbol): int
  {
    match s case STEEM => p.steem case SBD => p.sbd.balance case VESTS => 0
  }

  function Saved(p: Purse, s: Symbol): int
  {
    match s case STEEM => p.savings case SBD => p.savingsSbd.balance case VESTS => 0
  }

  function EmptyPurse(): Purse
  {
    var h := Holding(0, 0, 0, 0);
    Purse(0, h, 0, h, 0, 0, 0)
  }

  // ----- vesting prices -----

  /** Vesting shares for STEEM at get_vesting_share_price. */
  function SharesFor(steem: int, p: Props): int
  {
    if p.vestingFund <= 0 || p.vestingShares == 0 then MulDiv(steem, 1000000, 1000) else MulDiv(steem, p.vestingShares, p.vestingFund)
  }

  /** STEEM for vesting shares at get_vesting_share_price. */
  function SteemFor(shares: int, p: Props): int
  {
    if p.vestingFund == 0 || p.vestingShares <= 0 then MulDiv(shares, 1000, 1000000) else MulDiv(shares, p.vestingFund, p.vestingShares)
  }

  lemma SharesForNonNegative(steem: int, p: Props)
    requires 0 <= steem && 0 <= p.vestingShares
    ensures 0 <= SharesFor(steem, p)
    ensures 0 < steem && p.vestingShares == 0 ==> SharesFor(steem, p) == 1000 * steem
    ensures steem == 0 ==> SharesFor(steem, p) == 0
  {
    assert 0 <= steem * p.vestingShares;
  }

  /**
   New shares are bought at the price of the old ones, rounded down: nobody's shares lose STEEM behind
   them, and one share more would have cost the others something.
   */
  lemma SharesAtThePrice(steem: int, p: Props)
    requires 0 <= steem && 0 < p.vestingFund && 0 < p.vestingShares
    ensures var bought := SharesFor(steem, p); 0 <= bought && bought * p.vestingFund <= steem * p.vestingShares < (bought + 1) * p.vestingFund
  {
    MulDivBounds(steem, p.vestingShares, p.vestingFund);
  }

  /** Shares are sold at the price of all, rounded down. */
  lemma SteemAtThePrice(shares: int, p: Props)
    requires 0 <= shares && 0 < p.vestingFund && 0 < p.vestingShares
    ensures var paid := SteemFor(shares, p); 0 <= paid && paid * p.vestingShares <= shares * p.vestingFund < (paid + 1) * p.vestingShares
  {
    MulDivBounds(shares, p.vestingFund, p.vestingShares);
  }

  /** Before there are shares, or STEEM behind them, a thousand shares are worth one STEEM. */
  lemma FirstPrice(amount: int, p: Props)
    requires 0 <= amount && (p.vestingShares == 0 || p.vestingFund == 0) && 0 <= p.vestingShares && 0 <= p.vestingFund
    ensures SharesFor(amount, p) == 1000 * amount && SteemFor(1000 * amount, p) == amount
  {
  }

  /** Powering up and taking the shares out again never gains anything. */
  lemma NoFreeSteem(steem: int, p: Props)
    requires 0 <= steem && 0 < p.vestingFund && 0 < p.vestingShares
    ensures var bought := SharesFor(steem, p);
      SteemFor(bought, p.(vestingFund := p.vestingFund + steem, vestingShares := p.vestingShares + bought)) <= steem
  {
    var bought, f, s := SharesFor(steem, p), p.vestingFund, p.vestingShares;
    SharesAtThePrice(steem, p);
    var q := p.(vestingFund := f + steem, vestingShares := s + bought);
    SteemAtThePrice(bought, q);
    hide SharesFor, SteemFor;
    var paid := SteemFor(bought, q);
    assert bought * (f + steem) == bought * f + bought * steem && steem * (s + bought) == steem * s + bought * steem;
    CancelFactor(paid, steem, s + bought);
  }

  /**
   Shares taken out leave the rest covered: the fund pays at most what it holds, and some STEEM
   stays behind every share that stays.
   */
  lemma SteemForCovered(shares: int, p: Props)
    requires 0 <= shares <= p.vestingShares && 0 <= p.vestingFund && (0 < p.vestingShares ==> 0 < p.vestingFund)
    ensures 0 <= SteemFor(shares, p) <= p.vestingFund
    ensures 0 < p.vestingShares - shares ==> 0 < p.vestingFund - SteemFor(shares, p)
  {
    if 0 < p.vestingShares {
      MulDivShare(p.vestingFund, shares, p.vestingShares);
      assert shares * p.vestingFund == p.vestingFund * shares;
      if shares < p.vestingShares {
        MulDivAtLeast(shares, p.vestingFund, p.vestingShares, p.vestingFund);
        assert shares * p.vestingFund < p.vestingFund * p.vestingShares;
      }
    }
  }

  const SBD_STOP_PERCENT: int := 500
  const SBD_START_PERCENT: int := 200

  /** How much of a reward is printed as SBD, given the SBD share of the market in hundredths of a percent. */
  function PrintRate(percent: int): (rate: int)
    ensures 0 <= rate <= HUNDRED_PERCENT
    ensures rate == HUNDRED_PERCENT <==> percent <= SBD_START_PERCENT
    ensures rate == 0 <==> SBD_STOP_PERCENT <= percent
  {
    if percent <= SBD_START_PERCENT then HUNDRED_PERCENT
    else if percent >= SBD_STOP_PERCENT then 0
    else (SBD_STOP_PERCENT - percent) * HUNDRED_PERCENT / (SBD_STOP_PERCENT - SBD_START_PERCENT)
  }

  /** Between the limits the print rate falls linearly, rounded down, and it never rises with the share of SBD. */
  lemma PrintRateIs(percent: int, more: int)
    ensures SBD_START_PERCENT <= percent <= SBD_STOP_PERCENT ==>
      var rate, whole := PrintRate(percent), SBD_STOP_PERCENT - SBD_START_PERCENT;
      rate * whole <= (SBD_STOP_PERCENT - percent) * HUNDRED_PERCENT < (rate + 1) * whole
    ensures percent <= more ==> PrintRate(more) <= PrintRate(percent)
  {
  }

  // ----- sign invariants -----

  ghost predicate PurseOk(p: Purse)
  {
    0 <= p.steem && 0 <= p.sbd.balance && 0 <= p.savings && 0 <= p.savingsSbd.balance && 0 <= p.rewardSteem && 0 <= p.rewardSbd
  }

  ghost predicate StakeOk(s: Stake)
  {
    0 <= s.vests && 0 <= s.rewardVests && 0 <= s.rewardVestSteem
  }

  ghost predicate EscrowOk(e: Escrow)
  {
    && 0 <= e.steem && 0 <= e.sbd && 0 <= e.fee.amount && e.fee.symbol != VESTS
    && (e.toApproved && e.agentApproved ==> e.fee.amount == 0)   // the fee is paid with the second approval
  }

  ghost predicate PursesOk(m: map<Account, Purse>) { forall a :: a in m ==> PurseOk(m[a]) }
  ghost predicate StakesOk(m: map<Account, Stake>) { forall a :: a in m ==> StakeOk(m[a]) }
  ghost predicate EscrowsOk(m: map<(Account, int), Escrow>) { forall k :: k in m ==> EscrowOk(m[k]) }
  ghost predicate ConversionsOk(m: map<(Account, int), Conversion>) { forall k :: k in m ==> 0 <= m[k].sbd }
  ghost predicate WithdrawalsOk(m: map<(Account, int), Withdrawal>)
  {
    forall k :: k in m ==> 0 <= m[k].amount.amount && m[k].amount.symbol != VESTS
  }
  ghost predicate OrdersOk(m: map<int, Order>) { forall k :: k in m ==> 0 <= m[k].forSale }

  ghost predicate PropsOk(p: Props)
  {
    && 0 <= p.vestingFund && (0 < p.vestingShares ==> 0 < p.vestingFund) && 0 <= p.rewardFund
    && 0 <= p.interestRate && 0 <= p.printRate <= HUNDRED_PERCENT
  }

  lemma PurseAt(m: map<Account, Purse>, a: Account)
    requires PursesOk(m) && a in m
    ensures PurseOk(m[a])
  {
  }

  lemma StakeAt(m: map<Account, Stake>, a: Account)
    requires StakesOk(m) && a in m
    ensures StakeOk(m[a])
  {
  }

  lemma StakeTotals(m: map<Account, Stake>)
    requires StakesOk(m)
    ensures 0 <= SumMap(m, VestsOf) && 0 <= SumMap(m, RewardVestsOf) && 0 <= SumMap(m, RewardVestSteemOf)
  {
    forall a | a in m ensures 0 <= VestsOf(m[a]) && 0 <= RewardVestsOf(m[a]) && 0 <= RewardVestSteemOf(m[a]) {
      assert StakeOk(m[a]);
    }
    SumMapNonNegative(m, VestsOf);
    SumMapNonNegative(m, RewardVestsOf);
    SumMapNonNegative(m, RewardVestSteemOf);
  }

  lemma SumsNonNegative(db: Database)
    requires db.Covered()
    ensures 0 <= PurseSteem(db.purses) && 0 <= PurseSbd(db.purses) && 0 <= OrderSteem(db.orders)
    ensures 0 <= OrderSbd(db.orders)
    ensures 0 <= EscrowSteem(db.escrows) && 0 <= EscrowSbd(db.escrows) && 0 <= WithdrawalSteem(db.withdrawals)
    ensures 0 <= WithdrawalSbd(db.withdrawals)
    ensures 0 <= ConversionSbd(db.conversions) && 0 <= StakeRewardSteem(db.stakes)
  {
    var purses, orders, escrows, withdrawals, conversions := db.purses, db.orders, db.escrows, db.withdrawals, db.conversions;
    StakeTotals(db.stakes);
    hide SumMap;
    forall a | a in purses ensures 0 <= SteemOf(purses[a]) && 0 <= SbdOf(purses[a]) { assert PurseOk(purses[a]); }
    SumMapNonNegative(purses, SteemOf);
    SumMapNonNegative(purses, SbdOf);
    forall k | k in orders ensures 0 <= OrderSteemOf(orders[k]) && 0 <= OrderSbdOf(orders[k]) {}
    SumMapNonNegative(orders, OrderSteemOf);
    SumMapNonNegative(orders, OrderSbdOf);
    forall k | k in escrows ensures 0 <= EscrowSteemOf(escrows[k]) && 0 <= EscrowSbdOf(escrows[k]) { assert EscrowOk(escrows[k]); }
    SumMapNonNegative(escrows, EscrowSteemOf);
    SumMapNonNegative(escrows, EscrowSbdOf);
    SumMapNonNegative(withdrawals, WithdrawalSteemOf);
    SumMapNonNegative(withdrawals, WithdrawalSbdOf);
    SumMapNonNegative(conversions, ConversionSbdOf);
  }

  /** No supply counter of a valid ledger is negative. */
  lemma SuppliesNonNegative(db: Database)
    requires db.Valid() && 0 <= FundTotal(db.funds)
    ensures 0 <= db.props.currentSupply && 0 <= db.props.sbdSupply
  {
    hide SumMap, FundTotal, PursesOk, StakesOk, OrdersOk, EscrowsOk, ConversionsOk, WithdrawalsOk;
    SumsNonNegative(db);
  }

  lemma OneStakeWithinTotal(m: map<Account, Stake>, a: Account)
    requires a in m && StakesOk(m)
    ensures 0 <= m[a].vests <= StakeVests(m)
  {
    forall b | b in m ensures 0 <= VestsOf(m[b]) { assert StakeOk(m[b]); }
    SumMapBounds(m, a, VestsOf);
  }

  /** The same accounts hold at least as many shares. */
  ghost predicate Grown(was: map<Account, Stake>, now: map<Account, Stake>)
  {
    now.Keys == was.Keys && forall a :: a in was ==> was[a].vests <= now[a].vests
  }

  /** Nobody's shares in circulation moved. */
  ghost predicate SameShares(was: map<Account, Stake>, now: map<Account, Stake>)
  {
    now.Keys == was.Keys && forall a :: a in was ==> now[a].vests == was[a].vests
  }

  // ----- references -----

  ghost predicate OrdersLinked(m: map<int, Order>, accounts: set<Account>, next: int)
  {
    forall k :: k in m ==> m[k].seller in accounts && k < next
  }
  ghost predicate EscrowsLinked(m: map<(Account, int), Escrow>, accounts: set<Account>)
  {
    forall k :: k in m ==> k.0 in accounts && m[k].to in accounts && m[k].agent in accounts
  }
  ghost predicate ConversionsLinked(m: map<(Account, int), Conversion>, accounts: set<Account>)
  {
    forall k :: k in m ==> k.0 in accounts
  }
  ghost predicate WithdrawalsLinked(m: map<(Account, int), Withdrawal>, accounts: set<Account>)
  {
    forall k :: k in m ==> k.0 in accounts && m[k].to in accounts
  }

  lemma LinksOutliveGrowth(orders: map<int, Order>, escrows: map<(Account, int), Escrow>,
                           conversions: map<(Account, int), Conversion>,
                           withdrawals: map<(Account, int), Withdrawal>, accounts: set<Account>, next: int, a: Account)
    requires OrdersLinked(orders, accounts, next) && EscrowsLinked(escrows, accounts)
    requires ConversionsLinked(conversions, accounts) && WithdrawalsLinked(withdrawals, accounts)
    ensures OrdersLinked(orders, accounts + {a}, next) && EscrowsLinked(escrows, accounts + {a})
    ensures ConversionsLinked(conversions, accounts + {a}) && WithdrawalsLinked(withdrawals, accounts + {a})
  {
  }

  lemma EmptyAccountHoldsNothing(purses: map<Account, Purse>, stakes: map<Account, Stake>, a: Account)
    requires a !in purses && a !in stakes && PursesOk(purses) && StakesOk(stakes)
    ensures var m := purses[a := EmptyPurse()]; PursesOk(m) && PurseSteem(m) == PurseSteem(purses) && PurseSbd(m) == PurseSbd(purses)
    ensures var m := stakes[a := Stake(0, 0, 0)];
      && StakesOk(m) && StakeVests(m) == StakeVests(stakes)
      && StakeRewardVests(m) == StakeRewardVests(stakes) && StakeRewardSteem(m) == StakeRewardSteem(stakes)
  {
    hide SumMap;
    SumMapInsert(purses, a, EmptyPurse(), SteemOf);
    SumMapInsert(purses, a, EmptyPurse(), SbdOf);
    SumMapInsert(stakes, a, Stake(0, 0, 0), VestsOf);
    SumMapInsert(stakes, a, Stake(0, 0, 0), RewardVestsOf);
    SumMapInsert(stakes, a, Stake(0, 0, 0), RewardVestSteemOf);
  }

  // ----- genesis -----

  function GenesisPurses(supply: nat): map<Account, Purse>
  {
    map[MINER_ACCOUNT := EmptyPurse(), NULL_ACCOUNT := EmptyPurse(), TEMP_ACCOUNT := EmptyPurse(), INIT_MINER := EmptyPurse().(steem := supply)]
  }

  function GenesisStakes(): map<Account, Stake>
  {
    var none := Stake(0, 0, 0);
    map[MINER_ACCOUNT := none, NULL_ACCOUNT := none, TEMP_ACCOUNT := none, INIT_MINER := none]
  }

  lemma GenesisTotals(supply: nat)
    ensures PurseSteem(GenesisPurses(supply)) == supply && PurseSbd(GenesisPurses(supply)) == 0
    ensures StakeVests(GenesisStakes()) == StakeRewardVests(GenesisStakes()) == StakeRewardSteem(GenesisStakes()) == 0
  {
    hide SumMap;
    var empty, m, s := GenesisPurses(0), GenesisPurses(supply), GenesisStakes();
    forall a | a in empty ensures SteemOf(empty[a]) == 0 && SbdOf(empty[a]) == 0 {}
    SumMapZero(empty, SteemOf);
    assert m == empty[INIT_MINER := m[INIT_MINER]];
    SumMapUpdate(empty, INIT_MINER, m[INIT_MINER], SteemOf);
    forall a | a in m ensures SbdOf(m[a]) == 0 {}
    SumMapZero(m, SbdOf);
    forall a | a in s ensures s[a] == Stake(0, 0, 0) {}
    StakeSumsZero(s);
  }

  lemma GenesisSound(supply: nat)
    ensures PursesOk(GenesisPurses(supply)) && StakesOk(GenesisStakes())
    ensures GenesisPurses(supply).Keys == GenesisStakes().Keys == {MINER_ACCOUNT, NULL_ACCOUNT, TEMP_ACCOUNT, INIT_MINER}
  {
  }

  lemma StakeSumsZero(s: map<Account, Stake>)
    requires forall a :: a in s ==> s[a] == Stake(0, 0, 0)
    ensures StakeVests(s) == StakeRewardVests(s) == StakeRewardSteem(s) == 0
  {
    hide SumMap;
    forall a | a in s ensures VestsOf(s[a]) == 0 && RewardVestsOf(s[a]) == 0 && RewardVestSteemOf(s[a]) == 0 {}
    SumMapZero(s, VestsOf);
    SumMapZero(s, RewardVestsOf);
    SumMapZero(s, RewardVestSteemOf);
  }

  lemma NothingHeld()
    ensures OrderSteem(map[]) == OrderSbd(map[]) == EscrowSteem(map[]) == EscrowSbd(map[]) == 0
    ensures WithdrawalSteem(map[]) == WithdrawalSbd(map[]) == ConversionSbd(map[]) == 0
  {
  }

  class Database {
    var now: int                                       // head_block_time
    var accounts: set<Account>
    var median: Price                                  // current_median_history
    var props: Props
    var purses: map<Account, Purse>
    var stakes: map<Account, Stake>
    var orders: map<int, Order>
    var nextOrder: int
    var escrows: map<(Account, int), Escrow>           // by (from, escrow_id)
    var conversions: map<(Account, int), Conversion>   // by (owner, requestid)
    var withdrawals: map<(Account, int), Withdrawal>   // by (from, request_id)
    var funds: seq<Fund>

    /**
     init_genesis: the first miner owns the whole supply and nothing else exists. The reward fund, which
     the hardforks create from an empty pool, is already there.
     */
    constructor (supply: nat, time: int, posts: Fund)
      requires posts.balance == 0
      ensures Valid() && now == time && accounts == {MINER_ACCOUNT, NULL_ACCOUNT, TEMP_ACCOUNT, INIT_MINER} && median == NoPrice && funds == [posts]
      ensures props == Props(supply, 0, supply, 0, 0, 0, 0, 0, 0, HUNDRED_PERCENT) && orders == map[]
      ensures purses == GenesisPurses(supply) && stakes == GenesisStakes()
    {
      now, accounts, median, funds := time, {MINER_ACCOUNT, NULL_ACCOUNT, TEMP_ACCOUNT, INIT_MINER}, NoPrice, [posts];
      props := Props(supply, 0, supply, 0, 0, 0, 0, 0, 0, HUNDRED_PERCENT);
      purses, stakes := GenesisPurses(supply), GenesisStakes();
      orders, nextOrder, escrows, conversions, withdrawals := map[], 0, map[], map[], map[];
      new;
      hide SumMap, GenesisPurses, GenesisStakes, PursesOk, StakesOk, PurseSteem, PurseSbd, StakeVests, StakeRewardVests, StakeRewardSteem,
           OrderSteem, OrderSbd, EscrowSteem, EscrowSbd, WithdrawalSteem, WithdrawalSbd, ConversionSbd;
      GenesisTotals(supply);
      GenesisSound(supply);
      NothingHeld();
      assert FundTotal(funds) == posts.balance + FundTotal([]);
    }

    /** The equations of validate_invariants: whatever is held anywhere adds up to the global counters. */
    ghost predicate Balanced()
      reads this
    {
      && props.currentSupply == PurseSteem(purses) + OrderSteem(orders) + EscrowSteem(escrows) + WithdrawalSteem(withdrawals)
                              + FundTotal(funds) + props.vestingFund + props.rewardFund + props.pendingSteem
      && props.sbdSupply == PurseSbd(purses) + OrderSbd(orders) + EscrowSbd(escrows) + WithdrawalSbd(withdrawals) + ConversionSbd(conversions)
      && props.vestingShares == StakeVests(stakes)
      && props.pendingShares == StakeRewardVests(stakes)
      && props.pendingSteem == StakeRewardSteem(stakes)
    }

    /** Nothing is overdrawn, and shares are never without STEEM behind them. */
    ghost predicate Covered()
      reads this
    {
      && PursesOk(purses) && StakesOk(stakes) && OrdersOk(orders) && EscrowsOk(escrows)
      && ConversionsOk(conversions) && WithdrawalsOk(withdrawals) && PropsOk(props)
    }

    /** References between objects resolve, so get_account never throws inside block processing. */
    ghost predicate Linked()
      reads this
    {
      && purses.Keys == accounts && stakes.Keys == accounts && Sound(median)
      && OrdersLinked(orders, accounts, nextOrder) && EscrowsLinked(escrows, accounts)
      && ConversionsLinked(conversions, accounts) && WithdrawalsLinked(withdrawals, accounts)
    }

    ghost predicate Valid()
      reads this
    {
      Linked() && Covered() && Balanced()
    }

    lemma WithdrawalFacts(k: (Account, int))
      requires Valid() && k in withdrawals
      ensures k.0 in purses && withdrawals[k].to in purses && 0 <= withdrawals[k].amount.amount
      ensures withdrawals[k].amount.symbol != VESTS
    {
    }

    lemma EscrowFacts(k: (Account, int))
      requires Valid() && k in escrows
      ensures k.0 in purses && escrows[k].to in purses && escrows[k].agent in purses && EscrowOk(escrows[k])
    {
    }

    // ----- primitive adjustments -----

    /** adjust_balance; false when it throws: wrong symbol, or interest due without a price feed. */
    method AdjustBalance(a: Account, x: Asset) returns (ok: bool)
      requires a in purses && Sound(median)
      modifies this`purses, this`props
      ensures ok == !Blocked(old(purses)[a].sbd, x, now, median)
      ensures ok ==> purses == old(purses)[a := Credited(old(purses)[a], x, now, old(props).interestRate)]
      ensures ok ==> props == old(props).(sbdSupply := old(props).sbdSupply + Earned(old(purses)[a].sbd, x, now, old(props).interestRate),
                                          virtualSupply := props.virtualSupply)
      ensures ok && x.symbol == STEEM ==> props == old(props)
      ensures ok && 0 <= old(props).interestRate ==> old(props).virtualSupply <= props.virtualSupply
      ensures ok ==> PurseSteem(purses) == PurseSteem(old(purses)) + AmountIn(x, STEEM)
      ensures ok ==>
        PurseSbd(purses) == PurseSbd(old(purses)) + AmountIn(x, SBD) + props.sbdSupply - old(props).sbdSupply
      ensures ok && PursesOk(old(purses)) && 0 <= Liquid(old(purses)[a], x.symbol) + x.amount && 0 <= old(props).interestRate
        ==> PursesOk(purses)
      ensures purses.Keys == old(purses).Keys
      ensures !ok ==> unchanged(this)
    {
      hide SumMap;
      var p := purses[a];
      match x.symbol {
        case STEEM =>
          Refill(a, p.(steem := p.steem + x.amount));
        case SBD =>
          if InterestDue(p.sbd, now) {
            if median.NoPrice? {
              return false;
            }
            InterestSign(p.sbd, now, props.interestRate);
            PayInterest(Interest(p.sbd, now, props.interestRate));
          }
          InterestSign(p.sbd, now, props.interestRate);
          Refill(a, p.(sbd := Moved(p.sbd, x.amount, now, props.interestRate)));
        case VESTS =>
          return false;
      }
      return true;
    }

    /** A STEEM and then an SBD adjustment of the same account, as the escrow evaluators make them. */
    method AdjustBoth(a: Account, steem: int, sbd: int) returns (ok: bool)
      requires a in purses && Sound(median)
      modifies this`purses, this`props
      ensures ok == !Blocked(old(purses)[a].sbd, Asset(sbd, SBD), now, median)
      ensures ok ==> purses == old(purses)[a := CreditedBoth(old(purses)[a], steem, sbd, now, old(props).interestRate)]
      ensures ok ==> props == old(props).(sbdSupply := props.sbdSupply, virtualSupply := props.virtualSupply)
      ensures ok && 0 <= old(props).interestRate ==> old(props).virtualSupply <= props.virtualSupply
      ensures ok ==> PurseSteem(purses) == PurseSteem(old(purses)) + steem
      ensures ok ==> PurseSbd(purses) == PurseSbd(old(purses)) + sbd + props.sbdSupply - old(props).sbdSupply
      ensures ok && PursesOk(old(purses)) && 0 <= old(purses)[a].steem + steem && 0 <= old(purses)[a].sbd.balance + sbd && 0 <= old(props).interestRate
        ==> PursesOk(purses)
      ensures purses.Keys == old(purses).Keys
    {
      hide SumMap, Moved, InterestDue, Interest;
      ok := AdjustBalance(a, Asset(steem, STEEM));
      ok := AdjustBalance(a, Asset(sbd, SBD));
    }

    /** adjust_savings_balance: the same interest rules on the savings balance. */
    method AdjustSavings(a: Account, x: Asset) returns (ok: bool)
      requires a in purses && Sound(median)
      modifies this`purses, this`props
      ensures ok == !Blocked(old(purses)[a].savingsSbd, x, now, median)
      ensures ok ==> purses == old(purses)[a := CreditedSavings(old(purses)[a], x, now, old(props).interestRate)]
      ensures ok ==> props == old(props).(sbdSupply := old(props).sbdSupply + Earned(old(purses)[a].savingsSbd, x, now, old(props).interestRate),
                                          virtualSupply := props.virtualSupply)
      ensures ok && x.symbol == STEEM ==> props == old(props)
      ensures ok && 0 <= old(props).interestRate ==> old(props).virtualSupply <= props.virtualSupply
      ensures ok ==> PurseSteem(purses) == PurseSteem(old(purses)) + AmountIn(x, STEEM)
      ensures ok ==>
        PurseSbd(purses) == PurseSbd(old(purses)) + AmountIn(x, SBD) + props.sbdSupply - old(props).sbdSupply
      ensures ok && PursesOk(old(purses)) && 0 <= Saved(old(purses)[a], x.symbol) + x.amount && 0 <= old(props).interestRate
        ==> PursesOk(purses)
      ensures purses.Keys == old(purses).Keys
      ensures !ok ==> unchanged(this)
    {
      hide SumMap;
      var p := purses[a];
      match x.symbol {
        case STEEM =>
          Refill(a, p.(savings := p.savings + x.amount));
        case SBD =>
          if InterestDue(p.savingsSbd, now) {
            if median.NoPrice? {
              return false;
            }
            InterestSign(p.savingsSbd, now, props.interestRate);
            PayInterest(Interest(p.savingsSbd, now, props.interestRate));
          }
          InterestSign(p.savingsSbd, now, props.interestRate);
          Refill(a, p.(savingsSbd := Moved(p.savingsSbd, x.amount, now, props.interestRate)));
        case VESTS =>
          return false;
      }
      return true;
    }

    /** adjust_reward_balance: no interest on unclaimed rewards. */
    method AdjustReward(a: Account, x: Asset) returns (ok: bool)
      requires a in purses
      modifies this`purses
      ensures ok == (x.symbol != VESTS)
      ensures ok ==> var p := old(purses)[a];
        purses == old(purses)[a := if x.symbol == STEEM then p.(rewardSteem := p.rewardSteem + x.amount) else p.(rewardSbd := p.rewardSbd + x.amount)]
      ensures ok ==>
        && PurseSteem(purses) == PurseSteem(old(purses)) + AmountIn(x, STEEM)
        && PurseSbd(purses) == PurseSbd(old(purses)) + AmountIn(x, SBD)
      ensures !ok ==> unchanged(this)
    {
      hide SumMap;
      var p := purses[a];
      match x.symbol {
        case STEEM => Refill(a, p.(rewardSteem := p.rewardSteem + x.amount));
        case SBD => Refill(a, p.(rewardSbd := p.rewardSbd + x.amount));
        case VESTS => return false;
      }
      return true;
    }

    /** One purse replaced: both totals move by exactly the change of its totals. */
    method Refill(a: Account, p: Purse)
      requires a in purses
      modifies this`purses
      ensures purses == old(purses)[a := p]
      ensures PurseSteem(purses) == PurseSteem(old(purses)) + SteemOf(p) - SteemOf(old(purses)[a])
      ensures PurseSbd(purses) == PurseSbd(old(purses)) + SbdOf(p) - SbdOf(old(purses)[a])
      ensures PursesOk(old(purses)) && PurseOk(p) ==> PursesOk(purses)
    {
      SumMapUpdate(purses, a, p, SteemOf);
      SumMapUpdate(purses, a, p, SbdOf);
      purses := purses[a := p];
    }

    /** Interest enters the SBD supply and the virtual supply before the holder is credited. */
    method PayInterest(i: int)
      requires median.Price? && Sound(median)
      modifies this`props
      ensures props == old(props).(sbdSupply := old(props).sbdSupply + i, virtualSupply := old(props).virtualSupply + ToSteem(median, i))
      ensures 0 <= i ==> old(props).virtualSupply <= props.virtualSupply
    {
      if 0 <= i {
        MulDivBounds(i, median.steem, median.sbd);
      }
      props := props.(sbdSupply := props.sbdSupply + i, virtualSupply := props.virtualSupply + ToSteem(median, i));
    }

    /** adjust_supply with adjust_vesting off; false when an SBD change meets a missing price feed. */
    method AdjustSupply(x: Asset) returns (ok: bool)
      requires Sound(median)
      modifies this`props
      ensures ok == (x.symbol == STEEM || (x.symbol == SBD && median.Price?))
      ensures ok ==> props == old(props).(currentSupply := old(props).currentSupply + AmountIn(x, STEEM),
                                          sbdSupply := old(props).sbdSupply + AmountIn(x, SBD), virtualSupply := props.virtualSupply)
      ensures ok && x.symbol == STEEM ==> props.virtualSupply == old(props).virtualSupply + x.amount
      ensures ok && x.symbol == SBD ==> props.virtualSupply == props.currentSupply + ToSteem(median, props.sbdSupply)
      ensures !ok ==> unchanged(this)
    {
      match x.symbol {
        case STEEM =>
          props := props.(currentSupply := props.currentSupply + x.amount, virtualSupply := props.virtualSupply + x.amount);
        case SBD =>
          if median.NoPrice? {
            return false;
          }
          var sbd := props.sbdSupply + x.amount;
          props := props.(sbdSupply := sbd, virtualSupply := props.currentSupply + ToSteem(median, sbd));
        case VESTS =>
          return false;
      }
      return true;
    }

    /** One stake replaced: the three share equations move by exactly the change of its fields. */
    method Restake(a: Account, s: Stake)
      requires a in stakes
      modifies this`stakes
      ensures stakes == old(stakes)[a := s]
      ensures StakeVests(stakes) == StakeVests(old(stakes)) + s.vests - old(stakes)[a].vests
      ensures StakeRewardVests(stakes) == StakeRewardVests(old(stakes)) + s.rewardVests - old(stakes)[a].rewardVests
      ensures StakeRewardSteem(stakes) == StakeRewardSteem(old(stakes)) + s.rewardVestSteem - old(stakes)[a].rewardVestSteem
      ensures StakesOk(old(stakes)) && StakeOk(s) ==> StakesOk(stakes)
    {
      SumMapUpdate(stakes, a, s, VestsOf);
      SumMapUpdate(stakes, a, s, RewardVestsOf);
      SumMapUpdate(stakes, a, s, RewardVestSteemOf);
      stakes := stakes[a := s];
    }

    /**
     create_vesting: STEEM that was taken from somewhere becomes vesting shares, spendable at once
     or pending as a reward. False when the reward price has nothing to divide by.
     */
    method CreateVesting(a: Account, steem: int, toReward: bool) returns (ok: bool, shares: int)
      requires a in stakes && 0 <= steem && 0 <= props.vestingShares
      modifies this`stakes, this`props
      ensures ok == (toReward ==> 0 < old(props).vestingFund + old(props).pendingSteem)
      ensures ok ==> shares == if toReward then MulDiv(steem, old(props).vestingShares + old(props).pendingShares, old(props).vestingFund + old(props).pendingSteem)
                               else SharesFor(steem, old(props))
      ensures ok && !toReward ==>
        && stakes == old(stakes)[a := old(stakes)[a].(vests := old(stakes)[a].vests + shares)]
        && props == old(props).(vestingFund := old(props).vestingFund + steem, vestingShares := old(props).vestingShares + shares)
      ensures ok && toReward ==>
        var s := old(stakes)[a];
        && stakes == old(stakes)[a := s.(rewardVests := s.rewardVests + shares, rewardVestSteem := s.rewardVestSteem + steem)]
        && props == old(props).(pendingSteem := old(props).pendingSteem + steem, pendingShares := old(props).pendingShares + shares)
      ensures ok && (toReward ==> 0 <= old(props).pendingShares) ==>
        && 0 <= shares && (StakesOk(old(stakes)) ==> StakesOk(stakes))
      ensures ok && PropsOk(old(props)) ==> PropsOk(props)
      ensures stakes.Keys == old(stakes).Keys
      ensures ok ==> StakeVests(stakes) == StakeVests(old(stakes)) + if toReward then 0 else shares
      ensures ok ==> StakeRewardVests(stakes) == StakeRewardVests(old(stakes)) + if toReward then shares else 0
      ensures ok ==> StakeRewardSteem(stakes) == StakeRewardSteem(old(stakes)) + if toReward then steem else 0
      ensures !ok ==> unchanged(this)
    {
      hide SumMap, MulDiv;
      var s := stakes[a];
      if toReward {
        var fund := props.vestingFund + props.pendingSteem;
        if fund <= 0 {
          return false, 0;
        }
        shares := MulDiv(steem, props.vestingShares + props.pendingShares, fund);
        if 0 <= props.pendingShares {
          MulDivBounds(steem, props.vestingShares + props.pendingShares, fund);
        }
        Restake(a, s.(rewardVests := s.rewardVests + shares, rewardVestSteem := s.rewardVestSteem + steem));
        props := props.(pendingSteem := props.pendingSteem + steem, pendingShares := props.pendingShares + shares);
      } else {
        SharesForNonNegative(steem, props);
        shares := SharesFor(steem, props);
        Restake(a, s.(vests := s.vests + shares));
        props := props.(vestingFund := props.vestingFund + steem, vestingShares := props.vestingShares + shares);
      }
      ok := true;
    }

    /**
     create_sbd with to_reward_balance: part of the STEEM is printed as SBD at the median price and
     leaves the STEEM supply. Without a feed everything goes to the liquid balance.
     */
    method CreateSbd(a: Account, steem: int) returns (ok: bool)
      requires a in purses && Sound(median) && 0 <= steem && 0 <= props.printRate <= HUNDRED_PERCENT
      modifies this`purses, this`props
      ensures ok && purses.Keys == old(purses).Keys
      ensures PursesOk(old(purses)) ==> PursesOk(purses)
      ensures purses == old(purses)[a := Rewarded(old(purses)[a], steem, median, old(props).printRate)]
      ensures PurseSteem(purses) - props.currentSupply == PurseSteem(old(purses)) - old(props).currentSupply + steem
      ensures PurseSbd(purses) - props.sbdSupply == PurseSbd(old(purses)) - old(props).sbdSupply
      ensures props == old(props).(currentSupply := props.currentSupply, sbdSupply := props.sbdSupply, virtualSupply := props.virtualSupply)
    {
      hide SumMap;
      if steem == 0 {
        return true;
      }
      if median.Price? {
        var toSbd := MulDiv(props.printRate, steem, HUNDRED_PERCENT);
        MulDivShare(steem, props.printRate, HUNDRED_PERCENT);
        assert props.printRate * steem == steem * props.printRate;
        var sbd := ToSbd(median, toSbd);
        MulDivBounds(toSbd, median.sbd, median.steem);
        ok := AdjustReward(a, Asset(sbd, SBD));
        ok := AdjustReward(a, Asset(steem - toSbd, STEEM));
        ok := AdjustSupply(Asset(-toSbd, STEEM));
        ok := AdjustSupply(Asset(sbd, SBD));
      } else {
        ok := AdjustBalance(a, Asset(steem, STEEM));
      }
    }

    /** update_virtual_supply: recomputed from the two supplies. */
    method UpdateVirtualSupply() returns (ok: bool)
      requires Sound(median)
      modifies this`props
      ensures ok ==>
        props.virtualSupply == props.currentSupply + if median.Price? then ToSteem(median, props.sbdSupply) else 0
      ensures ok ==> props == old(props).(virtualSupply := props.virtualSupply, printRate := props.printRate)
      ensures ok && 0 <= old(props).printRate <= HUNDRED_PERCENT ==> 0 <= props.printRate <= HUNDRED_PERCENT
      ensures ok ==> props.printRate == if median.Price? && 0 < props.virtualSupply
        then PrintRate(MulDiv(ToSteem(median, props.sbdSupply), HUNDRED_PERCENT, props.virtualSupply)) else old(props).printRate
      ensures ok == (median.Price? ==> props.virtualSupply > 0)
      ensures ok <==> (median.Price? ==> 0 < old(props).currentSupply + ToSteem(median, old(props).sbdSupply))
    {
      var sbd := if median.Price? then ToSteem(median, props.sbdSupply) else 0;
      props := props.(virtualSupply := props.currentSupply + sbd);
      if median.Price? {
        if props.virtualSupply <= 0 {
          return false;
        }
        var percent := MulDiv(sbd, HUNDRED_PERCENT, props.virtualSupply);
        props := props.(printRate := PrintRate(percent));
      }
      return true;
    }

    /** A new account object: empty purse, no stake. */
    method CreateAccount(a: Account)
      requires Valid() && a !in accounts
      modifies this`accounts, this`purses, this`stakes
      ensures Valid() && accounts == old(accounts) + {a}
      ensures purses == old(purses)[a := EmptyPurse()] && stakes == old(stakes)[a := Stake(0, 0, 0)]
    {
      hide SumMap, OrdersOk, OrdersLinked, EscrowsOk, EscrowsLinked, WithdrawalsOk, WithdrawalsLinked, ConversionsOk,
        ConversionsLinked, PursesOk, StakesOk, PropsOk;
      LinksOutliveGrowth(orders, escrows, conversions, withdrawals, accounts, nextOrder, a);
      EmptyAccountHoldsNothing(purses, stakes, a);
      accounts := accounts + {a};
      purses := purses[a := EmptyPurse()];
      stakes := stakes[a := Stake(0, 0, 0)];
    }

    // ----- creating, modifying and removing objects -----

    method CreateEscrow(k: (Account, int), x: Escrow)
      requires k !in escrows
      modifies this`escrows
      ensures escrows == old(escrows)[k := x]
      ensures EscrowSteem(escrows) == EscrowSteem(old(escrows)) + EscrowSteemOf(x)
      ensures EscrowSbd(escrows) == EscrowSbd(old(escrows)) + EscrowSbdOf(x)
      ensures EscrowsOk(old(escrows)) && EscrowOk(x) ==> EscrowsOk(escrows)
      ensures EscrowsLinked(old(escrows), accounts) && k.0 in accounts && x.to in accounts && x.agent in accounts ==> EscrowsLinked(escrows, accounts)
    {
      SumMapInsert(escrows, k, x, EscrowSteemOf);
      SumMapInsert(escrows, k, x, EscrowSbdOf);
      escrows := escrows[k := x];
    }

    method RemoveEscrow(k: (Account, int))
      requires k in escrows
      modifies this`escrows
      ensures escrows == old(escrows) - {k}
      ensures EscrowSteem(escrows) == EscrowSteem(old(escrows)) - EscrowSteemOf(old(escrows)[k])
      ensures EscrowSbd(escrows) == EscrowSbd(old(escrows)) - EscrowSbdOf(old(escrows)[k])
      ensures EscrowsOk(old(escrows)) ==> EscrowsOk(escrows)
      ensures EscrowsLinked(old(escrows), accounts) ==> EscrowsLinked(escrows, accounts)
    {
      SumMapRemove(escrows, k, EscrowSteemOf);
      SumMapRemove(escrows, k, EscrowSbdOf);
      escrows := escrows - {k};
    }

    method ModifyEscrow(k: (Account, int), x: Escrow)
      requires k in escrows
      modifies this`escrows
      ensures escrows == old(escrows)[k := x]
      ensures EscrowSteem(escrows) == EscrowSteem(old(escrows)) + EscrowSteemOf(x) - EscrowSteemOf(old(escrows)[k])
      ensures EscrowSbd(escrows) == EscrowSbd(old(escrows)) + EscrowSbdOf(x) - EscrowSbdOf(old(escrows)[k])
      ensures EscrowsOk(old(escrows)) && EscrowOk(x) ==> EscrowsOk(escrows)
      ensures EscrowsLinked(old(escrows), accounts) && k.0 in accounts && x.to in accounts && x.agent in accounts ==> EscrowsLinked(escrows, accounts)
    {
      SumMapUpdate(escrows, k, x, EscrowSteemOf);
      SumMapUpdate(escrows, k, x, EscrowSbdOf);
      escrows := escrows[k := x];
    }

    method CreateOrder(k: int, x: Order)
      requires k !in orders
      modifies this`orders
      ensures orders == old(orders)[k := x]
      ensures OrderSteem(orders) == OrderSteem(old(orders)) + OrderSteemOf(x)
      ensures OrderSbd(orders) == OrderSbd(old(orders)) + OrderSbdOf(x)
      ensures OrdersOk(old(orders)) && 0 <= x.forSale ==> OrdersOk(orders)
      ensures OrdersLinked(old(orders), accounts, nextOrder) && x.seller in accounts && k < nextOrder ==> OrdersLinked(orders, accounts, nextOrder)
    {
      SumMapInsert(orders, k, x, OrderSteemOf);
      SumMapInsert(orders, k, x, OrderSbdOf);
      orders := orders[k := x];
    }

    method RemoveOrder(k: int)
      requires k in orders
      modifies this`orders
      ensures orders == old(orders) - {k}
      ensures OrderSteem(orders) == OrderSteem(old(orders)) - OrderSteemOf(old(orders)[k])
      ensures OrderSbd(orders) == OrderSbd(old(orders)) - OrderSbdOf(old(orders)[k])
      ensures OrdersOk(old(orders)) ==> OrdersOk(orders)
      ensures OrdersLinked(old(orders), accounts, nextOrder) ==> OrdersLinked(orders, accounts, nextOrder)
    {
      SumMapRemove(orders, k, OrderSteemOf);
      SumMapRemove(orders, k, OrderSbdOf);
      orders := orders - {k};
    }

    method ModifyOrder(k: int, x: Order)
      requires k in orders
      modifies this`orders
      ensures orders == old(orders)[k := x]
      ensures OrderSteem(orders) == OrderSteem(old(orders)) + OrderSteemOf(x) - OrderSteemOf(old(orders)[k])
      ensures OrderSbd(orders) == OrderSbd(old(orders)) + OrderSbdOf(x) - OrderSbdOf(old(orders)[k])
      ensures OrdersOk(old(orders)) && 0 <= x.forSale ==> OrdersOk(orders)
      ensures OrdersLinked(old(orders), accounts, nextOrder) && x.seller in accounts && k < nextOrder ==> OrdersLinked(orders, accounts, nextOrder)
    {
      SumMapUpdate(orders, k, x, OrderSteemOf);
      SumMapUpdate(orders, k, x, OrderSbdOf);
      orders := orders[k := x];
    }

    method CreateConversion(k: (Account, int), x: Conversion)
      requires k !in conversions
      modifies this`conversions
      ensures conversions == old(conversions)[k := x]
      ensures ConversionSbd(conversions) == ConversionSbd(old(conversions)) + ConversionSbdOf(x)
      ensures ConversionsOk(old(conversions)) && 0 <= x.sbd ==> ConversionsOk(conversions)
      ensures ConversionsLinked(old(conversions), accounts) && k.0 in accounts ==> ConversionsLinked(conversions, accounts)
    {
      SumMapInsert(conversions, k, x, ConversionSbdOf);
      conversions := conversions[k := x];
    }

    method RemoveConversion(k: (Account, int))
      requires k in conversions
      modifies this`conversions
      ensures conversions == old(conversions) - {k}
      ensures ConversionSbd(conversions) == ConversionSbd(old(conversions)) - ConversionSbdOf(old(conversions)[k])
      ensures ConversionsOk(old(conversions)) ==> ConversionsOk(conversions)
      ensures ConversionsLinked(old(conversions), accounts) ==> ConversionsLinked(conversions, accounts)
    {
      SumMapRemove(conversions, k, ConversionSbdOf);
      conversions := conversions - {k};
    }

    method CreateWithdrawal(k: (Account, int), x: Withdrawal)
      requires k !in withdrawals
      modifies this`withdrawals
      ensures withdrawals == old(withdrawals)[k := x]
      ensures WithdrawalSteem(withdrawals) == WithdrawalSteem(old(withdrawals)) + WithdrawalSteemOf(x)
      ensures WithdrawalSbd(withdrawals) == WithdrawalSbd(old(withdrawals)) + WithdrawalSbdOf(x)
      ensures WithdrawalsOk(old(withdrawals)) && 0 <= x.amount.amount && x.amount.symbol != VESTS ==> WithdrawalsOk(withdrawals)
      ensures WithdrawalsLinked(old(withdrawals), accounts) && k.0 in accounts && x.to in accounts ==> WithdrawalsLinked(withdrawals, accounts)
    {
      SumMapInsert(withdrawals, k, x, WithdrawalSteemOf);
      SumMapInsert(withdrawals, k, x, WithdrawalSbdOf);
      withdrawals := withdrawals[k := x];
    }

    method RemoveWithdrawal(k: (Account, int))
      requires k in withdrawals
      modifies this`withdrawals
      ensures withdrawals == old(withdrawals) - {k}
      ensures WithdrawalSteem(withdrawals) == WithdrawalSteem(old(withdrawals)) - WithdrawalSteemOf(old(withdrawals)[k])
      ensures WithdrawalSbd(withdrawals) == WithdrawalSbd(old(withdrawals)) - WithdrawalSbdOf(old(withdrawals)[k])
      ensures WithdrawalsOk(old(withdrawals)) ==> WithdrawalsOk(withdrawals)
      ensures WithdrawalsLinked(old(withdrawals), accounts) ==> WithdrawalsLinked(withdrawals, accounts)
    {
      SumMapRemove(withdrawals, k, WithdrawalSteemOf);
      SumMapRemove(withdrawals, k, WithdrawalSbdOf);
      withdrawals := withdrawals - {k};
    }
  }
}
