/** New STEEM per block: content fund, vesting fund and the block producer. */
module Inflation {
  import opened Basics
  import opened Sums
  import opened Assets
  import opened Ledger
  import opened Rewards

  const INFLATION_START: int := 978
  const INFLATION_STOP: int := 95
  const NARROWING_PERIOD: int := 250000
  const BLOCKS_PER_YEAR: int := 365 * 24 * 60 * 60 / 3
  const CONTENT_PERCENT: int := 7500
  const VESTING_PERCENT: int := 1500

  function Rate(head: int): int
  {
    var rate := INFLATION_START - head / NARROWING_PERIOD;
    if rate < INFLATION_STOP then INFLATION_STOP else rate
  }

  /** Inflation starts at 9.78 %, falls by 0.01 % every 250000 blocks, and stops falling at 0.95 %. */
  lemma RateFalls(head: int)
    requires 0 <= head
    ensures INFLATION_STOP <= Rate(head) <= INFLATION_START && Rate(0) == INFLATION_START
    ensures Rate(head + NARROWING_PERIOD) == Max(Rate(head) - 1, INFLATION_STOP)
    ensures head < NARROWING_PERIOD ==> Rate(head) == INFLATION_START
    ensures Rate(head + 1) < Rate(head) ==> (head + 1) % NARROWING_PERIOD == 0
  {
  }

  /** Three quarters of the new STEEM for content, fifteen percent for vesting, and the rest for the producer. */
  lemma PartsOfNewSteem(virtualSupply: int, head: int, content: int)
    requires 0 <= virtualSupply && 0 <= head && 0 <= content <= ContentPart(virtualSupply, head)
    ensures var n, c, v := NewSteem(virtualSupply, head), ContentPart(virtualSupply, head), VestingPart(virtualSupply, head);
      && n * (HUNDRED_PERCENT * BLOCKS_PER_YEAR) <= virtualSupply * Rate(head) < (n + 1) * (HUNDRED_PERCENT * BLOCKS_PER_YEAR)
      && 4 * c <= 3 * n < 4 * (c + 1) && 20 * v <= 3 * n < 20 * (v + 1) && content + v <= n
      && forall weight: nat, factor: nat :: 0 < factor ==>
           var pay := ProducerPay(virtualSupply, head, content, weight, factor);
           pay * factor <= (n - content - v) * MAX_WITNESSES * weight < (pay + 1) * factor
  {
    MulDivBounds(virtualSupply, Rate(head), HUNDRED_PERCENT * BLOCKS_PER_YEAR);
    var n, v := NewSteem(virtualSupply, head), VestingPart(virtualSupply, head);
    MulDivBounds(n, CONTENT_PERCENT, HUNDRED_PERCENT);
    MulDivBounds(n, VESTING_PERCENT, HUNDRED_PERCENT);
    forall weight: nat, factor: nat | 0 < factor
      ensures var pay := ProducerPay(virtualSupply, head, content, weight, factor);
        pay * factor <= (n - content - v) * MAX_WITNESSES * weight < (pay + 1) * factor {
      MulDivBounds((n - content - v) * MAX_WITNESSES, weight, factor);
    }
  }

  /** The STEEM a block may create before the producer's weight is applied. */
  function NewSteem(virtualSupply: int, head: int): int
  {
    MulDiv(virtualSupply, Rate(head), HUNDRED_PERCENT * BLOCKS_PER_YEAR)
  }

  function ContentPart(virtualSupply: int, head: int): int
  {
    MulDiv(NewSteem(virtualSupply, head), CONTENT_PERCENT, HUNDRED_PERCENT)
  }

  function VestingPart(virtualSupply: int, head: int): int
  {
    MulDiv(NewSteem(virtualSupply, head), VESTING_PERCENT, HUNDRED_PERCENT)
  }

  /** What neither the content funds nor the vesting fund took, by the producer's weight in the schedule. */
  function ProducerPay(virtualSupply: int, head: int, content: int, weight: int, factor: int): int
    requires 0 < factor
  {
    MulDiv((NewSteem(virtualSupply, head) - content - VestingPart(virtualSupply, head)) * MAX_WITNESSES, weight, factor)
  }

  ghost function PercentTotal(funds: seq<Fund>): int
  {
    if funds == [] then 0 else PercentTotal(funds[..|funds| - 1]) + funds[|funds| - 1].percentContent
  }

  /** pay_reward_funds: each fund gets the floor of its part; the sanity check holds whenever the percentages fit. */
  method PayRewardFunds(db: Database, reward: int) returns (ok: bool, used: int)
    requires FundsOk(db.funds) && 0 <= reward
    modifies db`funds
    ensures ok ==> 0 <= used <= reward && FundsOk(db.funds) && FundTotal(db.funds) == FundTotal(old(db.funds)) + used
    ensures ok ==>
      && |db.funds| == |old(db.funds)|
      && forall i :: 0 <= i < |db.funds| ==> db.funds[i] == Topped(old(db.funds)[i], reward)
    ensures PercentTotal(old(db.funds)) <= HUNDRED_PERCENT ==> ok
  {
    hide MulDiv, PercentTotal, FundTotal;
    used := 0;
    ghost var was := db.funds;
    NoPercent(was);
    for i := 0 to |db.funds|
      invariant |db.funds| == |was| && 0 <= used <= reward && FundTotal(db.funds) == FundTotal(was) + used
      invariant forall j :: 0 <= j < i ==> db.funds[j] == Topped(was[j], reward)
      invariant forall j :: i <= j < |db.funds| ==> db.funds[j] == was[j]
      invariant used * HUNDRED_PERCENT <= reward * PercentTotal(was[..i])
    {
      assert FundOk(was[i]);
      var r := MulDiv(reward, db.funds[i].percentContent, HUNDRED_PERCENT);
      MulDivBounds(reward, was[i].percentContent, HUNDRED_PERCENT);
      FundTotalUpdate(db.funds, i, Topped(db.funds[i], reward));
      OnePercentMore(was, i, reward);
      PercentPrefix(was, i + 1);
      db.funds := db.funds[i := db.funds[i].(balance := db.funds[i].balance + r)];
      used := used + r;
      if reward < used {
        TooMuch(used, reward, PercentTotal(was[..i + 1]));
        return false, used;
      }
    }
    forall i | 0 <= i < |db.funds| ensures FundOk(db.funds[i]) {
      assert FundOk(was[i]);
      MulDivBounds(reward, was[i].percentContent, HUNDRED_PERCENT);
    }
    ok := true;
  }

  function Topped(f: Fund, reward: int): Fund
  {
    f.(balance := f.balance + MulDiv(reward, f.percentContent, HUNDRED_PERCENT))
  }

  lemma NoPercent(funds: seq<Fund>)
    ensures PercentTotal(funds[..0]) == 0
  {
  }

  lemma OnePercentMore(funds: seq<Fund>, i: nat, reward: int)
    requires i < |funds|
    ensures PercentTotal(funds[..i + 1]) == PercentTotal(funds[..i]) + funds[i].percentContent
    ensures reward * PercentTotal(funds[..i + 1]) == reward * PercentTotal(funds[..i]) + reward * funds[i].percentContent
  {
    assert funds[..i + 1][..i] == funds[..i];
    hide PercentTotal;
    Distribute(reward, PercentTotal(funds[..i]), funds[i].percentContent);
  }

  lemma {:induction false} PercentPrefix(funds: seq<Fund>, i: nat)
    requires i <= |funds| && FundsOk(funds)
    ensures PercentTotal(funds[..i]) <= PercentTotal(funds)
    decreases |funds| - i
  {
    if i < |funds| {
      OnePercentMore(funds, i, 0);
      assert FundOk(funds[i]);
      PercentPrefix(funds, i + 1);
    } else {
      assert funds[..i] == funds;
    }
  }

  lemma TooMuch(used: int, reward: int, percent: int)
    requires 0 <= reward < used && used * HUNDRED_PERCENT <= reward * percent
    ensures HUNDRED_PERCENT < percent
  {
    assert percent <= HUNDRED_PERCENT ==> reward * percent <= reward * HUNDRED_PERCENT;
  }

  /** Content and vesting parts leave a non-negative rest for the producer. */
  lemma PartsFit(total: int)
    requires 0 <= total
    ensures 0 <= MulDiv(total, CONTENT_PERCENT, HUNDRED_PERCENT) && 0 <= MulDiv(total, VESTING_PERCENT, HUNDRED_PERCENT)
    ensures MulDiv(total, CONTENT_PERCENT, HUNDRED_PERCENT) + MulDiv(total, VESTING_PERCENT, HUNDRED_PERCENT) <= total
  {
  }

  /**
   The new STEEM of a block: each content fund its part, the vesting fund its part, and what they leave
   to the producer by its weight, as vesting shares at the price after the others.
   */
  ghost predicate Minted(funds: seq<Fund>, after: seq<Fund>, p: Props, q: Props, was: map<Account, Stake>,
                         now: map<Account, Stake>,
                         head: int, producer: Account, weight: int, factor: int)
  {
    && 0 < factor && producer in was
    && |after| == |funds|
    && (forall i :: 0 <= i < |funds| ==> after[i] == Topped(funds[i], ContentPart(p.virtualSupply, head)))
    && var content, vesting := FundTotal(after) - FundTotal(funds), VestingPart(p.virtualSupply, head);
       var pay := ProducerPay(p.virtualSupply, head, content, weight, factor);
       var funded := p.(vestingFund := p.vestingFund + vesting, currentSupply := p.currentSupply + content + vesting + pay,
                        virtualSupply := p.virtualSupply + content + vesting + pay);
       var s, shares := was[producer], SharesFor(pay, funded);
       && q == funded.(vestingFund := funded.vestingFund + pay, vestingShares := funded.vestingShares + shares)
       && now == was[producer := s.(vests := s.vests + shares)]
  }

  /**
   process_funds: the supply grows by exactly what the funds, the vesting fund and the producer receive.
   `weight` and `factor` are the schedule's weight of the producer and its normalization.
   */
  method ProcessFunds(db: Database, head: int, producer: Account, weight: int, factor: int) returns (ok: bool)
    requires db.Valid() && FundsOk(db.funds) && 0 <= db.props.virtualSupply && 0 <= weight && 0 < factor && producer in db.accounts
    modifies db`funds, db`props, db`stakes
    ensures ok ==> db.Valid() && FundsOk(db.funds)
    ensures PercentTotal(old(db.funds)) <= HUNDRED_PERCENT ==> ok
    ensures Grown(old(db.stakes), db.stakes)
    ensures ok ==> Minted(old(db.funds), db.funds, old(db.props), db.props, old(db.stakes), db.stakes, head, producer, weight, factor)
    ensures ok ==> db.props.currentSupply - old(db.props).currentSupply == db.props.virtualSupply - old(db.props).virtualSupply
                == FundTotal(db.funds) - FundTotal(old(db.funds)) + db.props.vestingFund - old(db.props).vestingFund >= 0
  {
    hide SumMap, MulDiv, FundTotal, PercentTotal, OrdersOk, OrdersLinked, EscrowsOk, EscrowsLinked, WithdrawalsOk,
      WithdrawalsLinked, ConversionsOk, ConversionsLinked, PursesOk, SharesFor;
    var minted := NewSteem(db.props.virtualSupply, head);
    MulDivBounds(db.props.virtualSupply, Rate(head), HUNDRED_PERCENT * BLOCKS_PER_YEAR);
    PartsFit(minted);
    var content;
    ok, content := PayRewardFunds(db, ContentPart(db.props.virtualSupply, head));
    if !ok {
      return;
    }
    var vesting := VestingPart(db.props.virtualSupply, head);
    var pay := ProducerPay(db.props.virtualSupply, head, content, weight, factor);
    MulDivBounds((minted - content - vesting) * MAX_WITNESSES, weight, factor);
    StakeTotals(db.stakes);
    var p := db.props;
    db.props := p.(vestingFund := p.vestingFund + vesting, currentSupply := p.currentSupply + content + vesting + pay,
                   virtualSupply := p.virtualSupply + content + vesting + pay);
    var shares;
    ok, shares := db.CreateVesting(producer, pay, false);
  }
}
