/** Inflation into the funds, and the payout of comments from them. */
module Rewards {
  import opened Basics
  import opened Sums
  import opened Assets
  import opened Ledger
  import opened Curves
  import opened Curation
  import opened Division

  // ----- paying ahead of the fund -----

  /**
   The ledger while payouts are under way: `awarded` STEEM is held twice until the fund is written
   back. No shares were taken from the `base` stakes.
   */
  ghost predicate Awarding(db: Database, base: map<Account, Stake>, awarded: int)
    reads db
  {
    && SameShares(base, db.stakes) && db.Linked() && db.Covered()
    && db.props.currentSupply + awarded == PurseSteem(db.purses) + OrderSteem(db.orders) + EscrowSteem(db.escrows) + WithdrawalSteem(db.withdrawals)
                                         + FundTotal(db.funds) + db.props.vestingFund + db.props.rewardFund + db.props.pendingSteem
    && db.props.sbdSupply == PurseSbd(db.purses) + OrderSbd(db.orders) + EscrowSbd(db.escrows) + WithdrawalSbd(db.withdrawals) + ConversionSbd(db.conversions)
    && db.props.vestingShares == StakeVests(db.stakes)
    && db.props.pendingShares == StakeRewardVests(db.stakes)
    && db.props.pendingSteem == StakeRewardSteem(db.stakes)
  }

  lemma AwardingNothing(db: Database)
    ensures Awarding(db, db.stakes, 0) <==> db.Valid()
  {
  }

  /** Every account's pending reward STEEM grows by its gain, and no shares are put into circulation. */
  ghost predicate Gained(was: map<Account, Stake>, now: map<Account, Stake>, gain: Account -> int)
  {
    && now.Keys == was.Keys
    && forall a :: a in was ==> now[a].vests == was[a].vests && now[a].rewardVestSteem == was[a].rewardVestSteem + gain(a)
  }

  ghost function Only(a: Account, steem: int): Account -> int { b => if b == a then steem else 0 }

  ghost function Nobody(): Account -> int { b => 0 }

  lemma NoGain(stakes: map<Account, Stake>, gain: Account -> int)
    requires forall a :: gain(a) == 0
    ensures Gained(stakes, stakes, gain)
  {
  }

  lemma GainMore(was: map<Account, Stake>, mid: map<Account, Stake>, now: map<Account, Stake>, g: Account -> int,
                 h: Account -> int, both: Account -> int)
    requires Gained(was, mid, g) && Gained(mid, now, h) && forall a :: both(a) == g(a) + h(a)
    ensures Gained(was, now, both)
  {
  }

  /** Rewards are paid without touching the print rate or the interest rate, and never take STEEM from behind shares. */
  ghost predicate SameRates(was: Props, now: Props)
  {
    && now.printRate == was.printRate && now.interestRate == was.interestRate
    && was.vestingFund + was.pendingSteem <= now.vestingFund + now.pendingSteem
  }

  /** There is no STEEM behind shares or pending shares, so that a reward in shares has no price. */
  ghost predicate Priceless(p: Props)
  {
    p.vestingFund + p.pendingSteem <= 0
  }

  /** A reward paid as pending vesting shares. */
  method GrantVesting(db: Database, a: Account, steem: int, ghost base: map<Account, Stake>, ghost awarded: int)
    returns (ok: bool)
    requires Awarding(db, base, awarded) && 0 <= steem && a in db.accounts
    modifies db`stakes, db`props
    ensures ok ==> Awarding(db, base, awarded + steem)
    ensures ok == (0 < old(db.props).vestingFund + old(db.props).pendingSteem)
    ensures ok ==> Gained(old(db.stakes), db.stakes, Only(a, steem))
    ensures SameRates(old(db.props), db.props)
  {
    hide SumMap, MulDiv, OrdersOk, OrdersLinked, EscrowsOk, EscrowsLinked, WithdrawalsOk, WithdrawalsLinked,
      ConversionsOk, ConversionsLinked, PursesOk;
    StakeTotals(db.stakes);
    var shares;
    ok, shares := db.CreateVesting(a, steem, true);
  }

  /** A reward paid as SBD and STEEM. */
  method GrantSbd(db: Database, a: Account, steem: int, ghost base: map<Account, Stake>, ghost awarded: int)
    requires Awarding(db, base, awarded) && 0 <= steem && a in db.accounts
    modifies db`purses, db`props
    ensures Awarding(db, base, awarded + steem) && SameRates(old(db.props), db.props)
    ensures a in old(db.purses) && Sound(db.median) && db.purses == old(db.purses)[a := Rewarded(old(db.purses)[a], steem, db.median, old(db.props).printRate)]
  {
    hide SumMap, MulDiv, OrdersOk, OrdersLinked, EscrowsOk, EscrowsLinked, WithdrawalsOk, WithdrawalsLinked,
      ConversionsOk, ConversionsLinked, StakesOk;
    var ok := db.CreateSbd(a, steem);
  }

  // ----- curators -----

  function VotesOn(votes: Votes, c: int): set<(int, Account)>
  {
    set k | k in votes && votes[k].comment == c
  }

  ghost function WeightAt(votes: Votes): ((int, Account)) -> int { k => if k in votes then votes[k].weight else 0 }

  ghost function ClaimAt(votes: Votes, max: int, total: int): ((int, Account)) -> int
    requires 0 < total
  {
    k => if k in votes then MulDiv(max, votes[k].weight, total) else 0
  }

  /** What each curator has been paid once the votes in `done` are dealt with. */
  ghost function VoterGain(done: set<(int, Account)>, c: int, f: ((int, Account)) -> int): Account -> int
  {
    a => if (c, a) in done then f((c, a)) else 0
  }

  /** What each curator of a comment is due: the floor of their part by weight. */
  ghost function CuratorGain(votes: Votes, c: int, x: Comment, max: int): Account -> int
  {
    if x.allowCuration && 0 < x.totalWeight then VoterGain(VotesOn(votes, c), c, ClaimAt(votes, max, x.totalWeight)) else Nobody()
  }

  lemma NoneGainedYet(stakes: map<Account, Stake>, all: set<(int, Account)>, c: int, f: ((int, Account)) -> int)
    ensures Gained(stakes, stakes, VoterGain(all - all, c, f))
  {
  }

  lemma VoterGainMore(done: set<(int, Account)>, c: int, f: ((int, Account)) -> int, k: (int, Account))
    requires k.0 == c && k !in done
    ensures forall a :: VoterGain(done + {k}, c, f)(a) == VoterGain(done, c, f)(a) + Only(k.1, f(k))(a)
  {
  }

  lemma WeightOfVotes(votes: Votes, c: int)
    ensures WeightOf(votes, c) == Sum(VotesOn(votes, c), WeightAt(votes))
  {
    SumMapPart(votes, WeightOn(c), VotesOn(votes, c), WeightAt(votes));
  }

  lemma ClaimsWithin(votes: Votes, s: set<(int, Account)>, max: int, total: int, accounts: set<Account>)
    requires VotesOk(votes, accounts) && s <= votes.Keys && 0 <= max && 0 < total && Sum(s, WeightAt(votes)) <= total
    ensures 0 <= Sum(s, ClaimAt(votes, max, total)) <= max
  {
    hide MulDiv, Sum;
    FloorSharesFit(s, max, total, WeightAt(votes), ClaimAt(votes, max, total));
    PartOfLess(max, Sum(s, WeightAt(votes)), total, Sum(s, ClaimAt(votes, max, total)));
  }

  /** One voter's claim, if it is more than nothing. */
  method PayVoter(db: Database, voter: Account, claim: int, ghost c: int, ghost was: map<Account, Stake>,
                  ghost done: set<(int, Account)>,
                  ghost f: ((int, Account)) -> int, ghost base: map<Account, Stake>, ghost awarded: int) returns (ok: bool)
    requires Awarding(db, base, awarded) && 0 <= claim == f((c, voter)) && voter in db.accounts
    requires (c, voter) !in done && Gained(was, db.stakes, VoterGain(done, c, f))
    modifies db`stakes, db`props
    ensures ok ==> Awarding(db, base, awarded + claim) && Gained(was, db.stakes, VoterGain(done + {(c, voter)}, c, f))
    ensures SameRates(old(db.props), db.props) && (!ok ==> Priceless(old(db.props)))
  {
    hide Awarding;
    ghost var mid := db.stakes;
    ok := true;
    if 0 < claim {
      ok := GrantVesting(db, voter, claim, base, awarded);
    } else {
      NoGain(mid, Only(voter, 0));
    }
    if ok {
      VoterGainMore(done, c, f, (c, voter));
      GainMore(was, mid, db.stakes, VoterGain(done, c, f), Only(voter, claim), VoterGain(done + {(c, voter)}, c, f));
    }
  }

  /** What the curators of a comment take of their budget, and what is left of it for the author. */
  ghost function CuratorsTake(votes: Votes, c: int, x: Comment, max: int): int
  {
    if x.allowCuration && 0 < x.totalWeight then Sum(VotesOn(votes, c), ClaimAt(votes, max, x.totalWeight)) else 0
  }

  ghost function Unclaimed(votes: Votes, c: int, x: Comment, max: int): int
  {
    if x.allowCuration then max - CuratorsTake(votes, c, x, max) else 0
  }

  /**
   pay_curators: everyone who voted gets the floor of their part by weight; what is not claimed goes back
   to the author, and nothing is paid when the comment refuses curation rewards.
   */
  method PayCurators(forum: Forum, c: int, max: int, ghost base: map<Account, Stake>, ghost awarded: int)
    returns (ok: bool, paid: int, unclaimed: int)
    requires c in forum.comments && VotesOk(forum.votes, forum.db.accounts) && Awarding(forum.db, base, awarded)
    requires 0 <= max
    requires 0 <= forum.comments[c].totalWeight && WeightOf(forum.votes, c) <= forum.comments[c].totalWeight
    modifies forum.db`stakes, forum.db`props
    ensures ok ==> Awarding(forum.db, base, awarded + paid) && 0 <= paid && 0 <= unclaimed
    ensures ok ==> if forum.comments[c].allowCuration then paid + unclaimed == max else paid == unclaimed == 0
    ensures ok ==>
      && paid == CuratorsTake(forum.votes, c, forum.comments[c], max)
      && unclaimed == Unclaimed(forum.votes, c, forum.comments[c], max)
    ensures ok ==> Gained(old(forum.db.stakes), forum.db.stakes, CuratorGain(forum.votes, c, forum.comments[c], max))
    ensures SameRates(old(forum.db.props), forum.db.props) && (!ok ==> Priceless(old(forum.db.props)))
  {
    hide SumMap, MulDiv, Sum, Awarding, VotesOk, WeightOf, Gained, VoterGain, Only, ClaimAt;
    var x := forum.comments[c];
    NoGain(forum.db.stakes, Nobody());
    if !x.allowCuration {
      return true, 0, 0;
    }
    ok, unclaimed := true, max;
    if 0 < x.totalWeight {
      WeightOfVotes(forum.votes, c);
      ok, unclaimed := PayVoters(forum.db, forum.votes, c, max, x.totalWeight, base, awarded);
    }
    paid := max - unclaimed;
  }

  method PayVoters(db: Database, votes: Votes, c: int, max: int, total: int, ghost base: map<Account, Stake>,
                   ghost awarded: int) returns (ok: bool, unclaimed: int)
    requires VotesOk(votes, db.accounts) && Awarding(db, base, awarded) && 0 <= max && 0 < total
    requires Sum(VotesOn(votes, c), WeightAt(votes)) <= total
    modifies db`stakes, db`props
    ensures ok ==> 0 <= unclaimed == max - Sum(VotesOn(votes, c), ClaimAt(votes, max, total)) <= max
    ensures ok ==> Awarding(db, base, awarded + max - unclaimed)
    ensures ok ==> Gained(old(db.stakes), db.stakes, VoterGain(VotesOn(votes, c), c, ClaimAt(votes, max, total)))
    ensures SameRates(old(db.props), db.props) && (!ok ==> Priceless(old(db.props)))
  {
    hide SumMap, MulDiv, Sum, Awarding, VotesOk, WeightOf, Gained, VoterGain, Only, WeightAt, ClaimAt, VotesOn;
    VotesAre(votes, c);
    ghost var all := VotesOn(votes, c);
    ghost var f := ClaimAt(votes, max, total);
    ClaimsWithin(votes, all, max, total, db.accounts);
    NothingDone(all, f);
    NoneGainedYet(db.stakes, all, c, f);
    unclaimed := max;
    var left := VotesOn(votes, c);
    while left != {}
      invariant left <= all && unclaimed == max - Sum(all - left, f)
      invariant Awarding(db, base, awarded + max - unclaimed)
      invariant Gained(old(db.stakes), db.stakes, VoterGain(all - left, c, f))
      invariant SameRates(old(db.props), db.props)
      decreases |left|
    {
      var k := Pick(left);
      SumOneMore(all, left, k, f);
      ClaimNonNegative(votes, db.accounts, max, total, k);
      var claim := MulDiv(max, votes[k].weight, total);
      ok := PayVoter(db, votes[k].voter, claim, c, old(db.stakes), all - left, f, base, awarded + max - unclaimed);
      if !ok {
        return;
      }
      unclaimed := unclaimed - claim;
      assert all - left + {k} == all - (left - {k});
      left := left - {k};
    }
    assert all - left == all;
    ok := true;
  }

  lemma VotesAre(votes: Votes, c: int)
    ensures VotesOn(votes, c) <= votes.Keys && forall k :: k in VotesOn(votes, c) ==> votes[k].comment == c
  {
  }

  lemma ClaimNonNegative(votes: Votes, accounts: set<Account>, max: int, total: int, k: (int, Account))
    requires VotesOk(votes, accounts) && k in votes && 0 <= max && 0 < total
    ensures 0 <= MulDiv(max, votes[k].weight, total) && votes[k].voter in accounts
    ensures k == (votes[k].comment, votes[k].voter)
    ensures ClaimAt(votes, max, total)(k) == MulDiv(max, votes[k].weight, total)
  {
    MulDivBounds(max, votes[k].weight, total);
  }

  // ----- one comment -----

  const MIN_PAYOUT_SBD: int := 20

  /** get_rshare_reward: the part of the snapshotted fund, unless it is dust, capped by what the author accepts. */
  function RewardFor(median: Price, balance: int, total: int, claim: int, maxPayout: int): int
    requires 0 < total && (median.Price? ==> 0 < median.sbd && 0 < median.steem)
  {
    var payout := MulDiv(balance, claim, total);
    if median.NoPrice? || ToSbd(median, payout) < MIN_PAYOUT_SBD then 0
    else Min(payout, ToSteem(median, maxPayout))
  }

  lemma RewardBounds(median: Price, balance: int, total: int, claim: int, maxPayout: int)
    requires 0 < total && Sound(median) && 0 <= balance && 0 <= claim && 0 <= maxPayout
    ensures 0 <= RewardFor(median, balance, total, claim, maxPayout)
    ensures RewardFor(median, balance, total, claim, maxPayout) * total <= balance * claim
  {
    hide ToSbd, ToSteem;
    var payout, r := MulDiv(balance, claim, total), RewardFor(median, balance, total, claim, maxPayout);
    MulDivBounds(balance, claim, total);
    if median.Price? {
      CapNonNegative(median, maxPayout);
    }
    assert 0 <= r <= payout;
    hide MulDiv, RewardFor;
    assert r * total <= payout * total;
  }

  /**
   A reward is the floored part of the fund: nothing of it below 0.020 SBD or without a feed, and no more
   than what the author accepts, both at the median price.
   */
  lemma RewardIs(median: Price, balance: int, total: int, claim: int, maxPayout: int, part: int, cap: int)
    requires 0 < total && Sound(median) && 0 <= balance && 0 <= claim && 0 <= maxPayout
    requires 0 <= part && part * total <= balance * claim < (part + 1) * total
    requires median.Price? ==> cap * median.sbd <= maxPayout * median.steem < (cap + 1) * median.sbd
    ensures var r := RewardFor(median, balance, total, claim, maxPayout);
      r == if median.NoPrice? || part * median.sbd < MIN_PAYOUT_SBD * median.steem then 0 else Min(part, cap)
  {
    FloorIsOne(balance, claim, total, part);
    if median.Price? {
      MulDivAtLeast(part, median.sbd, median.steem, MIN_PAYOUT_SBD);
      FloorIsOne(maxPayout, median.steem, median.sbd, cap);
    }
  }

  lemma FloorIsOne(x: int, num: int, den: int, q: int)
    requires 0 <= x && 0 <= num && 0 < den && q * den <= x * num < (q + 1) * den
    ensures MulDiv(x, num, den) == q
  {
    MulDivAtLeast(x, num, den, q);
    MulDivAtLeast(x, num, den, q + 1);
  }

  lemma CapNonNegative(median: Price, maxPayout: int)
    requires Sound(median) && median.Price? && 0 <= maxPayout
    ensures 0 <= ToSteem(median, maxPayout)
  {
    MulDivBounds(maxPayout, median.steem, median.sbd);
  }

  /** The part of the curve a comment may claim. */
  function ClaimOf(x: Comment, curve: Curve): int
    requires CurveOk(curve)
  {
    if 0 < x.netRshares then MulDiv(Evaluate(curve, x.netRshares), x.rewardWeight, HUNDRED_PERCENT) else 0
  }

  function CurveOf(x: Comment, curve: Curve): int
    requires CurveOk(curve)
  {
    if 0 < x.netRshares then Evaluate(curve, x.netRshares) else 0
  }

  /** A comment claims the part of its curve value that its reward weight is of the whole, rounded down. */
  lemma ClaimIsPart(x: Comment, curve: Curve)
    requires CurveOk(curve) && 0 <= x.rewardWeight <= HUNDRED_PERCENT
    ensures var claim, whole := ClaimOf(x, curve), CurveOf(x, curve);
      claim * HUNDRED_PERCENT <= whole * x.rewardWeight < (claim + 1) * HUNDRED_PERCENT
  {
    if 0 < x.netRshares {
      CurveMonotone(curve, 0, x.netRshares);
      MulDivBounds(Evaluate(curve, x.netRshares), x.rewardWeight, HUNDRED_PERCENT);
    }
  }

  lemma ClaimWithinCurve(x: Comment, curve: Curve)
    requires CurveOk(curve) && 0 <= x.rewardWeight <= HUNDRED_PERCENT
    ensures 0 <= ClaimOf(x, curve) <= CurveOf(x, curve)
  {
    if 0 < x.netRshares {
      CurveMonotone(curve, 0, x.netRshares);
      MulDivShare(Evaluate(curve, x.netRshares), x.rewardWeight, HUNDRED_PERCENT);
    }
  }

  ghost function BeneficiaryPart(tokens: int, bs: seq<Beneficiary>): int
  {
    if bs == [] then 0 else BeneficiaryPart(tokens, bs[..|bs| - 1]) + MulDiv(tokens, bs[|bs| - 1].weight, HUNDRED_PERCENT)
  }

  lemma {:induction false} BeneficiariesFit(tokens: int, bs: seq<Beneficiary>)
    requires 0 <= tokens && forall i :: 0 <= i < |bs| ==> 0 <= bs[i].weight
    ensures 0 <= BeneficiaryPart(tokens, bs)
    ensures BeneficiaryPart(tokens, bs) * HUNDRED_PERCENT <= tokens * WeightTotal(bs)
  {
    if bs != [] {
      var rest := bs[..|bs| - 1];
      BeneficiariesFit(tokens, rest);
      MulDivBounds(tokens, bs[|bs| - 1].weight, HUNDRED_PERCENT);
      Distribute(tokens, WeightTotal(rest), bs[|bs| - 1].weight);
    }
  }

  /** What an account receives as a beneficiary; one named several times is paid for each mention. */
  ghost function BeneficiaryGain(tokens: int, bs: seq<Beneficiary>): Account -> int
  {
    if bs == [] then Nobody()
    else var last := bs[|bs| - 1];
         var rest := BeneficiaryGain(tokens, bs[..|bs| - 1]);
         a => rest(a) + if a == last.account then MulDiv(tokens, last.weight, HUNDRED_PERCENT) else 0
  }

  lemma NoBeneficiary(stakes: map<Account, Stake>, tokens: int, bs: seq<Beneficiary>)
    ensures Gained(stakes, stakes, BeneficiaryGain(tokens, bs[..0]))
  {
  }

  lemma BeneficiaryGainMore(tokens: int, bs: seq<Beneficiary>, i: nat)
    requires i < |bs|
    ensures forall a :: BeneficiaryGain(tokens, bs[..i + 1])(a)
                        == BeneficiaryGain(tokens, bs[..i])(a) + Only(bs[i].account, MulDiv(tokens, bs[i].weight, HUNDRED_PERCENT))(a)
  {
    assert bs[..i + 1][..i] == bs[..i];
  }

  /** Beneficiaries take the floor of their part of the author's tokens. */
  method PayBeneficiaries(db: Database, bs: seq<Beneficiary>, tokens: int, ghost base: map<Account, Stake>,
                          ghost awarded: int) returns (ok: bool, total: int)
    requires Awarding(db, base, awarded) && 0 <= tokens
    requires forall i :: 0 <= i < |bs| ==> bs[i].account in db.accounts && 0 <= bs[i].weight
    modifies db`stakes, db`props
    ensures ok ==> total == BeneficiaryPart(tokens, bs) && Awarding(db, base, awarded + total)
    ensures ok ==> Gained(old(db.stakes), db.stakes, BeneficiaryGain(tokens, bs))
    ensures SameRates(old(db.props), db.props) && (!ok ==> Priceless(old(db.props)))
  {
    hide Awarding, MulDiv, SumMap, Gained, BeneficiaryGain;
    total := 0;
    NoBeneficiary(db.stakes, tokens, bs);
    for i := 0 to |bs|
      invariant total == BeneficiaryPart(tokens, bs[..i]) && Awarding(db, base, awarded + total)
      invariant Gained(old(db.stakes), db.stakes, BeneficiaryGain(tokens, bs[..i]))
      invariant SameRates(old(db.props), db.props)
    {
      var part := MulDiv(tokens, bs[i].weight, HUNDRED_PERCENT);
      MulDivBounds(tokens, bs[i].weight, HUNDRED_PERCENT);
      ghost var mid := db.stakes;
      ok := GrantVesting(db, bs[i].account, part, base, awarded + total);
      if !ok {
        return;
      }
      BeneficiaryGainMore(tokens, bs, i);
      GainMore(old(db.stakes), mid, db.stakes, BeneficiaryGain(tokens, bs[..i]), Only(bs[i].account, part),
               BeneficiaryGain(tokens, bs[..i + 1]));
      assert bs[..i + 1][..i] == bs[..i];
      total := total + part;
    }
    assert bs[..|bs|] == bs;
    ok := true;
  }

  /** A comment after its payout: it can never be due again. */
  function Settled(x: Comment, now: int): Comment
  {
    x.(netRshares := if 0 < x.netRshares then 0 else x.netRshares, absRshares := 0, voteRshares := 0, totalWeight := 0,
       cashoutTime := NEVER, lastPayout := now)
  }

  /** The part of the author's tokens that is paid in SBD, as STEEM before conversion. */
  ghost function SbdPart(x: Comment, tokens: int): int
  {
    MulDiv(tokens - BeneficiaryPart(tokens, x.beneficiaries), x.percentSbd, 2 * HUNDRED_PERCENT)
  }

  /**
   Pending reward STEEM from the author's tokens: the beneficiaries' parts, and the author's rest
   outside the SBD part.
   */
  ghost function AuthorGain(x: Comment, tokens: int): Account -> int
  {
    a => BeneficiaryGain(tokens, x.beneficiaries)(a)
         + if a == x.author then tokens - BeneficiaryPart(tokens, x.beneficiaries) - SbdPart(x, tokens) else 0
  }

  /** The SBD part reaches the author's purse and no other purse moves. */
  ghost predicate AuthorPaid(was: map<Account, Purse>, now: map<Account, Purse>, x: Comment, tokens: int, median: Price,
                             printRate: int)
  {
    Sound(median) && x.author in was && now == was[x.author := Rewarded(was[x.author], SbdPart(x, tokens), median, printRate)]
  }

  /** The author's tokens: beneficiaries first, then part as SBD and the rest as vesting shares. */
  method PayAuthor(db: Database, x: Comment, tokens: int, ghost base: map<Account, Stake>, ghost awarded: int)
    returns (ok: bool)
    requires Awarding(db, base, awarded) && CommentOk(x, db.accounts) && 0 <= tokens
    modifies db`stakes, db`purses, db`props
    ensures ok ==> Awarding(db, base, awarded + tokens) && SameRates(old(db.props), db.props)
    ensures ok ==> Gained(old(db.stakes), db.stakes, AuthorGain(x, tokens))
    ensures !ok ==> Priceless(old(db.props))
    ensures ok ==> AuthorPaid(old(db.purses), db.purses, x, tokens, db.median, old(db.props).printRate)
  {
    hide Awarding, MulDiv, WeightTotal, Gained, BeneficiaryGain, BeneficiaryPart, Rewarded;
    var beneficiaries;
    ok, beneficiaries := PayBeneficiaries(db, x.beneficiaries, tokens, base, awarded);
    if !ok {
      return;
    }
    BeneficiariesFit(tokens, x.beneficiaries);
    PartOfLess(tokens, WeightTotal(x.beneficiaries), HUNDRED_PERCENT, beneficiaries);
    var author := tokens - beneficiaries;
    MulDivShare(author, x.percentSbd, 2 * HUNDRED_PERCENT);
    var sbdSteem := MulDiv(author, x.percentSbd, 2 * HUNDRED_PERCENT);
    ghost var mid := db.stakes;
    ok := GrantVesting(db, x.author, author - sbdSteem, base, awarded + beneficiaries);
    if ok {
      GainMore(old(db.stakes), mid, db.stakes, BeneficiaryGain(tokens, x.beneficiaries),
               Only(x.author, author - sbdSteem), AuthorGain(x, tokens));
      GrantSbd(db, x.author, sbdSteem, base, awarded + tokens - sbdSteem);
    }
  }

  /** At most the given part of the balance; nothing at all against an empty denominator. */
  ghost predicate Within(paid: int, total: int, balance: int, part: int)
  {
    if 0 < total then paid * total <= balance * part else paid == 0
  }

  /** What the author's side receives: everything but the curators' budget, and what they leave of it. */
  ghost function AuthorTokens(votes: Votes, c: int, x: Comment, reward: int, percent: int): int
  {
    var curation := MulDiv(reward, percent, HUNDRED_PERCENT);
    reward - curation + Unclaimed(votes, c, x, curation)
  }

  ghost function CommentGain(votes: Votes, c: int, x: Comment, reward: int, percent: int): Account -> int
  {
    var curators, author := CuratorGain(votes, c, x, MulDiv(reward, percent, HUNDRED_PERCENT)), AuthorGain(x,
                                        AuthorTokens(votes, c, x, reward, percent));
    a => curators(a) + author(a)
  }

  /** Who receives how much of a comment's reward, as pending vesting STEEM and in the author's purse. */
  ghost predicate RewardSplit(was: map<Account, Stake>, now: map<Account, Stake>, purses: map<Account, Purse>,
                              after: map<Account, Purse>,
                              votes: Votes, c: int, x: Comment, reward: int, percent: int, median: Price, printRate: int)
  {
    if 0 < reward
    then Gained(was, now, CommentGain(votes, c, x, reward, percent))
         && AuthorPaid(purses, after, x, AuthorTokens(votes, c, x, reward, percent), median, printRate)
    else now == was && after == purses
  }

  /** The two payments of a reward make up its split. */
  lemma SplitFromParts(was: map<Account, Stake>, mid: map<Account, Stake>, now: map<Account, Stake>,
                       purses: map<Account, Purse>, after: map<Account, Purse>,
                       votes: Votes, c: int, x: Comment, reward: int, percent: int, median: Price, printRate: int)
    requires 0 < reward && Gained(was, mid, CuratorGain(votes, c, x, MulDiv(reward, percent, HUNDRED_PERCENT)))
    requires Gained(mid, now, AuthorGain(x, AuthorTokens(votes, c, x, reward, percent)))
    requires AuthorPaid(purses, after, x, AuthorTokens(votes, c, x, reward, percent), median, printRate)
    ensures RewardSplit(was, now, purses, after, votes, c, x, reward, percent, median, printRate)
  {
    hide MulDiv, CuratorGain, AuthorGain, AuthorTokens, AuthorPaid, Gained;
    GainMore(was, mid, now, CuratorGain(votes, c, x, MulDiv(reward, percent, HUNDRED_PERCENT)),
             AuthorGain(x, AuthorTokens(votes, c, x, reward, percent)), CommentGain(votes, c, x, reward, percent));
  }

  /** A positive reward split between curators and the author's side. */
  method PayReward(forum: Forum, c: int, reward: int, percent: int, ghost base: map<Account, Stake>, ghost awarded: int)
    returns (ok: bool, claimed: int)
    requires c in forum.comments && VotesOk(forum.votes, forum.db.accounts)
    requires CommentOk(forum.comments[c], forum.db.accounts)
    requires 0 <= forum.comments[c].totalWeight && WeightOf(forum.votes, c) <= forum.comments[c].totalWeight
    requires Awarding(forum.db, base, awarded) && 0 < reward && 0 <= percent <= HUNDRED_PERCENT
    modifies forum.db`stakes, forum.db`purses, forum.db`props
    ensures ok ==> Awarding(forum.db, base, awarded + claimed) && SameRates(old(forum.db.props), forum.db.props)
    ensures !ok ==> Priceless(old(forum.db.props))
    ensures ok ==>
      0 <= claimed == reward - if forum.comments[c].allowCuration then 0 else MulDiv(reward, percent, HUNDRED_PERCENT)
    ensures ok ==> RewardSplit(old(forum.db.stakes), forum.db.stakes, old(forum.db.purses), forum.db.purses, forum.votes, c, forum.comments[c],
                               reward, percent, forum.db.median, old(forum.db.props).printRate)
  {
    hide Awarding, MulDiv, VotesOk, WeightOf, WeightTotal, Gained, CuratorGain, AuthorGain, AuthorPaid, CuratorsTake,
      RewardSplit, Unclaimed;
    var x, db := forum.comments[c], forum.db;
    MulDivShare(reward, percent, HUNDRED_PERCENT);
    var curation := MulDiv(reward, percent, HUNDRED_PERCENT);
    var paid, unclaimed;
    ok, paid, unclaimed := PayCurators(forum, c, curation, base, awarded);
    if !ok {
      return false, 0;
    }
    ghost var mid := db.stakes;
    var author := reward - curation + unclaimed;
    claimed := author + paid;
    ok := PayAuthor(db, x, author, base, awarded + paid);
    if ok {
      SplitFromParts(old(db.stakes), mid, db.stakes, old(db.purses), db.purses, forum.votes, c, x, reward, percent,
                     db.median, old(db.props).printRate);
    }
  }

  /** The reward of a comment against a snapshot of the fund and its denominator. */
  function RewardOf(x: Comment, curve: Curve, median: Price, balance: int, total: int): int
    requires CurveOk(curve) && Sound(median)
  {
    if 0 < x.netRshares && 0 < total then RewardFor(median, balance, total, ClaimOf(x, curve), x.maxPayout) else 0
  }

  /**
   cashout_comment_helper: the reward is split between curators, beneficiaries and author without loss;
   curation tokens of a comment that refuses them stay in the fund.
   */
  method CashoutComment(forum: Forum, c: int, total: int, balance: int, curationPercent: int,
                        ghost base: map<Account, Stake>, ghost awarded: int) returns (ok: bool, claimed: int)
    requires forum.Valid() && Awarding(forum.db, base, awarded) && c in forum.comments && Unpaid(forum.comments[c])
    requires 0 <= curationPercent <= HUNDRED_PERCENT && 0 <= balance
    modifies forum`comments, forum`payouts, forum.db`stakes, forum.db`purses, forum.db`props
    ensures ok ==> forum.Valid() && Awarding(forum.db, base, awarded + claimed)
    ensures ok ==> SameRates(old(forum.db.props), forum.db.props)
    ensures ok ==>
      && forum.comments == old(forum.comments)[c := Settled(old(forum.comments)[c], forum.db.now)]
      && forum.payouts == old(forum.payouts) + [c]
    ensures ok && 0 < old(forum.comments)[c].netRshares ==> 0 < total
    ensures Sound(forum.db.median)
    ensures !ok ==> Priceless(old(forum.db.props)) || (total <= 0 && 0 < old(forum.comments)[c].netRshares)
    ensures ok ==> var x, percent := old(forum.comments)[c], curationPercent;
      var reward := RewardOf(x, forum.authorCurve, forum.db.median, balance, total);
      && claimed == reward - (if x.allowCuration then 0 else MulDiv(reward, percent, HUNDRED_PERCENT))
      && RewardSplit(old(forum.db.stakes), forum.db.stakes, old(forum.db.purses), forum.db.purses, forum.votes, c, x, reward, percent,
                     forum.db.median, old(forum.db.props).printRate)
    ensures ok ==> 0 <= claimed && Within(claimed, total, balance, CurveOf(old(forum.comments)[c], forum.authorCurve))
  {
    hide Awarding, MulDiv, Evaluate, VotesOk, Weighed, AllUnderCurve, RewardFor, ClaimOf, CurveOf, WeightTotal,
      RewardSplit;
    var x, db := forum.comments[c], forum.db;
    claimed := 0;
    SoundWhileAwarding(db, base, awarded);
    CommentFacts(forum.comments, forum.curve, c);
    WeighedHere(forum.comments, forum.votes, c);
    ClaimWithinCurve(x, forum.authorCurve);
    NothingOfNothing(curationPercent);
    NoSplit(db.stakes, db.purses, forum.votes, c, x, curationPercent, db.median, db.props.printRate);
    if 0 < x.netRshares {
      if total <= 0 {
        return false, 0;
      }
      var reward := RewardFor(db.median, balance, total, ClaimOf(x, forum.authorCurve), x.maxPayout);
      RewardBounds(db.median, balance, total, ClaimOf(x, forum.authorCurve), x.maxPayout);
      MulDivShare(reward, curationPercent, HUNDRED_PERCENT);
      if 0 < reward {
        ok, claimed := PayReward(forum, c, reward, curationPercent, base, awarded);
        if !ok {
          return;
        }
      }
      ClaimedWithin(claimed, reward, total, balance, ClaimOf(x, forum.authorCurve), CurveOf(x, forum.authorCurve));
    } else {
      NoClaim(balance, CurveOf(x, forum.authorCurve));
    }
    SettledKeeps(forum.comments, forum.votes, forum.curve, forum.payouts, db.accounts, c, db.now);
    forum.comments := forum.comments[c := Settled(x, db.now)];
    forum.payouts := forum.payouts + [c];
    ok := true;
  }

  lemma NoSplit(stakes: map<Account, Stake>, purses: map<Account, Purse>, votes: Votes, c: int, x: Comment,
                percent: int, median: Price, printRate: int)
    ensures RewardSplit(stakes, stakes, purses, purses, votes, c, x, 0, percent, median, printRate)
  {
  }

  lemma SoundWhileAwarding(db: Database, base: map<Account, Stake>, awarded: int)
    requires Awarding(db, base, awarded)
    ensures Sound(db.median)
  {
  }

  lemma NothingOfNothing(percent: int)
    ensures MulDiv(0, percent, HUNDRED_PERCENT) == 0
  {
  }

  lemma NoClaim(balance: int, curve: int)
    requires 0 <= balance && 0 <= curve
    ensures 0 <= balance * curve
  {
  }

  lemma ClaimedWithin(claimed: int, reward: int, total: int, balance: int, claim: int, curve: int)
    requires claimed <= reward && 0 < total && reward * total <= balance * claim && 0 <= balance && claim <= curve
    ensures claimed * total <= balance * curve
  {
    assert claimed * total <= reward * total;
    assert balance * claim <= balance * curve;
  }

  lemma SettledKeeps(comments: map<int, Comment>, votes: Votes, curve: Curve, payouts: seq<int>, accounts: set<Account>,
                     c: int, now: int)
    requires CurveOk(curve) && c in comments && Unpaid(comments[c])
    requires Weighed(comments, votes) && AllUnderCurve(comments, curve) && CommentsOk(comments, accounts) && PaidOnce(comments, payouts)
    ensures var after := comments[c := Settled(comments[c], now)];
      Weighed(after, votes) && AllUnderCurve(after, curve) && CommentsOk(after, accounts) && PaidOnce(after, payouts + [c])
  {
    CurveMonotone(curve, 0, 0);
    hide Evaluate, SumMap;
  }

  // ----- the cashout pass -----

  /** The post reward fund, the only one comments are paid from. */
  const POST_FUND: nat := 0
  /** STEEMIT_RECENT_RSHARES_DECAY_RATE_HF19, in seconds */
  const DECAY_SECONDS: int := 15 * 24 * 60 * 60

  ghost predicate FundOk(f: Fund)
  {
    0 <= f.balance && 0 <= f.recentClaims < U128 && 0 <= f.percentContent && 0 <= f.percentCuration <= HUNDRED_PERCENT
  }

  ghost predicate FundsOk(funds: seq<Fund>)
  {
    forall i :: 0 <= i < |funds| ==> FundOk(funds[i])
  }

  /** Recent claims fade linearly, in 128-bit arithmetic: the product and the difference both wrap. */
  function Faded(recent: int, seconds: int): (r: int)
    ensures 0 <= r < U128
  {
    (recent - recent * seconds % U128 / DECAY_SECONDS) % U128
  }

  function Decayed(f: Fund, now: int): Fund
  {
    f.(recentClaims := Faded(f.recentClaims, now - f.lastUpdate), lastUpdate := now)
  }

  /** Within the decay time, and as long as the product fits, claims really fade and nothing wraps. */
  lemma FadesInTime(recent: int, seconds: int)
    requires 0 <= recent && 0 <= seconds <= DECAY_SECONDS && recent * seconds < U128 && recent < U128
    ensures 0 <= Faded(recent, seconds) <= recent
    ensures Faded(recent, seconds) == recent - MulDiv(recent, seconds, DECAY_SECONDS)
  {
    ProductNonNegative(recent, seconds);
    MulDivShare(recent, seconds, DECAY_SECONDS);
    SmallModulus(recent * seconds, U128);
    SmallModulus(recent - MulDiv(recent, seconds, DECAY_SECONDS), U128);
  }

  lemma SmallModulus(x: int, m: int)
    requires 0 <= x < m
    ensures x % m == x
  {
  }

  method DecayFunds(db: Database)
    requires FundsOk(db.funds)
    modifies db`funds
    ensures |db.funds| == |old(db.funds)| && FundsOk(db.funds) && FundTotal(db.funds) == FundTotal(old(db.funds))
    ensures forall i :: 0 <= i < |db.funds| ==> db.funds[i] == Decayed(old(db.funds)[i], db.now)
  {
    for i := 0 to |db.funds|
      invariant |db.funds| == |old(db.funds)| && FundTotal(db.funds) == FundTotal(old(db.funds))
      invariant forall j :: 0 <= j < i ==> db.funds[j] == Decayed(old(db.funds)[j], db.now)
      invariant forall j :: i <= j < |db.funds| ==> db.funds[j] == old(db.funds)[j]
    {
      FundTotalUpdate(db.funds, i, Decayed(db.funds[i], db.now));
      db.funds := db.funds[i := Decayed(db.funds[i], db.now)];
    }
  }

  function DueComments(comments: map<int, Comment>, now: int): set<int>
  {
    set c | c in comments && comments[c].cashoutTime <= now
  }

  ghost function CurveAt(comments: map<int, Comment>, curve: Curve): int -> int
    requires CurveOk(curve)
  {
    c => if c in comments then CurveOf(comments[c], curve) else 0
  }

  lemma {:induction false} CurvesNonNegative(comments: map<int, Comment>, curve: Curve, s: set<int>)
    requires CurveOk(curve)
    ensures 0 <= Sum(s, CurveAt(comments, curve))
  {
    forall c | c in s ensures 0 <= CurveAt(comments, curve)(c) {
      CurveNonNegative(comments, curve, c);
    }
    SumZero(s, c => 0);
    SumMonotone(s, c => 0, CurveAt(comments, curve));
  }

  /** The claims of all due comments. */
  ghost function DueClaims(comments: map<int, Comment>, curve: Curve, now: int): int
    requires CurveOk(curve)
  {
    Sum(DueComments(comments, now), CurveAt(comments, curve))
  }

  /** The 128-bit denominator of a pass holds the faded recent claims and all due ones. */
  ghost predicate ClaimsFit(f: Fund, comments: map<int, Comment>, curve: Curve, now: int)
    requires CurveOk(curve)
  {
    Decayed(f, now).recentClaims + DueClaims(comments, curve, now) < U128
  }

  lemma AddModulo(a: int, b: int, m: int)
    requires 0 < m
    ensures (a % m + b) % m == (a + b) % m
  {
    var q, r := a / m, a % m;
    assert a + b == r + b + q * m;
    MultipleVanishes(r + b, q, m);
  }

  lemma MultipleVanishes(x: int, q: int, m: int)
    requires 0 < m
    ensures (x + q * m) % m == x % m
  {
    var k, r := x / m, x % m;
    assert x + q * m == (k + q) * m + r;
    QuotientIs(x + q * m, m, k + q, r);
  }

  /** First walk: every due comment's claim enters the 128-bit denominator before anything is paid. */
  method AddClaims(forum: Forum, recent: int) returns (total: int, fits: bool)
    requires CurveOk(forum.authorCurve) && 0 <= recent < U128
    ensures 0 <= total < U128 && total == (recent + DueClaims(forum.comments, forum.authorCurve, forum.db.now)) % U128
    ensures fits <==> recent + DueClaims(forum.comments, forum.authorCurve, forum.db.now) < U128
  {
    hide Sum, Evaluate, CurveAt, DueComments;
    var comments, curve := forum.comments, forum.authorCurve;
    total, fits := recent, true;
    ghost var all := DueComments(comments, forum.db.now);
    ghost var f := CurveAt(comments, curve);
    NothingDone(all, f);
    var left := set c | c in comments && comments[c].cashoutTime <= forum.db.now;
    DueAre(comments, forum.db.now, left);
    while left != {}
      invariant left <= all && total == (recent + Sum(all - left, f)) % U128 && 0 <= Sum(all - left, f)
      invariant fits <==> recent + Sum(all - left, f) < U128
      decreases |left|
    {
      var c := Pick(left);
      SumOneMore(all, left, c, f);
      CurveNonNegative(comments, curve, c);
      DueIsComment(comments, forum.db.now, c);
      if 0 < comments[c].netRshares {
        var claim := Evaluate(curve, comments[c].netRshares);
        OneMoreClaim(recent + Sum(all - left, f), total, fits, claim);
        fits := fits && total + claim < U128;
        total := (total + claim) % U128;
      }
      left := left - {c};
    }
    assert all - left == all;
  }

  /** One 128-bit addition: the total stays the sum modulo 2^128, and the flag says whether it still is the sum. */
  lemma OneMoreClaim(sum: int, total: int, fits: bool, claim: int)
    requires 0 <= sum && 0 <= claim && total == sum % U128 && (fits <==> sum < U128)
    ensures (total + claim) % U128 == (sum + claim) % U128 && (fits && total + claim < U128 <==> sum + claim < U128)
  {
    AddModulo(sum, claim, U128);
    if sum < U128 {
      SmallModulus(sum, U128);
    }
  }

  lemma DueIsComment(comments: map<int, Comment>, now: int, c: int)
    ensures c in DueComments(comments, now) ==> c in comments
  {
  }

  lemma CurveNonNegative(comments: map<int, Comment>, curve: Curve, c: int)
    requires CurveOk(curve)
    ensures 0 <= CurveAt(comments, curve)(c)
    ensures c in comments ==>
      CurveAt(comments, curve)(c) == if 0 < comments[c].netRshares then Evaluate(curve, comments[c].netRshares) else 0
  {
    if c in comments && 0 < comments[c].netRshares {
      CurveMonotone(curve, 0, comments[c].netRshares);
    }
  }

  /** The comments still to be paid are as they were; the others are settled and on record. */
  ghost predicate Paying(was: map<int, Comment>, now: map<int, Comment>, left: set<int>, all: set<int>, time: int)
  {
    && now.Keys == was.Keys && left <= all <= was.Keys
    && forall c :: c in was ==> now[c] == if c in all && c !in left then Settled(was[c], time) else was[c]
  }

  lemma PaidOneMore(was: map<int, Comment>, now: map<int, Comment>, left: set<int>, all: set<int>, time: int, c: int)
    requires Paying(was, now, left, all, time) && c in left
    ensures c in all && c in was && c in now && now[c] == was[c]
    ensures Paying(was, now[c := Settled(now[c], time)], left - {c}, all, time)
  {
  }

  // ----- who gains by a pass -----

  /** What a pass pays by: the comments and votes before it, the feed, and the fund with its denominator. */
  datatype Snapshot = Snapshot(comments: map<int, Comment>, votes: Votes, curve: Curve, median: Price, printRate: int,
                                     balance: int, total: int, percent: int)

  ghost predicate SnapshotOk(s: Snapshot)
  {
    CurveOk(s.curve) && Sound(s.median)
  }

  ghost function RewardIn(s: Snapshot, c: int): int
    requires SnapshotOk(s)
  {
    if c in s.comments then RewardOf(s.comments[c], s.curve, s.median, s.balance, s.total) else 0
  }

  /** What a comment takes out of the fund: its reward, without a curation part it refuses. */
  ghost function TakenAt(s: Snapshot): int -> int
    requires SnapshotOk(s)
  {
    c => if c !in s.comments then 0 else
         RewardIn(s, c) - if s.comments[c].allowCuration then 0 else MulDiv(RewardIn(s, c), s.percent, HUNDRED_PERCENT)
  }

  /** An account's pending reward STEEM from a comment, as curator, beneficiary and author. */
  ghost function GainAt(s: Snapshot, a: Account): int -> int
    requires SnapshotOk(s)
  {
    c => if c in s.comments && 0 < RewardIn(s, c) then CommentGain(s.votes, c, s.comments[c], RewardIn(s, c), s.percent)(a) else 0
  }

  /** The part of a comment's reward that is paid to its author in SBD, as STEEM before conversion. */
  ghost function SbdPartIn(s: Snapshot, c: int): int
    requires SnapshotOk(s)
  {
    if c in s.comments && 0 < RewardIn(s, c)
    then SbdPart(s.comments[c], AuthorTokens(s.votes, c, s.comments[c], RewardIn(s, c), s.percent)) else 0
  }

  ghost function PrintedIn(s: Snapshot, c: int): int
    requires SnapshotOk(s)
  {
    MulDiv(s.printRate, SbdPartIn(s, c), HUNDRED_PERCENT)
  }

  ghost function SbdAt(s: Snapshot, a: Account): int -> int
    requires SnapshotOk(s)
  {
    c => if c in s.comments && s.comments[c].author == a && s.median.Price? then ToSbd(s.median, PrintedIn(s, c)) else 0
  }

  ghost function SteemAt(s: Snapshot, a: Account): int -> int
    requires SnapshotOk(s)
  {
    c => if c in s.comments && s.comments[c].author == a then SbdPartIn(s, c) - PrintedIn(s, c) else 0
  }

  /** After the comments in `done`: everyone's pending rewards, and the authors' purses. */
  ghost predicate PassPaid(s: Snapshot, done: set<int>, was: map<Account, Stake>, now: map<Account, Stake>,
                           purses: map<Account, Purse>, after: map<Account, Purse>)
    requires SnapshotOk(s)
  {
    && now.Keys == was.Keys && after.Keys == purses.Keys
    && (forall a :: a in was ==> now[a].vests == was[a].vests && now[a].rewardVestSteem == was[a].rewardVestSteem + Sum(done, GainAt(s, a)))
    && forall a :: a in purses ==> after[a] == purses[a].(rewardSbd := purses[a].rewardSbd + Sum(done, SbdAt(s, a)),
                                                         rewardSteem := purses[a].rewardSteem + Sum(done, SteemAt(s, a)))
  }

  /** After all due comments, which together took `awarded` out of the fund. */
  ghost predicate AllPaid(s: Snapshot, now: int, awarded: int, was: map<Account, Stake>, stakes: map<Account, Stake>,
                          purses: map<Account, Purse>, after: map<Account, Purse>)
  {
    && SnapshotOk(s) && awarded == Sum(DueComments(s.comments, now), TakenAt(s))
    && PassPaid(s, DueComments(s.comments, now), was, stakes, purses, after)
  }

  lemma NothingPaid(s: Snapshot, stakes: map<Account, Stake>, purses: map<Account, Purse>)
    requires SnapshotOk(s)
    ensures PassPaid(s, {}, stakes, stakes, purses, purses) && Sum({}, TakenAt(s)) == 0
  {
  }

  lemma SumAddOne(done: set<int>, c: int, f: int -> int)
    requires c !in done
    ensures Sum(done + {c}, f) == Sum(done, f) + f(c)
  {
    SumTake(done + {c}, c, f);
    assert done + {c} - {c} == done;
  }

  /** Nothing is paid without a feed. */
  lemma NoFeedNoReward(s: Snapshot, c: int)
    requires SnapshotOk(s) && 0 < RewardIn(s, c)
    ensures s.median.Price?
  {
  }

  /** One more comment of the pass. */
  lemma PassOneMore(s: Snapshot, done: set<int>, c: int, was: map<Account, Stake>, mid: map<Account, Stake>,
                    now: map<Account, Stake>,
                    purses: map<Account, Purse>, between: map<Account, Purse>, after: map<Account, Purse>)
    requires SnapshotOk(s) && c in s.comments && c !in done && PassPaid(s, done, was, mid, purses, between)
    requires RewardSplit(mid, now, between, after, s.votes, c, s.comments[c], RewardIn(s, c), s.percent, s.median, s.printRate)
    ensures PassPaid(s, done + {c}, was, now, purses, after)
  {
    hide Sum, MulDiv, RewardOf, CommentGain, AuthorTokens, SbdPart, ToSbd;
    var x, reward := s.comments[c], RewardIn(s, c);
    forall a | a in was ensures now[a].vests == was[a].vests && now[a].rewardVestSteem == was[a].rewardVestSteem + Sum(done + {c}, GainAt(s, a)) {
      SumAddOne(done, c, GainAt(s, a));
    }
    forall a | a in purses
      ensures after[a] == purses[a].(rewardSbd := purses[a].rewardSbd + Sum(done + {c}, SbdAt(s, a)),
                                     rewardSteem := purses[a].rewardSteem + Sum(done + {c}, SteemAt(s, a))) {
      SumAddOne(done, c, SbdAt(s, a));
      SumAddOne(done, c, SteemAt(s, a));
      AuthorPaidIs(s, c, between, after, a);
    }
  }

  lemma AuthorPaidIs(s: Snapshot, c: int, between: map<Account, Purse>, after: map<Account, Purse>, a: Account)
    requires SnapshotOk(s) && c in s.comments && a in between
    requires if 0 < RewardIn(s, c)
      then AuthorPaid(between, after, s.comments[c], AuthorTokens(s.votes, c, s.comments[c], RewardIn(s, c), s.percent), s.median, s.printRate)
      else after == between
    ensures a in after
    ensures after[a] == between[a].(rewardSbd := between[a].rewardSbd + SbdAt(s, a)(c), rewardSteem := between[a].rewardSteem + SteemAt(s, a)(c))
  {
    hide RewardOf, AuthorTokens, SbdPart;
    if 0 < RewardIn(s, c) {
      NoFeedNoReward(s, c);
      assert SbdPartIn(s, c) == 0 ==> PrintedIn(s, c) == 0;
    } else {
      assert PrintedIn(s, c) == 0;
    }
  }

  /** The pass as far as it has got: `awarded` is what the comments dealt with have taken. */
  ghost predicate UnderWay(s: Snapshot, forum: Forum, left: set<int>, all: set<int>, base: map<Account, Stake>,
                           purses: map<Account, Purse>, awarded: int)
    requires SnapshotOk(s)
    reads forum, forum.db
  {
    && Awarding(forum.db, base, awarded) && Paying(s.comments, forum.comments, left, all, forum.db.now)
    && awarded == Sum(all - left, TakenAt(s)) && 0 <= awarded
    && Within(awarded, s.total, s.balance, Sum(all - left, CurveAt(s.comments, s.curve)))
    && PassPaid(s, all - left, base, forum.db.stakes, purses, forum.db.purses)
  }

  ghost predicate Taken(s: Snapshot, forum: Forum)
    reads forum, forum.db
  {
    s.votes == forum.votes && s.curve == forum.authorCurve && s.median == forum.db.median && s.printRate == forum.db.props.printRate
  }

  /** One due comment paid on top of what was awarded before it. */
  method PayNext(forum: Forum, c: int, total: int, balance: int, curationPercent: int, before: int, ghost s: Snapshot,
                 ghost left: set<int>, ghost all: set<int>, ghost base: map<Account, Stake>, ghost purses: map<Account, Purse>)
    returns (ok: bool, awarded: int)
    requires left <= all && forum.Valid() && SnapshotOk(s) && Taken(s, forum) && s.total == total
    requires s.balance == balance && s.percent == curationPercent
    requires UnderWay(s, forum, left, all, base, purses, before) && c in left && all == DueComments(s.comments, forum.db.now)
    requires forum.db.now < NEVER && 0 <= balance && 0 <= curationPercent <= HUNDRED_PERCENT
    modifies forum`comments, forum`payouts, forum.db`stakes, forum.db`purses, forum.db`props
    ensures ok ==> forum.Valid() && Taken(s, forum) && UnderWay(s, forum, left - {c}, all, base, purses, awarded)
    ensures !ok ==> Priceless(old(forum.db.props)) || (total <= 0 && c in s.comments && 0 < s.comments[c].netRshares)
    ensures ok ==> forum.payouts == old(forum.payouts) + [c] && SameRates(old(forum.db.props), forum.db.props)
  {
    hide Awarding, Evaluate, CurveOf, ClaimOf, RewardFor, RewardOf, Paying, MulDiv, Forum.Valid, Settled, Within,
      PassPaid, RewardSplit, Sum, CurveAt;
    PaidOneMore(s.comments, forum.comments, left, all, forum.db.now, c);
    ghost var x, stakes, between := forum.comments[c], forum.db.stakes, forum.db.purses;
    var claimed;
    ok, claimed := CashoutComment(forum, c, total, balance, curationPercent, base, before);
    awarded := before + claimed;
    if ok {
      SumOneMore(all, left, c, TakenAt(s));
      SumOneMore(all, left, c, CurveAt(s.comments, s.curve));
      CurveIs(s.comments, s.curve, c);
      OneMoreAward(before, claimed, total, balance, Sum(all - left, CurveAt(s.comments, s.curve)),
                   CurveOf(x, forum.authorCurve));
      PassOneMore(s, all - left, c, base, stakes, forum.db.stakes, purses, between, forum.db.purses);
      assert all - left + {c} == all - (left - {c});
    }
  }

  lemma CurveIs(comments: map<int, Comment>, curve: Curve, c: int)
    requires CurveOk(curve) && c in comments
    ensures CurveAt(comments, curve)(c) == CurveOf(comments[c], curve)
  {
  }

  lemma StartPass(s: Snapshot, forum: Forum, all: set<int>)
    requires SnapshotOk(s) && forum.db.Valid() && s.comments == forum.comments && all <= s.comments.Keys
    requires s.votes == forum.votes && s.curve == forum.authorCurve && s.median == forum.db.median
    requires s.printRate == forum.db.props.printRate
    ensures UnderWay(s, forum, all, all, forum.db.stakes, forum.db.purses, 0) && Taken(s, forum)
  {
    AwardingNothing(forum.db);
    StartPaying(s.comments, all, forum.db.now);
    NothingDone(all, TakenAt(s));
    NothingDone(all, CurveAt(s.comments, s.curve));
    NoAward(s.total, s.balance);
    NothingPaid(s, forum.db.stakes, forum.db.purses);
    assert all - all == {};
    hide Awarding, Paying, Within, PassPaid, Sum;
  }

  /** Second walk: every due comment is paid against the same snapshot of the fund. */
  method PayDue(forum: Forum, total: int, balance: int, curationPercent: int) returns (ok: bool, awarded: int)
    requires forum.Valid() && forum.db.Valid() && forum.db.now < NEVER && 0 <= curationPercent <= HUNDRED_PERCENT && 0 <= balance
    modifies forum`comments, forum`payouts, forum.db`stakes, forum.db`purses, forum.db`props
    ensures ok ==> forum.Valid() && Awarding(forum.db, old(forum.db.stakes), awarded)
    ensures ok ==>
      && 0 <= awarded
      && Within(awarded, total, balance, DueClaims(old(forum.comments), forum.authorCurve, forum.db.now))
    ensures ok ==>
      Paying(old(forum.comments), forum.comments, {}, DueComments(old(forum.comments), forum.db.now), forum.db.now)
    ensures !ok ==> Priceless(old(forum.db.props)) || (total <= 0 && exists c :: c in DueComments(old(forum.comments), forum.db.now) && 0 < old(forum.comments)[c].netRshares)
    ensures ok ==> old(forum.payouts) <= forum.payouts && SameRates(old(forum.db.props), forum.db.props)
    ensures ok ==>
      var s := Snapshot(old(forum.comments), forum.votes, forum.authorCurve, forum.db.median, old(forum.db.props).printRate, balance, total, curationPercent);
      AllPaid(s, forum.db.now, awarded, old(forum.db.stakes), forum.db.stakes, old(forum.db.purses), forum.db.purses)
  {
    hide Sum, Awarding, Evaluate, Paying, MulDiv, Forum.Valid, Database.Valid, Within, PassPaid, AllPaid, UnderWay, DueComments, DueClaims, Taken, TakenAt,
      SnapshotOk, CurveOk, Sound;
    CurvesKnown(forum);
    MedianSound(forum.db);
    var db := forum.db;
    ghost var s := Snapshot(forum.comments, forum.votes, forum.authorCurve, db.median, db.props.printRate, balance,
                            total, curationPercent);
    ghost var base, purses, all := db.stakes, db.purses, DueComments(forum.comments, db.now);
    DueAreComments(forum.comments, db.now);
    SnapshotSound(s);
    StartPass(s, forum, all);
    awarded := 0;
    var left := set c | c in forum.comments && forum.comments[c].cashoutTime <= db.now;
    DueAre(forum.comments, db.now, left);
    while left != {}
      invariant forum.Valid() && Taken(s, forum) && left <= all && UnderWay(s, forum, left, all, base, purses, awarded)
      invariant old(forum.payouts) <= forum.payouts && forum.db.props.interestRate == old(forum.db.props).interestRate
      invariant forum.db.props.printRate == old(forum.db.props).printRate
      invariant old(forum.db.props).vestingFund + old(forum.db.props).pendingSteem <= forum.db.props.vestingFund + forum.db.props.pendingSteem
      decreases |left|
    {
      var c := Pick(left);
      ok, awarded := PayNext(forum, c, total, balance, curationPercent, awarded, s, left, all, base, purses);
      if !ok {
        return;
      }
      left := left - {c};
    }
    PassDone(s, forum, all, base, purses, awarded);
    ok := true;
  }

  lemma SnapshotSound(s: Snapshot)
    requires CurveOk(s.curve) && Sound(s.median)
    ensures SnapshotOk(s)
  {
  }

  lemma MedianSound(db: Database)
    requires db.Valid()
    ensures Sound(db.median)
  {
  }

  lemma DueAre(comments: map<int, Comment>, now: int, due: set<int>)
    requires due == set c | c in comments && comments[c].cashoutTime <= now
    ensures due == DueComments(comments, now)
  {
  }

  lemma DueAreComments(comments: map<int, Comment>, now: int)
    ensures DueComments(comments, now) <= comments.Keys
  {
  }

  lemma PassDone(s: Snapshot, forum: Forum, all: set<int>, base: map<Account, Stake>, purses: map<Account, Purse>,
                 awarded: int)
    requires SnapshotOk(s) && UnderWay(s, forum, {}, all, base, purses, awarded) && all == DueComments(s.comments, forum.db.now)
    ensures Awarding(forum.db, base, awarded) && Paying(s.comments, forum.comments, {}, all, forum.db.now)
    ensures 0 <= awarded && Within(awarded, s.total, s.balance, DueClaims(s.comments, s.curve, forum.db.now))
    ensures AllPaid(s, forum.db.now, awarded, base, forum.db.stakes, purses, forum.db.purses)
  {
    assert all - {} == all;
    hide Awarding, Paying, Within, PassPaid, Sum;
  }

  lemma NoAward(total: int, balance: int)
    ensures Within(0, total, balance, 0)
  {
  }

  lemma StartPaying(was: map<int, Comment>, all: set<int>, time: int)
    requires all <= was.Keys
    ensures Paying(was, was, all, all, time)
  {
  }

  lemma OneMoreAward(awarded: int, claimed: int, total: int, balance: int, done: int, curve: int)
    requires Within(awarded, total, balance, done) && Within(claimed, total, balance, curve)
    ensures Within(awarded + claimed, total, balance, done + curve)
  {
    Distribute(total, awarded, claimed);
    Distribute(balance, done, curve);
  }

  lemma AwardsWithin(awarded: int, total: int, balance: int, curves: int, recent: int)
    requires 0 <= balance && 0 <= recent && 0 <= curves && total == recent + curves
    requires Within(awarded, total, balance, curves)
    ensures awarded <= balance
  {
    if 0 < total {
      PartOfLess(balance, curves, total, awarded);
    }
  }

  /** The denominator of a pass: faded recent claims and all due ones, in 128 bits. */
  ghost function DenominatorOf(f: Fund, comments: map<int, Comment>, curve: Curve, now: int): int
    requires CurveOk(curve)
  {
    (Decayed(f, now).recentClaims + DueClaims(comments, curve, now)) % U128
  }

  /** Why a pass fails: comments without a fund, rewards in shares without a price, or claims against nothing. */
  ghost predicate CannotPay(comments: map<int, Comment>, curve: Curve, funds: seq<Fund>, p: Props, now: int)
  {
    && CurveOk(curve)
    && if funds == [] then DueComments(comments, now) != {}
       else Priceless(p) || (DenominatorOf(funds[POST_FUND], comments, curve, now) == 0 && exists c :: c in DueComments(comments, now) && 0 < comments[c].netRshares)
  }

  /**
   What a pass does to the money: everyone gains what the due comments owe them at the fund's own
   curation percentage, balance and denominator; the fund falls by exactly what they take and
   remembers the denominator; without a fund nothing moves.
   */
  ghost predicate CashedOut(comments: map<int, Comment>, votes: Votes, curve: Curve, median: Price, printRate: int,
                            now: int,
                            funds: seq<Fund>, after: seq<Fund>, was: map<Account, Stake>, stakes: map<Account, Stake>,
                            purses: map<Account, Purse>, paid: map<Account, Purse>)
  {
    && CurveOk(curve) && Sound(median) && |after| == |funds|
    && if funds == [] then after == funds && stakes == was && paid == purses
       else var f := Decayed(funds[POST_FUND], now);
            var s, taken := Snapshot(comments, votes, curve, median, printRate, f.balance, DenominatorOf(funds[POST_FUND], comments, curve, now), f.percentCuration),
                            f.balance - after[POST_FUND].balance;
            && AllPaid(s, now, taken, was, stakes, purses, paid)
            && (forall i :: 0 < i < |funds| ==> after[i] == Decayed(funds[i], now))
            && after[POST_FUND] == f.(recentClaims := s.total, balance := f.balance - taken)
  }

  /**
   process_comment_cashout: every due comment is paid once and never again, and the fund shrinks by exactly
   what was paid, which is at most its balance as long as the 128-bit denominator did not wrap.
   */
  method ProcessCashout(forum: Forum) returns (ok: bool, fits: bool)
    requires forum.Valid() && forum.db.Valid() && FundsOk(forum.db.funds) && forum.db.now < NEVER
    modifies forum`comments, forum`payouts, forum.db`stakes, forum.db`purses, forum.db`props, forum.db`funds
    ensures ok ==> forum.Valid() && forum.db.Valid() && (fits ==> FundsOk(forum.db.funds))
    ensures CurveOk(forum.authorCurve)
    ensures fits <==> old(forum.db.funds) == [] || ClaimsFit(old(forum.db.funds)[POST_FUND], old(forum.comments), forum.authorCurve, forum.db.now)
    ensures ok ==>
      Paying(old(forum.comments), forum.comments, {}, DueComments(old(forum.comments), forum.db.now), forum.db.now)
    ensures ok ==> DueComments(forum.comments, forum.db.now) == {} && old(forum.payouts) <= forum.payouts
    ensures ok ==> |forum.db.funds| == |old(forum.db.funds)|
    ensures !ok ==>
      CannotPay(old(forum.comments), forum.authorCurve, old(forum.db.funds), old(forum.db.props), forum.db.now)
    ensures ok ==> CashedOut(old(forum.comments), forum.votes, forum.authorCurve, forum.db.median, old(forum.db.props).printRate, forum.db.now,
                             old(forum.db.funds), forum.db.funds, old(forum.db.stakes), forum.db.stakes, old(forum.db.purses), forum.db.purses)
    ensures ok ==> SameShares(old(forum.db.stakes), forum.db.stakes) && SameRates(old(forum.db.props), forum.db.props)
  {
    hide Sum, Evaluate, Awarding, MulDiv, Database.Valid, Faded, FundTotal, Forum.Valid, Paying, Within, DueClaims,
      AllPaid;
    var db := forum.db;
    CurvesKnown(forum);
    MedianSound(db);
    if |db.funds| == 0 {
      if DueComments(forum.comments, db.now) != {} {
        return false, true;
      }
      StartPaying(forum.comments, {}, db.now);
      return true, true;
    }
    Decay(db);
    var fund := db.funds[POST_FUND];
    var total;
    total, fits := AddClaims(forum, fund.recentClaims);
    var awarded;
    ok, awarded := PayDue(forum, total, fund.balance, fund.percentCuration);
    if ok {
      NoneDueAnyMore(old(forum.comments), forum.comments, db.now);
      if fits {
        DueClaimsNonNegative(old(forum.comments), forum.authorCurve, db.now);
        FittingAward(awarded, total, fund.balance, DueClaims(old(forum.comments), forum.authorCurve, db.now),
                     fund.recentClaims);
      }
      WriteBack(db, fund.(recentClaims := total, balance := fund.balance - awarded), old(db.stakes), awarded);
    }
  }

  method Decay(db: Database)
    requires db.Valid() && FundsOk(db.funds)
    modifies db`funds
    ensures db.Valid() && FundsOk(db.funds) && |db.funds| == |old(db.funds)|
    ensures forall i :: 0 <= i < |db.funds| ==> db.funds[i] == Decayed(old(db.funds)[i], db.now)
  {
    hide SumMap, Faded;
    DecayFunds(db);
  }

  method WriteBack(db: Database, fund: Fund, ghost base: map<Account, Stake>, ghost awarded: int)
    requires Awarding(db, base, awarded) && FundsOk(db.funds) && 0 < |db.funds| && fund.balance == db.funds[POST_FUND].balance - awarded
    requires 0 <= fund.recentClaims < U128 && fund.percentContent == db.funds[POST_FUND].percentContent
    requires fund.percentCuration == db.funds[POST_FUND].percentCuration
    modifies db`funds
    ensures db.Valid() && (FundsOk(db.funds) <==> 0 <= fund.balance) && db.funds == old(db.funds)[POST_FUND := fund] && SameShares(base, db.stakes)
  {
    hide SumMap;
    FundTotalUpdate(db.funds, POST_FUND, fund);
    db.funds := db.funds[POST_FUND := fund];
  }

  lemma CurvesKnown(forum: Forum)
    requires forum.Valid()
    ensures CurveOk(forum.curve) && CurveOk(forum.authorCurve)
  {
  }

  lemma NoneDueAnyMore(was: map<int, Comment>, now: map<int, Comment>, time: int)
    requires time < NEVER && Paying(was, now, {}, DueComments(was, time), time)
    ensures DueComments(now, time) == {}
  {
    forall c | c in now ensures time < now[c].cashoutTime {
      assert now[c] == if c in DueComments(was, time) then Settled(was[c], time) else was[c];
    }
  }

  lemma DueClaimsNonNegative(comments: map<int, Comment>, curve: Curve, now: int)
    requires CurveOk(curve)
    ensures 0 <= DueClaims(comments, curve, now)
  {
    CurvesNonNegative(comments, curve, DueComments(comments, now));
  }

  lemma FittingAward(awarded: int, total: int, balance: int, claims: int, recent: int)
    requires 0 <= balance && 0 <= recent && 0 <= claims && recent + claims < U128 && total == (recent + claims) % U128
    requires Within(awarded, total, balance, claims)
    ensures awarded <= balance
  {
    SmallModulus(recent + claims, U128);
    AwardsWithin(awarded, total, balance, claims, recent);
  }

  // ----- when the denominator wraps -----

  /** What a pass pays when no reward is dust or capped: each claim's floored part of the balance. */
  ghost function FullPay(s: set<int>, f: int -> int, balance: int, total: int): int
    requires 0 < total
  {
    Sum(s, PartAt(f, balance, total))
  }

  ghost function PartAt(f: int -> int, balance: int, total: int): int -> int
    requires 0 < total
  {
    c => MulDiv(balance, f(c), total)
  }

  /** Every fund can pay for a pass exactly when the 128-bit sum of the recent and the due claims does not wrap. */
  lemma NeverOverdrawn(s: set<int>, f: int -> int, recent: int, total: int)
    requires 0 <= recent < U128 && (forall c :: c in s ==> 0 <= f(c)) && 0 < total == (recent + Sum(s, f)) % U128
    ensures (forall balance: nat :: FullPay(s, f, balance, total) <= balance) <==> recent + Sum(s, f) < U128
  {
    hide Sum, MulDiv, FullPay;
    var claims := Sum(s, f);
    var zero: int -> int := c => 0;
    SumZero(s, zero);
    forall c | c in s ensures zero(c) <= f(c) {}
    SumMonotone(s, zero, f);
    if recent + claims < U128 {
      SmallModulus(recent + claims, U128);
      forall balance: nat ensures FullPay(s, f, balance, total) <= balance {
        FullPayWithin(s, f, balance, total);
        PartOfLess(balance, claims, total, FullPay(s, f, balance, total));
      }
    } else {
      WrapsBelow(recent, claims);
      PaysItsClaims(s, f, total);
      assert FullPay(s, f, total, total) > total;
    }
  }

  lemma FullPayWithin(s: set<int>, f: int -> int, balance: nat, total: int)
    requires 0 < total && forall c :: c in s ==> 0 <= f(c)
    ensures FullPay(s, f, balance, total) * total <= balance * Sum(s, f)
  {
    hide Sum, MulDiv;
    forall c | c in s ensures 0 <= f(c) && PartAt(f, balance, total)(c) == MulDiv(balance, f(c), total) {}
    FloorSharesFit(s, balance, total, f, PartAt(f, balance, total));
  }

  /** Against a wrapped total a fund of exactly that size pays every claim in full. */
  lemma PaysItsClaims(s: set<int>, f: int -> int, total: int)
    requires 0 < total
    ensures FullPay(s, f, total, total) == Sum(s, f)
  {
    forall c | c in s ensures PartAt(f, total, total)(c) == f(c) {
      QuotientIs(total * f(c), total, f(c), 0);
    }
    SumAgree(s, PartAt(f, total, total), f);
  }

  lemma WrapsBelow(recent: int, claims: int)
    requires 0 <= recent < U128 && 0 <= claims && U128 <= recent + claims
    ensures (recent + claims) % U128 < claims
  {
    var q, r := (recent + claims) / U128, (recent + claims) % U128;
    assert recent + claims == q * U128 + r && 1 <= q;
  }

  /** No wrap, and so no overdrawn fund, while blocks come within the decay time and the claims are bounded. */
  lemma FitsInTime(fund: Fund, comments: map<int, Comment>, curve: Curve, now: int)
    requires CurveOk(curve) && 0 <= fund.recentClaims && 0 <= now - fund.lastUpdate <= DECAY_SECONDS
    requires fund.recentClaims * (now - fund.lastUpdate) < U128
    requires fund.recentClaims + DueClaims(comments, curve, now) < U128
    requires fund.recentClaims < U128
    ensures ClaimsFit(fund, comments, curve, now)
  {
    hide DueClaims, Faded;
    FadesInTime(fund.recentClaims, now - fund.lastUpdate);
  }

  /** After a gap longer than the decay time the sum wraps exactly when the due claims make up for the overshoot. */
  lemma LongGapWraps(recent: int, seconds: int, claims: int)
    requires 0 <= recent && 0 <= claims && DECAY_SECONDS < seconds && recent * seconds < U128 && recent + claims < U128
    ensures var over := MulDiv(recent, seconds, DECAY_SECONDS) - recent;
      Faded(recent, seconds) + claims < U128 <==> over == 0 || claims < over
  {
    ProductNonNegative(recent, seconds);
    SmallModulus(recent * seconds, U128);
    MulDivBounds(recent, seconds, DECAY_SECONDS);
    var over := MulDiv(recent, seconds, DECAY_SECONDS) - recent;
    assert recent * DECAY_SECONDS <= recent * seconds;
    assert 0 <= over < U128 by { MulDivAtLeast(recent, seconds, DECAY_SECONDS, recent); }
    if over == 0 {
      SmallModulus(recent - MulDiv(recent, seconds, DECAY_SECONDS), U128);
    } else {
      QuotientIs(-over, U128, -1, U128 - over);
    }
  }

  /** Fifteen days and three seconds without a block: the fund of 1000 owes 2000. */
  lemma OverdrawExample()
    ensures Faded(1296000000, DECAY_SECONDS + 3) == U128 - 3000 && (U128 - 3000 + 6000) % U128 == 3000
    ensures RewardFor(Price(1, 1), 1000, 3000, 6000, 1000000) == 2000
  {
    assert MulDiv(1000, 6000, 3000) == 2000;
  }
}
