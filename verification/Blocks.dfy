/** Whole blocks over the ledger: operations that apply or leave no trace, then the end-of-block pipeline. */
module Blocks {
  import opened Basics
  import opened Sums
  import opened Assets
  import opened Division
  import opened Ledger
  import opened Payments
  import opened Transfers
  import opened Claims
  import opened Curves
  import opened Curation
  import opened Rewards
  import E = Escrows
  import M = Market
  import S = Staking
  import P = PowerPlans
  import PD = PowerDown
  import I = Inflation
  import V = VoteTally
  import SV = StakeVotes
  import Proxies
  import Witnesses
  import opened Operations
  import opened Sweeps

  ghost predicate Past(comments: map<int, Comment>, now: int)
  {
    forall c :: c in comments ==> comments[c].created <= now
  }

  lemma SameKeepsReserved(plans: map<Account, P.Plan>, was: map<Account, Stake>, now: map<Account, Stake>)
    requires S.AllReserved(plans, was) && SameShares(was, now)
    ensures S.AllReserved(plans, now)
  {
  }

  lemma OneGrew(was: map<Account, Stake>, now: map<Account, Stake>, a: Account)
    requires a in was && Grown(was, now) && a in now && now == was[a := was[a].(vests := now[a].vests)]
    ensures was[a].vests <= now[a].vests && now.Keys == was.Keys
    ensures forall b :: b in was ==> now[b].vests == was[b].vests + if b == a then now[a].vests - was[a].vests else 0
  {
  }

  lemma SameSharesCounted(was: map<Account, Stake>, now: map<Account, Stake>)
    requires SameShares(was, now)
    ensures SV.SharesOf(now) == SV.SharesOf(was)
  {
    SV.SharesAt(was);
    SV.SharesAt(now);
    hide SV.SharesOf;
    forall a | a in was ensures SV.SharesOf(now)[a] == SV.SharesOf(was)[a] {}
  }

  lemma EmptyBook()
    ensures M.Book(map[])
  {
  }

  lemma GrowthKeepsReserved(plans: map<Account, P.Plan>, was: map<Account, Stake>, now: map<Account, Stake>)
    requires S.AllReserved(plans, was) && Grown(was, now)
    ensures S.AllReserved(plans, now)
  {
  }

  method Vest(db: Database, from: Account, to: Account, steem: int) returns (ok: bool)
    requires db.Valid() && 0 < steem
    modifies db`purses, db`props, db`stakes
    ensures ok ==> db.Valid() && Grown(old(db.stakes), db.stakes)
    ensures ok <==> SharesAdmissible(ToVesting(from, to, steem), old(LedgerNow(db)))
    ensures ok ==> VestingEffect(ToVesting(from, to, steem), old(LedgerNow(db)), LedgerNow(db))
  {
    hide SumMap, PursesOk, OrdersOk, EscrowsOk, ConversionsOk, WithdrawalsOk, OrdersLinked, EscrowsLinked,
      ConversionsLinked, WithdrawalsLinked, SharesFor;
    StakeTotals(db.stakes);
    SharesForNonNegative(steem, db.props);
    ok := TransferToVesting(db, from, to, steem);
  }

  /** A reward claim, and whether the shares it puts into circulation have STEEM behind them. */
  method ClaimOrLeave(db: Database, a: Account, steem: int, sbd: int, vests: int) returns (ok: bool, backed: bool)
    requires db.Valid() && 0 <= steem && 0 <= sbd && 0 <= vests
    modifies db`purses, db`props, db`stakes
    ensures ok && backed ==> db.Valid() && Grown(old(db.stakes), db.stakes)
    ensures db.median.Price? ==> (ok <==> SharesAdmissible(Claim(a, steem, sbd, vests), old(LedgerNow(db))))
    ensures ok ==> VestingEffect(Claim(a, steem, sbd, vests), old(LedgerNow(db)), LedgerNow(db))
    ensures ok ==> (backed <==> !Unbacked(Claim(a, steem, sbd, vests), old(LedgerNow(db))))
  {
    hide SumMap, PursesOk, OrdersOk, EscrowsOk, ConversionsOk, WithdrawalsOk, OrdersLinked, EscrowsLinked,
      ConversionsLinked, WithdrawalsLinked, SharesFor, ClaimedSteem, CreditedBoth;
    backed := a !in db.stakes || db.stakes[a].rewardVests < vests || ClaimBacked(db.props, db.stakes[a], vests);
    ok := ClaimRewards(db, a, steem, sbd, vests);
  }

  class Chain {
    const db: Database
    const stakes: S.Stakes
    const forum: Forum
    const tally: V.Tally

    /** A chain at genesis: every invariant holds before the first block. */
    constructor (supply: nat, time: int, pool: Fund, curation: Curve, author: Curve)
      requires time < NEVER && pool.balance == 0 && FundOk(pool) && CurveOk(curation) && CurveOk(author)
      ensures Valid() && db.now == time && db.props.currentSupply == db.props.virtualSupply == supply
      ensures fresh(db) && fresh(stakes) && fresh(forum) && fresh(tally) && forum.curve == curation && forum.authorCurve == author
    {
      hide *;
      var ledger := new Database(supply, time, pool);
      var staking := new S.Stakes(ledger);
      var posts := new Forum(ledger, curation, author);
      var count := SV.GenesisTally();
      db, stakes, forum, tally := ledger, staking, posts, count;
      new;
      AtGenesis(pool);
      AllCounted();
    }

    lemma AllCounted()
      requires Upheld() && tally.Valid() && tally.vests == SV.SharesOf(db.stakes) && tally.declined == {}
      ensures Valid()
    {
    }

    lemma AtGenesis(pool: Fund)
      requires stakes.db == db && forum.db == db && stakes.Valid() && forum.Valid() && FundOk(pool)
      requires db.funds == [pool] && db.orders == map[]
      requires db.accounts == {MINER_ACCOUNT, NULL_ACCOUNT, TEMP_ACCOUNT, INIT_MINER}
      requires stakes.plans == S.IdlePlans(db.accounts) && forum.comments == map[]
      ensures Upheld()
    {
      hide S.Stakes.Valid, Forum.Valid;
      EmptyBook();
    }

    /** Every supply equation, reserve, book, weight and fund invariant at once. */
    ghost predicate Upheld()
      reads this, db, stakes, forum
    {
      && stakes.db == db && forum.db == db
      && stakes.Valid() && NullIdle(stakes.plans)
      && forum.Valid() && Past(forum.comments, db.now)
      && M.Book(db.orders) && FundsOk(db.funds)
    }

    /** The votes are counted from exactly the shares of the ledger. */
    ghost predicate Counted()
      reads this, db, tally
    {
      tally.Valid() && tally.vests == SV.SharesOf(db.stakes) && tally.declined <= db.accounts
    }

    ghost predicate Valid()
      reads this, db, stakes, forum, tally
    {
      Upheld() && Counted()
    }

    /** The vote equation of validate_invariants: all shares are counted once, and add up to total_vesting_shares. */
    lemma VotesAddUp()
      requires Valid()
      ensures tally.total == db.props.vestingShares == V.StoredTotal(tally)
    {
      hide Forum.Valid, M.Book, FundsOk, SumMap;
      SV.SharesTotal(db.stakes);
      V.StoredIsTotal(tally);
    }

    /** Operations that only move balances. */
    method ApplyBalance(op: Operation) returns (ok: bool)
      requires Upheld() && WellFormed(op, db.now, db.accounts)
      requires MovesBalance(op)
      modifies db`purses, db`props, db`withdrawals, db`conversions
      ensures ok ==> Upheld()
      ensures db.median.Price? ==> (ok <==> BalanceAdmissible(op, old(LedgerNow(db))))
      ensures ok ==> BalanceEffect(op, old(LedgerNow(db)), LedgerNow(db))
    {
      hide Database.Valid, Forum.Valid, M.Book, FundsOk, NullIdle, Past, S.AllReserved, S.AllSteady, S.Exact,
        S.DelegationsOk, S.RoutesCounted, P.RoutesFit, P.RoutesOk;
      match op
      case TransferOp(from, to, x) => ok := Transfer(db, from, to, x);
      case ToSavings(from, to, x) => ok := TransferToSavings(db, from, to, x);
      case FromSavings(from, to, id, x) => ok := TransferFromSavings(db, from, to, id, x);
      case CancelSavings(from, id) => ok := CancelFromSavings(db, from, id);
      case ConvertOp(owner, id, sbd) => ok := Convert(db, owner, id, sbd);
    }

    /** Operations that turn STEEM or rewards into spendable shares. */
    method ApplyVesting(op: Operation) returns (ok: bool, backed: bool)
      requires Upheld() && WellFormed(op, db.now, db.accounts) && MakesShares(op)
      modifies db`purses, db`props, db`stakes
      ensures ok && backed ==> Upheld() && Grown(old(db.stakes), db.stakes)
      ensures db.median.Price? ==> (ok <==> SharesAdmissible(op, old(LedgerNow(db))))
      ensures ok ==> VestingEffect(op, old(LedgerNow(db)), LedgerNow(db))
      ensures ok ==> (backed <==> !Unbacked(op, old(LedgerNow(db))))
    {
      hide Database.Valid, Forum.Valid, M.Book, FundsOk, NullIdle, Past, S.AllReserved, S.AllSteady, S.Exact, S.DelegationsOk, S.RoutesCounted, P.RoutesFit, P.RoutesOk,
        Grown, VestingEffect;
      match op {
        case ToVesting(from, to, steem) => ok := Vest(db, from, to, steem); backed := true;
        case Claim(owner, steem, sbd, vests) => ok, backed := ClaimOrLeave(db, owner, steem, sbd, vests);
      }
      if ok && backed {
        GrowthKeepsReserved(stakes.plans, old(db.stakes), db.stakes);
      }
    }

    method ApplyEscrow(op: Operation) returns (ok: bool)
      requires Upheld() && WellFormed(op, db.now, db.accounts) && OnEscrow(op)
      modifies db`purses, db`props, db`escrows
      ensures ok ==> Upheld()
      ensures db.median.Price? ==> (ok <==> EscrowAdmissible(op, old(LedgerNow(db))))
      ensures ok ==> EscrowEffect(op, old(LedgerNow(db)), LedgerNow(db))
    {
      hide Database.Valid, Forum.Valid, M.Book, FundsOk, NullIdle, Past, S.AllReserved, S.AllSteady, S.Exact,
        S.DelegationsOk, S.RoutesCounted, P.RoutesFit, P.RoutesOk;
      match op
      case OpenEscrow(from, to, agent, id, steem, sbd, fee, deadline, expiration) =>
        ok := E.EscrowTransfer(db, from, to, agent, id, steem, sbd, fee, deadline, expiration);
      case ApproveEscrow(from, id, to, agent, who, approve) => ok := E.EscrowApprove(db, from, id, to, agent, who,
                         approve);
      case DisputeEscrow(from, id, to, agent) => ok := E.EscrowDispute(db, from, id, to, agent);
      case ReleaseEscrow(from, id, to, agent, who, receiver, steem, sbd) => ok := E.EscrowRelease(db, from, id, to,
                         agent, who, receiver, steem, sbd);
    }

    method ApplyMarket(op: Operation) returns (ok: bool)
      requires Upheld() && WellFormed(op, db.now, db.accounts) && OnMarket(op)
      modifies db`purses, db`props, db`orders, db`nextOrder
      ensures ok ==> Upheld()
      ensures db.median.Price? ==> (ok <==> MarketAdmissible(op, old(LedgerNow(db))))
      ensures ok ==> MarketEffect(op, old(LedgerNow(db)), LedgerNow(db))
    {
      hide Database.Valid, Forum.Valid, M.Book, FundsOk, NullIdle, Past, S.AllReserved, S.AllSteady, S.Exact,
        S.DelegationsOk, S.RoutesCounted, P.RoutesFit, P.RoutesOk;
      match op
      case CreateOrder(order, fillOrKill) => ok := M.LimitOrderCreate(db, order, fillOrKill);
      case CancelOrder(owner, id) => ok := M.LimitOrderCancel(db, owner, id);
    }

    method ApplyStake(op: Operation) returns (ok: bool)
      requires Upheld() && WellFormed(op, db.now, db.accounts) && OnStake(op)
      modifies stakes`plans, stakes`routes, stakes`delegations, stakes`expirations, stakes`nextExpiration
      ensures ok ==> Upheld()
      ensures ok <==> StakeAdmissible(op, LedgerNow(db), old(StakesNow(stakes)))
      ensures ok ==> StakeEffect(op, db.now, old(StakesNow(stakes)), StakesNow(stakes))
    {
      hide Database.Valid, Forum.Valid, M.Book, FundsOk, Past, S.Stakes.Valid, S.RouteAllowed, P.RouteTotal;
      match op
      case Withdraw(a, vests, fee) => ok := stakes.WithdrawVesting(a, vests, fee);
      case SetRoute(from, to, percent, autoVest) =>
        ok := stakes.SetRoute(from, to, percent, autoVest);
      case Delegate(from, to, vests, fee) => ok := stakes.Delegate(from, to, vests, fee);
    }

    method ApplyAccount(op: Operation) returns (ok: bool)
      requires Upheld() && WellFormed(op, db.now, db.accounts) && MakesAccount(op)
      modifies stakes`plans, stakes`delegations, db`accounts, db`purses, db`stakes, db`props
      ensures ok ==> Upheld()
      ensures ok <==> AccountAdmissible(op, old(LedgerNow(db)), old(StakesNow(stakes)))
      ensures ok ==> AccountEffect(op, old(LedgerNow(db)), LedgerNow(db), old(StakesNow(stakes)), StakesNow(stakes))
    {
      hide Database.Valid, M.Book, FundsOk, Past, S.Stakes.Valid, SharesFor, Weighed, AllUnderCurve, PaidOnce, VotesOk,
        CommentsOk, PowersOk, Upheld, AccountEffect, NullIdle;
      ForumFacts();
      match op {
        case NewAccount(creator, a, fee, minimum) => ok := MakeAccount(creator, a, fee, minimum);
        case NewAccountWithDelegation(creator, a, fee, vests, creationFee) => ok := MakeAccountWithDelegation(creator,
                                      a, fee, vests, creationFee);
      }
      if ok {
        MoreAccounts(forum.comments, forum.votes, old(db.accounts), db.accounts);
        Together();
      }
    }

    method MakeAccount(creator: Account, a: Account, fee: int, minimum: int) returns (ok: bool)
      requires stakes.db == db && stakes.Valid() && NullIdle(stakes.plans) && 0 <= fee
      modifies stakes`plans, db`accounts, db`purses, db`stakes, db`props
      ensures ok ==> stakes.Valid() && NullIdle(stakes.plans) && db.accounts == old(db.accounts) + {a}
      ensures ok <==>
        AccountAdmissible(NewAccount(creator, a, fee, minimum), old(LedgerNow(db)), old(StakesNow(stakes)))
      ensures ok ==> AccountEffect(NewAccount(creator, a, fee, minimum), old(LedgerNow(db)), LedgerNow(db), old(StakesNow(stakes)), StakesNow(stakes))
    {
      hide S.Stakes.Valid, SharesFor, Joined;
      ok := stakes.CreateAccount(creator, a, fee, minimum);
    }

    method MakeAccountWithDelegation(creator: Account, a: Account, fee: int, vests: int, creationFee: int)
      returns (ok: bool)
      requires stakes.db == db && stakes.Valid() && NullIdle(stakes.plans) && 0 <= fee && 0 <= vests && creator != a
      requires creator != NULL_ACCOUNT
      modifies stakes`plans, stakes`delegations, db`accounts, db`purses, db`stakes, db`props
      ensures ok ==> stakes.Valid() && NullIdle(stakes.plans) && db.accounts == old(db.accounts) + {a}
      ensures ok <==> AccountAdmissible(NewAccountWithDelegation(creator, a, fee, vests, creationFee), old(LedgerNow(db)), old(StakesNow(stakes)))
      ensures ok ==>
        AccountEffect(NewAccountWithDelegation(creator, a, fee, vests, creationFee), old(LedgerNow(db)), LedgerNow(db), old(StakesNow(stakes)), StakesNow(stakes))
    {
      hide S.Stakes.Valid, SharesFor, Joined;
      ok := stakes.CreateWithDelegation(creator, a, fee, vests, creationFee);
    }

    lemma ForumFacts()
      requires Upheld()
      ensures stakes.db == db && forum.db == db && stakes.Valid() && NullIdle(stakes.plans)
      ensures Past(forum.comments, db.now) && M.Book(db.orders) && FundsOk(db.funds)
      ensures CurveOk(forum.curve) && CurveOk(forum.authorCurve) && VotesOk(forum.votes, db.accounts) && Weighed(forum.comments, forum.votes)
      ensures AllUnderCurve(forum.comments, forum.curve) && CommentsOk(forum.comments, db.accounts) && PaidOnce(forum.comments, forum.payouts) && PowersOk(forum.voters)
    {
    }

    lemma Together()
      requires stakes.db == db && forum.db == db && stakes.Valid() && NullIdle(stakes.plans)
      requires Past(forum.comments, db.now) && M.Book(db.orders) && FundsOk(db.funds)
      requires CurveOk(forum.curve) && CurveOk(forum.authorCurve) && VotesOk(forum.votes, db.accounts) && Weighed(forum.comments, forum.votes)
      requires AllUnderCurve(forum.comments, forum.curve) && CommentsOk(forum.comments, db.accounts) && PaidOnce(forum.comments, forum.payouts) && PowersOk(forum.voters)
      ensures Upheld()
    {
    }

    method ApplyForum(op: Operation) returns (ok: bool)
      requires Upheld() && WellFormed(op, db.now, db.accounts) && OnForum(op)
      modifies forum`comments, forum`votes, forum`voters
      ensures ok ==> Upheld()
      ensures ok <==> ForumAdmissible(op, LedgerNow(db), StakesNow(stakes), old(ForumNow(forum)))
      ensures ok ==> ForumEffect(op, forum.curve, db.now, Effective(op, db.stakes, stakes.plans), old(ForumNow(forum)), ForumNow(forum))
    {
      hide Database.Valid, Forum.Valid, M.Book, FundsOk, S.Stakes.Valid, NullIdle;
      ForumFacts();
      match op
      case Post(c, x) => ok := forum.CreateComment(c, x);
      case VoteOp(c, voter, percent, reserve, curationPercent) =>
        var shares := if voter in db.stakes && voter in stakes.plans
                      then db.stakes[voter].vests - stakes.plans[voter].delegated + stakes.plans[voter].received else 0;
        ok := forum.CastVote(c, voter, percent, shares, reserve, curationPercent);
    }

    /** The votes of shares that just entered circulation. */
    method CountShares(a: Account, shares: int, ghost was: map<Account, Stake>)
      requires tally.Valid() && tally.vests == SV.SharesOf(was) && tally.declined <= db.accounts && a in was && 0 <= shares
      requires db.stakes.Keys == was.Keys
      requires forall b :: b in was ==> db.stakes[b].vests == was[b].vests + if b == a then shares else 0
      modifies tally`vests, tally`total, tally`proxied, tally`witnesses
      ensures Counted() && SameDecisions(old(TallyNow(tally)), TallyNow(tally))
    {
      hide V.Tally.Valid;
      SV.SharesGrow(was, db.stakes, a, shares);
      var ok := tally.AddStake(a, shares);
    }

    /** ApplyVesting with the votes of the new shares. */
    method ApplyVestingVotes(op: Operation) returns (ok: bool, backed: bool)
      requires Valid() && WellFormed(op, db.now, db.accounts) && MakesShares(op)
      modifies db`purses, db`props, db`stakes, tally`vests, tally`total, tally`proxied, tally`witnesses
      ensures ok && backed ==> Valid() && SameDecisions(old(TallyNow(tally)), TallyNow(tally))
      ensures db.median.Price? ==> (ok <==> SharesAdmissible(op, old(LedgerNow(db))))
      ensures ok ==> VestingEffect(op, old(LedgerNow(db)), LedgerNow(db))
      ensures ok ==> (backed <==> !Unbacked(op, old(LedgerNow(db))))
    {
      hide SharesAdmissible, AccountAdmissible, Upheld, V.Tally.Valid, Unbacked, VestingEffect, SameDecisions,
        SV.SharesOf;
      ghost var was := db.stakes;
      var a := if op.ToVesting? then op.to else op.owner;
      var before := if a in db.stakes then db.stakes[a].vests else 0;
      ok, backed := ApplyVesting(op);
      if ok && backed {
        VestingShares(op, old(LedgerNow(db)), LedgerNow(db));
        CountShares(a, db.stakes[a].vests - before, was);
      }
    }

    /** ApplyAccount with an empty tally entry and the votes of the new account's shares. */
    method ApplyAccountVotes(op: Operation) returns (ok: bool)
      requires Valid() && WellFormed(op, db.now, db.accounts) && MakesAccount(op)
      modifies stakes`plans, stakes`delegations, db`accounts, db`purses, db`stakes, db`props, tally`vests, tally`total,
        tally`proxied, tally`witnesses, tally`ballots
      ensures ok ==> Valid()
      ensures ok <==> AccountAdmissible(op, old(LedgerNow(db)), old(StakesNow(stakes)))
      ensures ok ==> AccountEffect(op, old(LedgerNow(db)), LedgerNow(db), old(StakesNow(stakes)), StakesNow(stakes))
      ensures ok ==>
        var v := old(TallyNow(tally)); SameDecisions(v.(ballots := v.ballots[op.name := {}]), TallyNow(tally))
    {
      hide SharesAdmissible, AccountAdmissible, Upheld, V.Tally.Valid, AccountEffect, SV.SharesOf;
      ghost var was := db.stakes;
      LedgerKeys();
      ok := ApplyAccount(op);
      if ok {
        NewShares(op, old(LedgerNow(db)), LedgerNow(db), old(StakesNow(stakes)), StakesNow(stakes));
        SharesKeys(was);
        tally.CreateAccount(op.name);
        SharesJoined(was, op.name);
        LedgerKeys();
        CountShares(op.name, db.stakes[op.name].vests, was[op.name := Stake(0, 0, 0)]);
      }
    }

    lemma LedgerKeys()
      requires Upheld()
      ensures db.stakes.Keys == db.accounts && forall a :: a in db.stakes ==> 0 <= db.stakes[a].vests
    {
      forall a | a in db.stakes ensures 0 <= db.stakes[a].vests {
        assert StakeOk(db.stakes[a]);
      }
    }

    lemma SharesKeys(stakes: map<Account, Stake>)
      ensures SV.SharesOf(stakes).Keys == stakes.Keys
    {
    }

    lemma SharesJoined(stakes: map<Account, Stake>, a: Account)
      ensures SV.SharesOf(stakes)[a := 0] == SV.SharesOf(stakes[a := Stake(0, 0, 0)])
    {
    }

    /** Voting operations touch the tally only. */
    method ApplyVotes(op: Operation) returns (ok: bool)
      requires Counted() && WellFormed(op, db.now, db.accounts) && OnVotes(op)
      modifies tally
      ensures Counted() && TallyNow(tally).clock == old(TallyNow(tally)).clock
      ensures ok <==> VotesAdmissible(op, old(TallyNow(tally)))
      ensures ok ==> VotesEffect(op, old(TallyNow(tally)), TallyNow(tally))
    {
      hide V.Tally.Valid, V.ChainAccepted, Proxies.Acyclic, Witnesses.SameProgress;
      V.BallotsKnown(tally);
      match op {
        case ProxyOp(a, n) => ok := tally.SetProxy(a, n);
        case ApproveOp(a, w, approve) => ok := tally.VoteWitness(a, w, approve);
        case NewWitness(w, keyed) =>
          ok := w !in tally.witnesses;
          if ok {
            tally.CreateWitness(w, keyed);
          }
      }
    }

    /** Operations that touch neither stake nor votes: balances, escrows and orders. */
    method ApplyMoney(op: Operation) returns (ok: bool)
      requires Valid() && WellFormed(op, db.now, db.accounts) && (MovesBalance(op) || OnEscrow(op) || OnMarket(op))
      modifies db`purses, db`props, db`withdrawals, db`conversions, db`escrows, db`orders, db`nextOrder
      ensures db.median.Price? ==> (ok <==> Admissible(op, old(Current())))
      ensures ok ==> Valid() && Effect(op, forum.curve, old(Current()), Current())
    {
      hide BalanceAdmissible, SharesAdmissible, EscrowAdmissible, MarketAdmissible, StakeAdmissible, AccountAdmissible, VotesAdmissible, ForumAdmissible,
        Upheld, V.Tally.Valid, SV.SharesOf, WellFormed, Unbacked, BalanceEffect, VestingEffect, EscrowEffect,
        MarketEffect, StakeEffect, AccountEffect, ForumEffect, VotesEffect, SameDecisions,
        LedgerNow, StakesNow, ForumNow, TallyNow;
      if MovesBalance(op) {
        ok := ApplyBalance(op);
      } else if OnEscrow(op) {
        ok := ApplyEscrow(op);
      } else {
        ok := ApplyMarket(op);
      }
    }

    /** Operations on shares: new ones, new accounts, power-downs, routes and delegations. */
    method ApplyShares(op: Operation) returns (r: Verdict)
      requires Valid() && WellFormed(op, db.now, db.accounts) && (MakesShares(op) || OnStake(op) || MakesAccount(op))
      modifies db, stakes, tally
      ensures r.Accepted? ==> Valid() && Effect(op, forum.curve, old(Current()), Current())
      ensures db.median.Price? ==> (!r.Refused? <==> Admissible(op, old(Current())))
      ensures r.Outside? ==> Unbacked(op, old(Current()).ledger)
      ensures db.now == old(db.now) && db.median == old(db.median)
    {
      hide BalanceAdmissible, SharesAdmissible, EscrowAdmissible, MarketAdmissible, StakeAdmissible, AccountAdmissible, VotesAdmissible, ForumAdmissible,
        Upheld, V.Tally.Valid, SV.SharesOf, WellFormed, Unbacked, BalanceEffect, VestingEffect, EscrowEffect,
        MarketEffect, StakeEffect, AccountEffect, ForumEffect, VotesEffect, SameDecisions,
        StakesNow, ForumNow, TallyNow;
      var ok, backed := true, true;
      if MakesShares(op) {
        ok, backed := ApplyVestingVotes(op);
      } else if OnStake(op) {
        ok := ApplyStake(op);
      } else {
        ok := ApplyAccountVotes(op);
      }
      return if !ok then Refused else if backed then Accepted else Outside;
    }

    /** Operations that move nothing: witness votes, posts and votes on posts. */
    method ApplyVoice(op: Operation) returns (ok: bool)
      requires Valid() && WellFormed(op, db.now, db.accounts) && (OnVotes(op) || OnForum(op))
      modifies forum, tally
      ensures ok <==> Admissible(op, old(Current()))
      ensures ok ==> Valid() && Effect(op, forum.curve, old(Current()), Current())
    {
      hide BalanceAdmissible, SharesAdmissible, EscrowAdmissible, MarketAdmissible, StakeAdmissible, AccountAdmissible, VotesAdmissible, ForumAdmissible,
        Upheld, V.Tally.Valid, SV.SharesOf, WellFormed, Unbacked, BalanceEffect, VestingEffect, EscrowEffect,
        MarketEffect, StakeEffect, AccountEffect, ForumEffect, VotesEffect, SameDecisions,
        ForumNow, TallyNow;
      if OnVotes(op) {
        ok := ApplyVotes(op);
      } else {
        ok := ApplyForum(op);
      }
    }

    /** One operation inside a block or a pending transaction. */
    method Apply(op: Operation) returns (r: Verdict)
      requires Valid() && WellFormed(op, db.now, db.accounts)
      modifies db, stakes, forum, tally
      ensures r.Accepted? ==> Valid() && Effect(op, forum.curve, old(Current()), Current())
      ensures db.median.Price? ==> (!r.Refused? <==> Admissible(op, old(Current())))
      ensures r.Outside? ==> Unbacked(op, old(Current()).ledger)
      ensures db.now == old(db.now) && db.median == old(db.median)
    {
      hide Valid, WellFormed, Unbacked, Effect, Admissible;
      if MakesShares(op) || OnStake(op) || MakesAccount(op) {
        r := ApplyShares(op);
      } else {
        var ok;
        if OnVotes(op) || OnForum(op) {
          ok := ApplyVoice(op);
        } else {
          ok := ApplyMoney(op);
        }
        r := if ok then Accepted else Refused;
      }
    }

    // ----- undo sessions -----

    function Current(): Image
      reads db, stakes, forum, tally
    {
      Image(LedgerNow(db), StakesNow(stakes), ForumNow(forum), TallyNow(tally))
    }

    /** The invariant as a property of the image alone. */
    lemma ValidIsImageOk()
      ensures Valid() <==> stakes.db == db && forum.db == db && CurveOk(forum.curve) && CurveOk(forum.authorCurve) && ImageOk(Current(), forum.curve)
    {
      hide M.Book, FundsOk, NullIdle, Past, S.AllReserved, S.AllSteady, S.Exact, S.DelegationsOk, S.RoutesCounted, P.RoutesFit, P.RoutesOk, PD.Reaches,
        SumMap, PursesOk, StakesOk, PropsOk, OrdersOk, EscrowsOk, ConversionsOk, WithdrawalsOk, OrdersLinked, EscrowsLinked, ConversionsLinked, WithdrawalsLinked,
        VotesOk, Weighed, AllUnderCurve, CommentsOk, PaidOnce, PowersOk, Sound, FundTotal, V.StateOk, SV.SharesOf;
    }

    method Restore(i: Image)
      modifies db, stakes, forum, tally
      ensures Current() == i
    {
      hide LedgerNow, StakesNow, ForumNow, TallyNow;
      RestoreTally(tally, i.votes);
      RestoreLedger(db, i.ledger);
      RestoreStakes(stakes, i.staking);
      RestoreForum(forum, i.posts);
    }

    /** A pending operation in its own undo session: it keeps every invariant or leaves no trace. */
    method Push(op: Operation) returns (r: Verdict)
      requires Valid() && WellFormed(op, db.now, db.accounts)
      modifies db, stakes, forum, tally
      ensures Valid() && (!r.Accepted? ==> Current() == old(Current()))
      ensures r.Accepted? ==> Effect(op, forum.curve, old(Current()), Current())
      ensures db.median.Price? ==> (!r.Refused? <==> Admissible(op, old(Current())))
      ensures r.Outside? ==> Unbacked(op, old(Current()).ledger)
    {
      hide Valid, WellFormed, ImageOk, Effect, Unbacked, Admissible;
      var before := Current();
      ValidIsImageOk();
      r := Apply(op);
      if !r.Accepted? {
        Restore(before);
        ValidIsImageOk();
      }
    }

    // ----- the end of a block -----

    /** update_global_dynamic_data, as far as time is concerned. */
    method AdvanceClock(time: int)
      requires Upheld() && db.now <= time < NEVER
      modifies db`now
      ensures Upheld() && db.now == time
    {
      hide M.Book, FundsOk, NullIdle, S.AllReserved, S.AllSteady, S.Exact, S.DelegationsOk, S.RoutesCounted,
        P.RoutesFit, P.RoutesOk, SumMap, PursesOk, StakesOk, OrdersOk, EscrowsOk, ConversionsOk, WithdrawalsOk,
        OrdersLinked, EscrowsLinked, ConversionsLinked, WithdrawalsLinked;
      db.now := time;
    }

    method ClearOrders(time: int) returns (ok: bool)
      requires Valid() && db.now <= time < NEVER
      modifies db`now, db`props, db`purses, db`orders
      ensures db.median.Price? ==> ok
      ensures ok ==> Valid() && OrdersExpire(time, old(Current()), Current())
    {
      hide Database.Valid, Forum.Valid, M.Book, FundsOk, NullIdle, Past, S.AllReserved, S.AllSteady, S.Exact,
        S.DelegationsOk, S.RoutesCounted, P.RoutesFit, P.RoutesOk, V.Tally.Valid, SV.SharesOf, AllSettled, M.CancelBills, SameTerms;
      AdvanceClock(time);
      ok := M.ClearExpiredOrders(db);
    }

    method ClearDelegations()
      requires Valid()
      modifies stakes`plans, stakes`expirations
      ensures Valid() && SharesReturn(old(Current()), Current())
    {
      hide Database.Valid, Forum.Valid, M.Book, FundsOk, NullIdle, Past, S.AllReserved, S.AllSteady, S.Exact,
        S.RoutesCounted, P.RoutesFit, P.RoutesOk, V.Tally.Valid, SV.SharesOf, S.SharesReturned, S.Overdue;
      ghost var before, xs := stakes.plans, stakes.expirations;
      stakes.ClearExpiredDelegations();
      StillIdle(before, stakes.plans, xs, S.Overdue(xs, db.now));
    }

    /** The new interest rate and price feed the witnesses agreed on. */
    method SetFeed(median: Price, rate: int)
      requires Upheld() && Sound(median) && 0 <= rate
      modifies db`median, db`props
      ensures Upheld()
      ensures db.median == median && db.props == old(db.props).(interestRate := rate)
    {
      hide M.Book, FundsOk, NullIdle, Past, S.AllReserved, S.AllSteady, S.Exact, S.DelegationsOk, S.RoutesCounted,
        P.RoutesFit, P.RoutesOk, SumMap, PursesOk, StakesOk, OrdersOk, EscrowsOk, ConversionsOk, WithdrawalsOk,
        OrdersLinked, EscrowsLinked, ConversionsLinked, WithdrawalsLinked;
      db.median := median;
      db.props := db.props.(interestRate := rate);
    }

    method UpdateSupply() returns (ok: bool)
      requires Upheld()
      modifies db`props
      ensures !ok ==> old(db.props).currentSupply <= 0
      ensures ok ==>
        && Upheld() && db.props.currentSupply <= db.props.virtualSupply && Repriced(old(db.props), db.props, db.median)
    {
      hide M.Book, NullIdle, Past, S.AllReserved, S.AllSteady, S.Exact, S.DelegationsOk, S.RoutesCounted, P.RoutesFit,
        P.RoutesOk, SumMap, PursesOk, StakesOk, OrdersOk, EscrowsOk, ConversionsOk, WithdrawalsOk, OrdersLinked,
        EscrowsLinked, ConversionsLinked, WithdrawalsLinked, FundTotal, ToSteem, PrintRate, MulDiv;
      FundTotalNonNegative(db.funds);
      SuppliesNonNegative(db);
      if db.median.Price? {
        WorthNonNegative(db.median, db.props.sbdSupply);
      }
      ok := db.UpdateVirtualSupply();
    }

    method TakeFeed(b: Block) returns (ok: bool)
      requires Valid() && BlockOk(b)
      modifies db`median, db`props
      ensures !ok ==> old(db.props).currentSupply <= 0
      ensures ok ==>
        && Valid() && FeedTaken(b, old(Current()), Current()) && db.props.currentSupply <= db.props.virtualSupply
    {
      hide Upheld, V.Tally.Valid, SV.SharesOf, Repriced;
      SetFeed(b.median, b.rate);
      ok := UpdateSupply();
    }

    /** The supply recomputed at the end of the block. */
    method RefreshSupply() returns (ok: bool)
      requires Valid()
      modifies db`props
      ensures !ok ==> old(db.props).currentSupply <= 0
      ensures ok ==>
        && Valid() && SupplyUpdated(old(Current()), Current()) && db.props.currentSupply <= db.props.virtualSupply
    {
      hide Upheld, V.Tally.Valid, SV.SharesOf, Repriced;
      ok := UpdateSupply();
    }

    method BurnNullAccount() returns (ok: bool)
      requires Valid() && db.props.currentSupply <= db.props.virtualSupply
      modifies db`purses, db`stakes, db`props, tally`vests, tally`total
      ensures db.median.Price? ==> ok
      ensures ok ==> Valid() && NullBurns(old(Current()), Current()) && db.props.currentSupply <= db.props.virtualSupply
    {
      hide Database.Valid, Forum.Valid, M.Book, FundsOk, NullIdle, Past, S.AllReserved, S.AllSteady, S.Exact,
        S.DelegationsOk, S.RoutesCounted, P.RoutesFit, P.RoutesOk, Drained, Burned, FundTotal, SumMap, V.Tally.Valid, SV.SharesOf;
      NullIsAccount(stakes.plans, db.accounts);
      LedgerKeys();
      FundTotalNonNegative(db.funds);
      ok := BurnNull(db);
      if ok {
        BurnKeepsReserved(stakes.plans, old(db.stakes), db.stakes);
        UncountNull(old(db.stakes));
        OnlyNull(old(db.purses), db.purses, old(db.stakes), db.stakes);
      }
    }

    method UncountNull(ghost was: map<Account, Stake>)
      requires tally.Valid() && tally.vests == SV.SharesOf(was) && tally.declined <= db.accounts && NULL_ACCOUNT in was
      requires db.stakes.Keys == was.Keys && db.stakes[NULL_ACCOUNT].vests == 0
      requires forall b :: b in was && b != NULL_ACCOUNT ==> db.stakes[b] == was[b]
      modifies tally`vests, tally`total
      ensures Counted()
    {
      hide V.Tally.Valid;
      SV.SharesGrow(was, db.stakes, NULL_ACCOUNT, -was[NULL_ACCOUNT].vests);
      tally.BurnNull();
    }

    method GrowFunds(b: Block) returns (ok: bool)
      requires Valid() && BlockOk(b) && db.props.currentSupply <= db.props.virtualSupply
      modifies db`stakes, db`props, db`funds, tally`vests, tally`total, tally`proxied, tally`witnesses
      ensures !ok ==> b.producer !in db.accounts || HUNDRED_PERCENT < I.PercentTotal(old(db.funds))
      ensures ok ==> Valid() && FundsGrow(b, old(Current()), Current())
    {
      hide Database.Valid, Forum.Valid, M.Book, FundsOk, NullIdle, Past, S.AllReserved, S.AllSteady, S.Exact,
        S.DelegationsOk, S.RoutesCounted, P.RoutesFit, P.RoutesOk, Grown, FundTotal, I.PercentTotal, SumMap, V.Tally.Valid, SV.SharesOf, I.Minted;
      if b.producer !in db.accounts {
        return false;
      }
      LedgerKeys();
      FundTotalNonNegative(db.funds);
      SuppliesNonNegative(db);
      ghost var before := db.stakes;
      var vests := db.stakes[b.producer].vests;
      ok := I.ProcessFunds(db, b.head, b.producer, b.weight, b.factor);
      GrowthKeepsReserved(stakes.plans, before, db.stakes);
      if ok {
        MintedOne(before, db.stakes, b, old(db.funds), db.funds, old(db.props), db.props);
        OneGrew(before, db.stakes, b.producer);
        CountShares(b.producer, db.stakes[b.producer].vests - vests, before);
      }
    }

    method PayConversions()
      requires Valid()
      modifies db`purses, db`props, db`conversions
      ensures Valid() && ConversionsPaid(old(Current()), Current())
    {
      hide Database.Valid, Forum.Valid, M.Book, FundsOk, NullIdle, Past, S.AllReserved, S.AllSteady, S.Exact,
        S.DelegationsOk, S.RoutesCounted, P.RoutesFit, P.RoutesOk, V.Tally.Valid, SV.SharesOf, AllPaidOut, DueConversions;
      FeedSound();
      ProcessConversions(db);
    }

    /** Cashouts; what they pay out is pending or liquid, so no vote moves. */
    method PayComments() returns (r: Verdict)
      requires Valid()
      modifies db`purses, db`props, db`stakes, db`funds, forum`comments, forum`payouts
      ensures r.Accepted? ==> Valid() && CommentsPaid(forum.authorCurve, old(Current()), Current())
      ensures r.Refused? ==> CannotPay(old(forum.comments), forum.authorCurve, old(db.funds), old(db.props), db.now)
      ensures r.Outside? ==> Overflows(db.now, old(Current()), forum.authorCurve)
      ensures Overflows(db.now, old(Current()), forum.authorCurve) ==> !r.Accepted?
    {
      hide Database.Valid, Forum.Valid, M.Book, FundsOk, NullIdle, Past, S.AllReserved, S.AllSteady, S.Exact,
        S.DelegationsOk, S.RoutesCounted, P.RoutesFit, P.RoutesOk, Paying, Grown, DueComments, V.Tally.Valid, SV.SharesOf, SameShares, CashedOut, CannotPay;
      var ok, fits := ProcessCashout(forum);
      if !ok { return Refused; }
      if !fits { return Outside; }
      SameKeepsReserved(stakes.plans, old(db.stakes), db.stakes);
      PaidStaysPast(old(forum.comments), forum.comments, db.now);
      SameSharesCounted(old(db.stakes), db.stakes);
      return Accepted;
    }

    method PayPowerDowns() returns (ok: bool, ghost paid: seq<PD.Payment>)
      requires Valid()
      modifies db`purses, db`props, db`stakes, stakes`plans, tally`vests, tally`total, tally`proxied, tally`witnesses
      ensures !ok ==> !S.AllPayable(old(stakes.plans), db.now) || SV.PassTrips(tally.proxy, tally.ballots, stakes.routes, old(SV.BooksOf(stakes)), db.now)
      ensures ok ==>
        && Valid() && PowerDownsPaid(paid, old(Current()), Current()) && S.AllPayable(old(stakes.plans), db.now)
    {
      hide Database.Valid, Forum.Valid, M.Book, FundsOk, Past, S.AllReserved, S.Exact, S.DelegationsOk, S.RoutesCounted,
        P.RoutesFit, P.RoutesOk, V.Tally.Valid, SV.SharesOf, PD.PoweredDown, PD.PaidBy, Instalments, NullIdle, SV.PassAt,
        Witnesses.SameProgress, S.AllPayable, S.Stakes.Valid, SV.PassTrips, PowerDownsPaid;
      ghost var i, books := Current(), SV.BooksOf(stakes);
      InTime();
      var tripped;
      ok, tripped, paid := SV.ProcessWithdrawals(stakes, tally);
      if ok {
        PassMade(stakes.routes, paid, books, SV.BooksOf(stakes), db.now);
        PassPaysDown(paid, i, Current(), books, SV.BooksOf(stakes));
      }
    }

    method PaySavings() returns (ok: bool)
      requires Valid()
      modifies db`purses, db`props, db`withdrawals
      ensures db.median.Price? ==> ok
      ensures ok ==> Valid() && SavingsPaid(old(Current()), Current())
    {
      hide Database.Valid, Forum.Valid, M.Book, FundsOk, NullIdle, Past, S.AllReserved, S.AllSteady, S.Exact,
        S.DelegationsOk, S.RoutesCounted, P.RoutesFit, P.RoutesOk, V.Tally.Valid, SV.SharesOf, AllSettled, SavingsBills, SameTerms, DueWithdrawals;
      ok := ProcessSavingsWithdraws(db);
    }

    method ClearEscrows() returns (ok: bool)
      requires Valid() && db.props.currentSupply <= db.props.virtualSupply
      modifies db`purses, db`props, db`escrows
      ensures db.median.Price? ==> ok
      ensures ok ==>
        && Valid() && EscrowsExpire(old(Current()), Current()) && db.props.currentSupply <= db.props.virtualSupply
    {
      hide Database.Valid, Forum.Valid, M.Book, FundsOk, NullIdle, Past, S.AllReserved, S.AllSteady, S.Exact,
        S.DelegationsOk, S.RoutesCounted, P.RoutesFit, P.RoutesOk, V.Tally.Valid, SV.SharesOf, AllSettled, E.RefundBills, SameTerms, E.Expired;
      ok := E.ExpireEscrows(db);
    }

    lemma ImageFields()
      ensures Current().ledger.now == db.now && Current().staking.plans == stakes.plans && Current().staking.routes == stakes.routes
      ensures Current().ledger.median == db.median && Current().ledger.accounts == db.accounts && Current().ledger.funds == db.funds
      ensures Current().ledger.props == db.props && Current().ledger.stakes == db.stakes && Current().ledger.purses == db.purses
      ensures Current().posts.comments == forum.comments && Current().votes.proxy == tally.proxy && Current().votes.ballots == tally.ballots
    {
    }

    lemma InTime()
      requires Valid()
      ensures db.now < NEVER
    {
    }

    lemma FeedSound()
      requires Valid()
      ensures Sound(db.median)
    {
    }

    /** The first half of the pipeline: expirations, the feed, burning and minting, conversions. */
    method StartSweep(b: Block) returns (ok: bool, ghost s: Sweep)
      requires Valid() && db.now <= b.time && BlockOk(b)
      modifies db`now, db`median, db`props, db`purses, db`stakes, db`orders, db`funds, db`conversions, stakes`plans,
        stakes`expirations, 
        tally`vests, tally`total, tally`proxied, tally`witnesses
      ensures ok ==> Valid() && Begun(b, old(Current()), s) && Current() == s.converted
      ensures !ok ==> Unready(b, old(Current()))
    {
      hide *;
      ghost var i := Current();
      s := Sweep(i, i, i, i, i, i, i, i, i, i, []);
      BlockInTime(b);
      ImageFields();
      ok := ClearOrders(b.time);
      if !ok { NotReady(b, i); return; }
      s := s.(expired := Current());
      ClearDelegations();
      s := s.(returned := Current());
      FirstSteps(b, i, s);
      ImageFields();
      ok := TakeFeed(b);
      if !ok { NotReady(b, i); return; }
      s := s.(priced := Current());
      NextSteps(b, i, s);
      ImageFields();
      ok := BurnNullAccount();
      if !ok { NotReady(b, i); return; }
      s := s.(burned := Current());
      NextSteps(b, i, s);
      ImageFields();
      ok := GrowFunds(b);
      if !ok { NotReady(b, i); return; }
      s := s.(minted := Current());
      PayConversions();
      s := s.(converted := Current());
      HasBegun(b, i, s);
    }

    /** The pipeline after the transactions of a block, in the order of _apply_block. */
    method EndBlock(b: Block) returns (r: Verdict)
      requires Valid() && db.now <= b.time && BlockOk(b)
      modifies db, stakes, forum, tally
      ensures r.Accepted? ==>
        && Valid() && Swept(b, forum.authorCurve, old(Current()), Current())
        && db.props.currentSupply <= db.props.virtualSupply
      ensures r.Refused? ==> Hindered(b, forum.authorCurve, old(Current()))
      ensures r.Outside? ==> Overflows(b.time, old(Current()), forum.authorCurve)
      ensures r.Accepted? ==> Processable(b.time, old(Current()), forum.authorCurve)
    {
      hide *;
      ghost var i := Current();
      var ok;
      ghost var s;
      ok, s := StartSweep(b);
      if !ok {
        IsHindered(b, forum.authorCurve, i, s);
        return Refused;
      }
      StillProcessable(b, i, s, forum.authorCurve);
      LaterSteps(b, forum.authorCurve, i, s);
      ImageFields();
      ghost var start := s;
      r := PayComments();
      if !r.Accepted? {
        if r.Refused? {
          CommentsStop(b, forum.authorCurve, s);
          IsHindered(b, forum.authorCurve, i, s);
        }
        return;
      }
      r := FinishSweep(b, i, start);
      if r.Accepted? {
        CanProcess(b.time, i, forum.authorCurve);
      }
    }

    /** The second half: power-downs, savings, the supply again, and escrows. */
    method FinishSweep(b: Block, ghost i: Image, ghost start: Sweep) returns (r: Verdict)
      requires Valid() && BlockOk(b) && Begun(b, i, start) && CommentsPaid(forum.authorCurve, start.converted, Current())
      modifies db, stakes, forum, tally
      ensures !r.Outside? && (r.Refused? ==> Hindered(b, forum.authorCurve, i))
      ensures r.Accepted? ==>
        && Valid() && Swept(b, forum.authorCurve, i, Current()) && db.props.currentSupply <= db.props.virtualSupply
        && S.AllPayable(i.staking.plans, b.time)
    {
      hide *;
      ghost var s := start.(cashed := Current());
      StillBegun(b, i, start, s);
      LaterSteps(b, forum.authorCurve, i, s);
      StillProcessable(b, i, s, forum.authorCurve);
      ImageFields();
      ghost var books := SV.BooksOf(stakes);
      BooksIn(books);
      var ok;
      ghost var paid;
      ok, paid := PayPowerDowns();
      if !ok {
        PowerDownsStop(b, forum.authorCurve, i, s, books);
        IsHindered(b, forum.authorCurve, i, s);
        return Refused;
      }
      s := s.(poweredDown := Current(), paid := paid);
      StillBegun(b, i, start, s);
      LaterSteps(b, forum.authorCurve, i, s);
      ImageFields();
      ok := PaySavings();
      if !ok {
        NotReady(b, i);
        IsHindered(b, forum.authorCurve, i, s);
        return Refused;
      }
      s := s.(saved := Current());
      StillBegun(b, i, start, s);
      LaterSteps(b, forum.authorCurve, i, s);
      ImageFields();
      ok := RefreshSupply();
      if !ok {
        SupplyStops(b, forum.authorCurve, s);
        IsHindered(b, forum.authorCurve, i, s);
        return Refused;
      }
      s := s.(updated := Current());
      StillBegun(b, i, start, s);
      LaterSteps(b, forum.authorCurve, i, s);
      ImageFields();
      ok := ClearEscrows();
      if !ok {
        NotReady(b, i);
        IsHindered(b, forum.authorCurve, i, s);
        return Refused;
      }
      AllSteps(b, forum.authorCurve, i, s, Current());
      StepsClear(b, forum.authorCurve, i, s, Current());
      return Accepted;
    }

    lemma BooksIn(books: SV.Books)
      requires books == SV.BooksOf(stakes) && Valid()
      ensures var k := Current(); books == SV.Books(k.staking.plans, k.ledger.stakes, k.ledger.purses, k.ledger.props)
    {
    }

    /**
     A block is applied whole or not at all. An accepted one has a trace: every operation takes the image
     to the next one by its effect, and the end of the block sweeps the last one. Of a block that leaves
     the invariants the trace shows where: at an unbacked claim or at a cashout whose claims overflow.
     */
    method ApplyBlock(b: Block) returns (r: Verdict, ghost trace: seq<Image>)
      requires Valid() && BlockOk(b)
      modifies db, stakes, forum, tally
      ensures Valid() && BlockOutcome(b, forum.curve, forum.authorCurve, old(Current()), trace, Current(), r)
    {
      hide Valid, WellFormed, ImageOk, Effect, Swept, NothingDue, Unbacked, Overflows, Processable, Admissible,
        Hindered;
      var before := Current();
      ValidIsImageOk();
      r := if db.now < b.time then Accepted else Refused;
      trace := [before];
      var i := 0;
      while r.Accepted? && i < |b.operations|
        invariant 0 <= i <= |b.operations|
        invariant r.Accepted? ==> Valid() && db.now == before.ledger.now < b.time
        invariant trace != [] && trace[0] == before && Traced(b.operations, forum.curve, trace)
        invariant r.Accepted? ==> |trace| == i + 1 && trace[i] == Current()
        invariant r.Outside? ==> Leaves(b, trace, forum.authorCurve)
        invariant r.Refused? ==> b.time <= before.ledger.now || Fails(b, trace, forum.authorCurve)
      {
        if !WellFormed(b.operations[i], db.now, db.accounts) {
          r := Refused;
        } else {
          r := Apply(b.operations[i]);
          if r.Accepted? {
            trace := trace + [Current()];
          }
        }
        i := i + 1;
      }
      if r.Accepted? {
        r := EndBlock(b);
        if r.Accepted? {
          SweptClears(b, forum.authorCurve, trace[|b.operations|], Current());
          SweptLeavesNothing(b, trace[|b.operations|], Current());
        }
      }
      if !r.Accepted? {
        Restore(before);
        ValidIsImageOk();
      }
    }

    /**
     Any run of blocks keeps every invariant: it stops only before a block that leaves them, and then that
     block is the n-th. Accepted blocks leave the virtual supply at least the STEEM supply.
     */
    method Run(blocks: seq<Block>) returns (n: nat)
      requires Valid() && forall i :: 0 <= i < |blocks| ==> BlockOk(blocks[i])
      modifies db, stakes, forum, tally
      ensures Valid() && old(db.now) <= db.now && n <= |blocks|
      ensures n < |blocks| ==> exists trace :: Stops(blocks[n], forum.curve, forum.authorCurve, Current(), trace)
      ensures old(db.props.currentSupply <= db.props.virtualSupply) ==> db.props.currentSupply <= db.props.virtualSupply
    {
      hide Valid, BlockOk, BlockOutcome, Stops;
      n := 0;
      while n < |blocks|
        invariant Valid() && old(db.now) <= db.now && n <= |blocks|
        invariant old(db.props.currentSupply <= db.props.virtualSupply) ==> db.props.currentSupply <= db.props.virtualSupply
      {
        ghost var here := Current();
        var r, trace := ApplyBlock(blocks[n]);
        OutcomeMeans(blocks[n], forum.curve, forum.authorCurve, here, trace, Current(), r);
        if r.Outside? {
          return;
        }
        n := n + 1;
      }
    }

    /**
     A power-down over a run of accepted blocks no more than a week apart, with any operations but another
     request of the same account: one rate is paid for every week that has come due, neither earlier nor
     later, until exactly the request is paid.
     */
    method PowerDown(blocks: seq<Block>, a: Account) returns (ok: bool)
      requires Valid() && (forall i :: 0 <= i < |blocks| ==> BlockOk(blocks[i]) && Undisturbed(blocks[i], a))
      requires a in stakes.plans && 0 <= stakes.plans[a].toWithdraw && db.now < stakes.plans[a].next
      modifies db, stakes, forum, tally
      ensures Valid() && a in stakes.plans
      ensures var p, q := old(stakes.plans)[a], stakes.plans[a];
        var due := P.WeeksDue(p.next, db.now) * p.rate;
        && q.toWithdraw == p.toWithdraw && q.withdrawn == p.withdrawn + Min(P.Remaining(p), due)
        && (q.rate == 0 <==> P.Remaining(p) <= due)
      ensures old(db.now) <= db.now
    {
      hide Valid, BlockOk, BlockOutcome, Finishes, Paid, OnTime, Undisturbed, P.Steady;
      ghost var p := stakes.plans[a];
      ok := true;
      PlanSteady(a);
      PaysOnTime(p, db.now);
      for i := 0 to |blocks|
        invariant Valid() && a in stakes.plans && OnTime(p, stakes.plans[a], db.now) && stakes.plans[a].toWithdraw == p.toWithdraw
        invariant old(db.now) <= db.now
      {
        ghost var here, was := Current(), stakes.plans[a];
        PlanSteady(a);
        PaidByTheWeek(p, was, db.now);
        if db.now + P.WITHDRAW_INTERVAL_SECONDS < blocks[i].time {
          return false;
        }
        var r, trace := ApplyBlock(blocks[i]);
        OutcomeMeans(blocks[i], forum.curve, forum.authorCurve, here, trace, Current(), r);
        if !r.Accepted? {
          return false;
        }
        BlockPays(blocks[i], forum.curve, forum.authorCurve, here, trace, Current(), a);
        StillOnTime(p, was, stakes.plans[a], here.ledger.now, db.now);
      }
      PlanSteady(a);
      PaidByTheWeek(p, stakes.plans[a], db.now);
    }

    /**
     From the request on: a thirteenth of it, rounded down, or one share, every week. A request of thirteen
     shares or more is never complete before the thirteenth week and always after the twenty-fifth.
     */
    method RequestPowerDown(a: Account, request: int, fee: int, blocks: seq<Block>) returns (asked: bool, ok: bool)
      requires Valid() && 0 < request && WellFormed(Withdraw(a, request, fee), db.now, db.accounts)
      requires forall i :: 0 <= i < |blocks| ==> BlockOk(blocks[i]) && Undisturbed(blocks[i], a)
      modifies db, stakes, forum, tally
      ensures Valid() && (asked ==> a in stakes.plans && stakes.plans[a].toWithdraw == request)
      ensures asked ==> var q, weeks := stakes.plans[a], (db.now - old(db.now)) / P.WITHDRAW_INTERVAL_SECONDS;
        && q.withdrawn == Min(request, weeks * Max(request / 13, 1)) && (q.rate == 0 <==> q.withdrawn == request)
        && (13 <= request ==> (q.rate == 0 ==> 13 <= weeks) && (25 <= weeks ==> q.rate == 0))
    {
      hide Valid, BlockOk, Undisturbed, WellFormed, Effect, P.RateFor, P.WeeksDue;
      ghost var here := Current();
      var r := Push(Withdraw(a, request, fee));
      asked := r.Accepted?;
      if !asked {
        return false, false;
      }
      RequestMade(a, request, fee, forum.curve, here, Current());
      ghost var p := stakes.plans[a];
      ok := PowerDown(blocks, a);
      P.RateIsThirteenth(request);
      P.WeeksSince(old(db.now), db.now);
      if 13 <= request {
        P.ThirteenWeeks(request, P.WeeksDue(p.next, db.now));
        P.MoreIsEnough(request, p.rate, 25, P.WeeksDue(p.next, db.now));
      }
    }

    lemma PlanSteady(a: Account)
      requires Valid() && a in stakes.plans
      ensures P.Steady(stakes.plans[a])
    {
    }
  }

  lemma {:induction false} FundTotalNonNegative(funds: seq<Fund>)
    requires FundsOk(funds)
    ensures 0 <= FundTotal(funds)
  {
    if funds != [] {
      assert FundOk(funds[0]);
      assert forall i :: 0 <= i < |funds[1..]| ==> funds[1..][i] == funds[i + 1];
      FundTotalNonNegative(funds[1..]);
    }
  }

  lemma NullIsAccount(plans: map<Account, P.Plan>, accounts: set<Account>)
    requires NullIdle(plans) && plans.Keys == accounts
    ensures NULL_ACCOUNT in accounts
  {
  }

  /** The null account has nothing lent or promised, so all of its shares may go. */
  lemma BurnKeepsReserved(plans: map<Account, P.Plan>, was: map<Account, Stake>, now: map<Account, Stake>)
    requires NullIdle(plans) && S.AllReserved(plans, was) && now.Keys == was.Keys && NULL_ACCOUNT in now && now[NULL_ACCOUNT].vests == 0
    requires forall b :: b in now && b != NULL_ACCOUNT ==> now[b] == was[b]
    ensures S.AllReserved(plans, now)
  {
  }

  lemma StillIdle(was: map<Account, P.Plan>, now: map<Account, P.Plan>, xs: P.Expirations, due: set<int>)
    requires NullIdle(was) && S.AllSteady(now) && S.SharesReturned(was, now, xs, due) && forall i :: i in xs ==> 0 <= xs[i].vests
    ensures NullIdle(now)
  {
    hide Sum;
    S.ReturnedIsLess(was, now, xs, due);
    assert P.Steady(now[NULL_ACCOUNT]);
  }

  lemma OnlyNull(purses: map<Account, Purse>, after: map<Account, Purse>, was: map<Account, Stake>,
                 now: map<Account, Stake>)
    requires after.Keys == purses.Keys && now.Keys == was.Keys && NULL_ACCOUNT in after && NULL_ACCOUNT in now
    requires forall b :: b in after && b != NULL_ACCOUNT ==> b in now && after[b] == purses[b] && now[b] == was[b]
    requires after.Keys == now.Keys
    ensures after == purses[NULL_ACCOUNT := after[NULL_ACCOUNT]] && now == was[NULL_ACCOUNT := now[NULL_ACCOUNT]]
  {
    var p, q := purses[NULL_ACCOUNT := after[NULL_ACCOUNT]], was[NULL_ACCOUNT := now[NULL_ACCOUNT]];
    forall b | b in p ensures after[b] == p[b] {}
    forall b | b in q ensures now[b] == q[b] {
      assert b in after;
    }
  }

  lemma MintedOne(was: map<Account, Stake>, now: map<Account, Stake>, b: Block, funds: seq<Fund>, after: seq<Fund>,
                  p: Props, q: Props)
    requires I.Minted(funds, after, p, q, was, now, b.head, b.producer, b.weight, b.factor)
    ensures b.producer in was && b.producer in now
    ensures now == was[b.producer := was[b.producer].(vests := now[b.producer].vests)]
  {
    hide SharesFor, I.ProducerPay, I.VestingPart, FundTotal;
  }

  lemma PaidStaysPast(was: map<int, Comment>, now: map<int, Comment>, time: int)
    requires Past(was, time) && Paying(was, now, {}, DueComments(was, time), time)
    ensures Past(now, time)
  {
    forall c | c in now ensures now[c].created <= time {
      assert now[c].created == was[c].created;
    }
  }

  /** Everything Chain.Valid says, over values. */
  ghost predicate ImageOk(i: Image, curve: Curve)
    requires CurveOk(curve)
  {
    var l := i.ledger;
    && l.purses.Keys == l.accounts && l.stakes.Keys == l.accounts && i.staking.plans.Keys == l.accounts
    && Sound(l.median) && l.now < NEVER
    && OrdersLinked(l.orders, l.accounts, l.nextOrder) && EscrowsLinked(l.escrows, l.accounts)
    && ConversionsLinked(l.conversions, l.accounts) && WithdrawalsLinked(l.withdrawals, l.accounts)
    && PursesOk(l.purses) && StakesOk(l.stakes) && OrdersOk(l.orders) && EscrowsOk(l.escrows)
    && ConversionsOk(l.conversions) && WithdrawalsOk(l.withdrawals) && PropsOk(l.props)
    && l.props.currentSupply == PurseSteem(l.purses) + OrderSteem(l.orders) + EscrowSteem(l.escrows) + WithdrawalSteem(l.withdrawals)
                              + FundTotal(l.funds) + l.props.vestingFund + l.props.rewardFund + l.props.pendingSteem
    && l.props.sbdSupply == PurseSbd(l.purses) + OrderSbd(l.orders) + EscrowSbd(l.escrows) + WithdrawalSbd(l.withdrawals) + ConversionSbd(l.conversions)
    && l.props.vestingShares == StakeVests(l.stakes)
    && l.props.pendingShares == StakeRewardVests(l.stakes)
    && l.props.pendingSteem == StakeRewardSteem(l.stakes)
    && S.AllReserved(i.staking.plans, l.stakes) && S.AllSteady(i.staking.plans) && NullIdle(i.staking.plans)
    && S.Exact(i.staking.plans, i.staking.delegations, i.staking.expirations)
    && S.DelegationsOk(i.staking.delegations, i.staking.expirations, l.accounts, i.staking.nextExpiration)
    && P.RoutesOk(i.staking.routes) && P.RoutesFit(i.staking.routes) && PD.Reaches(i.staking.routes, l.accounts)
    && S.RoutesCounted(i.staking.plans, i.staking.routes)
    && VotesOk(i.posts.votes, l.accounts) && Weighed(i.posts.comments, i.posts.votes)
    && AllUnderCurve(i.posts.comments, curve)
    && CommentsOk(i.posts.comments, l.accounts) && PaidOnce(i.posts.comments, i.posts.payouts)
    && PowersOk(i.posts.voters) && Past(i.posts.comments, l.now)
    && M.Book(l.orders) && FundsOk(l.funds)
    && var v := i.votes;
       V.StateOk(v.vests, v.proxy, v.proxied, v.ballots, v.declined, v.witnesses, v.clock, v.total) && v.vests == SV.SharesOf(l.stakes) && v.declined <= l.accounts
  }

  lemma MoreAccounts(comments: map<int, Comment>, votes: Votes, was: set<Account>, now: set<Account>)
    requires VotesOk(votes, was) && CommentsOk(comments, was) && was <= now
    ensures VotesOk(votes, now) && CommentsOk(comments, now)
  {
  }


  /** Any run of blocks from genesis: every invariant, the vote equation included, holds wherever it stops. */
  method FromGenesis(supply: nat, time: int, pool: Fund, curation: Curve, author: Curve, blocks: seq<Block>)
    returns (chain: Chain, n: nat)
    requires time < NEVER && pool.balance == 0 && FundOk(pool) && CurveOk(curation) && CurveOk(author)
    requires forall i :: 0 <= i < |blocks| ==> BlockOk(blocks[i])
    ensures fresh(chain) && chain.Valid() && time <= chain.db.now && n <= |blocks|
    ensures n < |blocks| ==> exists trace :: Stops(blocks[n], curation, author, chain.Current(), trace)
    ensures chain.db.props.currentSupply <= chain.db.props.virtualSupply
    ensures chain.tally.total == chain.db.props.vestingShares == V.StoredTotal(chain.tally)
  {
    hide *;
    chain := new Chain(supply, time, pool, curation, author);
    n := chain.Run(blocks);
    chain.VotesAddUp();
  }
}
