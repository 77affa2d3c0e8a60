/** The operations of the chain, the state an undo session saves, and the exact effect of each operation on it. */
module Operations {
  import opened Basics
  import opened Sums
  import opened Assets
  import opened Division
  import opened Ledger
  import opened Transfers
  import opened Claims
  import opened Curves
  import opened Curation
  import opened Rewards
  import E = Escrows
  import M = Market
  import S = Staking
  import P = PowerPlans
  import PD = PowerDown
  import I = Inflation
  import V = VoteTally
  import SV = StakeVotes
  import Proxies
  import Witnesses

  datatype Operation =
    | TransferOp(from: Account, to: Account, amount: Asset)
    | ToVesting(from: Account, to: Account, steem: int)
    | ToSavings(from: Account, to: Account, amount: Asset)
    | FromSavings(from: Account, to: Account, id: int, amount: Asset)
    | CancelSavings(from: Account, id: int)
    | ConvertOp(owner: Account, id: int, sbd: int)
    | Claim(owner: Account, steem: int, sbd: int, vests: int)
    | OpenEscrow(from: Account, to: Account, agent: Account, id: int, steem: int, sbd: int, agentFee: Asset, deadline: int, expiration: int)
    | ApproveEscrow(from: Account, id: int, to: Account, agent: Account, who: Account, approve: bool)
    | DisputeEscrow(from: Account, id: int, to: Account, agent: Account)
    | ReleaseEscrow(from: Account, id: int, to: Account, agent: Account, who: Account, receiver: Account, steem: int, sbd: int)
    | CreateOrder(order: Order, fillOrKill: bool)
    | CancelOrder(owner: Account, id: int)
    | Withdraw(owner: Account, vests: int, creationFee: int)
    | SetRoute(from: Account, to: Account, percent: int, autoVest: bool)
    | Delegate(from: Account, to: Account, vests: int, creationFee: int)
    | NewAccount(creator: Account, name: Account, fee: int, minimum: int)
    | NewAccountWithDelegation(creator: Account, name: Account, fee: int, vests: int, creationFee: int)
    | ProxyOp(account: Account, target: Option<Account>)
    | ApproveOp(account: Account, candidate: Witness, approve: bool)
    | NewWitness(candidate: Witness, keyed: bool)
    | Post(comment: int, body: Comment)
    | VoteOp(comment: int, voter: Account, percent: int, reserve: nat, curationPercent: int)

  /** Everything the operations above can change. */
  datatype LedgerImage = LedgerImage(now: int, median: Price, accounts: set<Account>, props: Props, purses: map<Account, Purse>, stakes: map<Account, Stake>,
                                     orders: map<int, Order>, nextOrder: int, escrows: map<(Account, int), Escrow>,
                                     conversions: map<(Account, int), Conversion>, withdrawals: map<(Account, int), Withdrawal>, funds: seq<Fund>)
  datatype StakeImage = StakeImage(plans: map<Account, P.Plan>, routes: P.Routes, delegations: P.Delegations, expirations: P.Expirations, nextExpiration: int)
  datatype ForumImage = ForumImage(comments: map<int, Comment>, votes: Votes, payouts: seq<int>, voters: map<Account, Voter>)
  datatype TallyImage = TallyImage(vests: map<Account, int>, proxy: Proxies.ProxyMap, proxied: map<Account, seq<int>>, ballots: map<Account, set<Witness>>,
                                   declined: set<Account>, witnesses: map<Witness, Witnesses.Candidate>, clock: int, total: int)
  datatype Image = Image(ledger: LedgerImage, staking: StakeImage, posts: ForumImage, votes: TallyImage)

  function LedgerNow(db: Database): LedgerImage
    reads db
  {
    LedgerImage(db.now, db.median, db.accounts, db.props, db.purses, db.stakes, db.orders, db.nextOrder, db.escrows, db.conversions, db.withdrawals, db.funds)
  }

  function StakesNow(x: S.Stakes): StakeImage
    reads x
  {
    StakeImage(x.plans, x.routes, x.delegations, x.expirations, x.nextExpiration)
  }

  function ForumNow(x: Forum): ForumImage
    reads x
  {
    ForumImage(x.comments, x.votes, x.payouts, x.voters)
  }

  function TallyNow(x: V.Tally): TallyImage
    reads x
  {
    TallyImage(x.vests, x.proxy, x.proxied, x.ballots, x.declined, x.witnesses, x.clock, x.total)
  }

  method RestoreTally(x: V.Tally, i: TallyImage)
    modifies x
    ensures TallyNow(x) == i
  {
    x.vests, x.proxy, x.proxied, x.ballots := i.vests, i.proxy, i.proxied, i.ballots;
    x.declined, x.witnesses, x.clock, x.total := i.declined, i.witnesses, i.clock, i.total;
  }

  method RestoreLedger(db: Database, i: LedgerImage)
    modifies db
    ensures LedgerNow(db) == i
  {
    db.now, db.median, db.accounts, db.props, db.purses, db.stakes := i.now, i.median, i.accounts, i.props, i.purses, i.stakes;
    db.orders, db.nextOrder, db.escrows, db.conversions, db.withdrawals, db.funds := i.orders, i.nextOrder, i.escrows, i.conversions, i.withdrawals, i.funds;
  }

  method RestoreStakes(x: S.Stakes, i: StakeImage)
    modifies x
    ensures StakesNow(x) == i
  {
    x.plans, x.routes, x.delegations, x.expirations, x.nextExpiration := i.plans, i.routes, i.delegations, i.expirations, i.nextExpiration;
  }

  method RestoreForum(x: Forum, i: ForumImage)
    modifies x
    ensures ForumNow(x) == i
  {
    x.comments, x.votes, x.payouts, x.voters := i.comments, i.votes, i.payouts, i.voters;
  }

  /** What validate() and the signature checks guarantee: sane amounts, and the null account never signs. */
  predicate WellFormed(op: Operation, now: int, accounts: set<Account>)
  {
    match op
    case TransferOp(_, _, x) => 0 < x.amount && x.symbol != VESTS
    case ToVesting(_, _, steem) => 0 < steem
    case ToSavings(_, _, x) => 0 < x.amount && x.symbol != VESTS
    case FromSavings(_, _, _, x) => 0 < x.amount && x.symbol != VESTS
    case CancelSavings(_, _) => true
    case ConvertOp(_, _, sbd) => 0 < sbd
    case Claim(_, steem, sbd, vests) => 0 <= steem && 0 <= sbd && 0 <= vests
    case OpenEscrow(_, _, _, _, steem, sbd, fee, _, _) => 0 <= steem && 0 <= sbd && 0 <= fee.amount && fee.symbol != VESTS
    case ApproveEscrow(_, _, to, agent, who, _) => who == to || who == agent
    case DisputeEscrow(_, _, _, _) => true
    case ReleaseEscrow(_, _, _, _, _, _, steem, sbd) => 0 <= steem && 0 <= sbd
    case CreateOrder(_, _) => true
    case CancelOrder(_, _) => true
    case Withdraw(a, _, _) => a != NULL_ACCOUNT
    case SetRoute(_, _, percent, _) => 0 <= percent <= HUNDRED_PERCENT
    case Delegate(from, to, vests, _) => from != NULL_ACCOUNT && from != to && 0 <= vests
    case NewAccount(_, _, fee, _) => 0 <= fee
    case NewAccountWithDelegation(a, b, fee, vests, _) => a != NULL_ACCOUNT && a != b && 0 <= fee && 0 <= vests
    case ProxyOp(a, n) => a != NULL_ACCOUNT && n != Some(a)
    case ApproveOp(a, _, _) => a != NULL_ACCOUNT
    case NewWitness(_, _) => true
    case Post(_, x) => CommentOk(x, accounts) && x.netRshares == x.absRshares == x.voteRshares == x.totalWeight == x.lastPayout == 0 && Unpaid(x) && x.created <= now
    case VoteOp(_, _, percent, _, _) => -HUNDRED_PERCENT <= percent <= HUNDRED_PERCENT
  }

  // ----- what each operation does -----

  /**
   The whole effect of an accepted operation on the chain's image: which records it writes, with what,
   and that everything else stays. Only the supply counters in `props` are left to the invariant.
   */
  ghost predicate Effect(op: Operation, curve: Curve, i: Image, j: Image)
  {
    if MovesBalance(op) then j == i.(ledger := j.ledger) && BalanceEffect(op, i.ledger, j.ledger)
    else if MakesShares(op) then j == i.(ledger := j.ledger, votes := j.votes) && VestingEffect(op, i.ledger, j.ledger) && SameDecisions(i.votes, j.votes)
    else if OnEscrow(op) then j == i.(ledger := j.ledger) && EscrowEffect(op, i.ledger, j.ledger)
    else if OnMarket(op) then j == i.(ledger := j.ledger) && MarketEffect(op, i.ledger, j.ledger)
    else if OnStake(op) then j == i.(staking := j.staking) && StakeEffect(op, i.ledger.now, i.staking, j.staking)
    else if MakesAccount(op) then
      && j == i.(ledger := j.ledger, staking := j.staking, votes := j.votes)
      && AccountEffect(op, i.ledger, j.ledger, i.staking, j.staking)
      && SameDecisions(i.votes.(ballots := i.votes.ballots[op.name := {}]), j.votes)
    else if OnVotes(op) then j == i.(votes := j.votes) && VotesEffect(op, i.votes, j.votes)
    else j == i.(posts := j.posts) && ForumEffect(op, curve, i.ledger.now, Effective(op, i.ledger.stakes, i.staking.plans), i.posts, j.posts)
  }

  // ----- when an operation is accepted -----

  /** The conditions of the evaluators. With a price feed an operation is accepted exactly under them. */
  ghost predicate Admissible(op: Operation, i: Image)
  {
    if MovesBalance(op) then BalanceAdmissible(op, i.ledger)
    else if MakesShares(op) then SharesAdmissible(op, i.ledger)
    else if OnEscrow(op) then EscrowAdmissible(op, i.ledger)
    else if OnMarket(op) then MarketAdmissible(op, i.ledger)
    else if OnStake(op) then StakeAdmissible(op, i.ledger, i.staking)
    else if MakesAccount(op) then AccountAdmissible(op, i.ledger, i.staking)
    else if OnVotes(op) then VotesAdmissible(op, i.votes)
    else ForumAdmissible(op, i.ledger, i.staking, i.posts)
  }

  ghost predicate BalanceAdmissible(op: Operation, l: LedgerImage)
    requires MovesBalance(op)
  {
    match op
    case TransferOp(from, to, x) => from in l.purses && to in l.purses && x.amount <= Liquid(l.purses[from], x.symbol)
    case ToSavings(from, to, x) => from in l.purses && to in l.purses && x.amount <= Liquid(l.purses[from], x.symbol)
    case FromSavings(from, to, id, x) =>
      && from in l.purses && to in l.purses && x.amount <= Saved(l.purses[from], x.symbol)
      && l.purses[from].savingsRequests < SAVINGS_REQUEST_LIMIT && (from, id) !in l.withdrawals
    case CancelSavings(from, id) => (from, id) in l.withdrawals
    case ConvertOp(owner, id, sbd) => owner in l.purses && sbd <= l.purses[owner].sbd.balance && l.median.Price? && (owner, id) !in l.conversions
  }

  ghost predicate SharesAdmissible(op: Operation, l: LedgerImage)
    requires MakesShares(op)
  {
    match op
    case ToVesting(from, to, steem) => from in l.purses && to in l.purses && steem <= l.purses[from].steem
    case Claim(a, steem, sbd, vests) =>
      && a in l.purses && a in l.stakes && steem <= l.purses[a].rewardSteem && sbd <= l.purses[a].rewardSbd
      && vests <= l.stakes[a].rewardVests
  }

  ghost predicate EscrowAdmissible(op: Operation, l: LedgerImage)
    requires OnEscrow(op)
  {
    match op
    case OpenEscrow(from, to, agent, id, steem, sbd, fee, deadline, expiration) =>
      && from in l.purses && to in l.purses && agent in l.purses && (from, id) !in l.escrows && l.now < deadline
      && l.now < expiration
      && steem + AmountIn(fee, STEEM) <= l.purses[from].steem && sbd + AmountIn(fee, SBD) <= l.purses[from].sbd.balance
    case ApproveEscrow(from, id, to, agent, who, _) => (from, id) in l.escrows && E.Approvable(l.escrows[(from, id)], to, agent, who, l.now)
    case DisputeEscrow(from, id, to, agent) =>
      && (from, id) in l.escrows
      && var e := l.escrows[(from, id)]; l.now < e.expiration && e.toApproved && e.agentApproved && !e.disputed && e.to == to && e.agent == agent
    case ReleaseEscrow(from, id, to, agent, who, receiver, steem, sbd) =>
      && (from, id) in l.escrows
      && var e := l.escrows[(from, id)];
         steem <= e.steem && sbd <= e.sbd && e.to == to && e.agent == agent && E.MayRelease(e, from, who, receiver, l.now)
  }

  ghost predicate MarketAdmissible(op: Operation, l: LedgerImage)
    requires OnMarket(op)
  {
    match op
    case CreateOrder(o, fillOrKill) =>
      && M.WellFormed(o) && l.now < o.expiration && !M.Taken(l.orders, o.seller, o.orderid)
      && o.seller in l.purses && o.forSale <= Liquid(l.purses[o.seller], M.SoldSymbol(o))
      && (fillOrKill ==> M.MatchedAway(l.orders[l.nextOrder := o], l.nextOrder))
    case CancelOrder(owner, id) => M.Taken(l.orders, owner, id % 0x1_0000)
  }

  ghost predicate StakeAdmissible(op: Operation, l: LedgerImage, s: StakeImage)
    requires OnStake(op)
  {
    match op
    case Withdraw(a, vests, fee) => a in s.plans && a in l.stakes && S.MayPowerDown(s.plans[a], l.stakes[a].vests, vests, SharesFor(fee, l.props))
    case SetRoute(from, to, percent, autoVest) =>
      && S.RouteAllowed(s.plans, s.routes, from, to, percent)
      && P.RouteTotal(S.Rerouted(s.routes, (from, to), P.Route(percent, autoVest)), from) <= HUNDRED_PERCENT
    case Delegate(from, to, vests, fee) =>
      && from in s.plans && to in s.plans && from in l.stakes
      && S.MayDelegate(s.delegations, (from, to), vests, S.Available(s.plans[from], l.stakes[from].vests), SharesFor(10 * fee, l.props), SharesFor(fee, l.props))
  }

  ghost predicate AccountAdmissible(op: Operation, l: LedgerImage, s: StakeImage)
    requires MakesAccount(op)
  {
    match op
    case NewAccount(creator, a, fee, minimum) => creator in l.purses && fee <= l.purses[creator].steem && minimum <= fee && a !in l.accounts
    case NewAccountWithDelegation(creator, a, fee, vests, creationFee) =>
      && creator in s.plans && creator in l.stakes && creator in l.purses && fee <= l.purses[creator].steem
      && creationFee <= fee && a !in l.accounts
      && vests <= S.Available(s.plans[creator], l.stakes[creator].vests)
      && SharesFor(150 * creationFee, l.props) <= SharesFor(5 * fee, l.props) + vests
  }

  ghost predicate VotesAdmissible(op: Operation, v: TallyImage)
    requires OnVotes(op)
  {
    match op
    case ProxyOp(a, n) =>
      && a in v.vests && a !in v.declined && (if a in v.proxy then Some(v.proxy[a]) else None) != n
      && (n.Some? ==> n.value in v.vests && V.ChainAccepted(v.proxy, a, n.value))
    case ApproveOp(a, w, approve) =>
      && a in v.vests && a in v.ballots && a !in v.proxy && w in v.witnesses
      && (approve ==> a !in v.declined && w !in v.ballots[a] && |v.ballots[a]| < V.MAX_ACCOUNT_WITNESS_VOTES) && (!approve ==> w in v.ballots[a])
    case NewWitness(w, _) => w !in v.witnesses
  }

  ghost predicate ForumAdmissible(op: Operation, l: LedgerImage, s: StakeImage, f: ForumImage)
    requires OnForum(op)
  {
    match op
    case Post(c, _) => c !in f.comments && forall k :: k in f.votes ==> k.0 != c
    case VoteOp(c, voter, percent, reserve, _) =>
      && c in f.comments && voter in l.accounts
      && var v, shares := VoterAt(f.voters, voter), Effective(op, l.stakes, s.plans);
         && v.canVote && (Unpaid(f.comments[c]) ==> HasPower(v, shares, reserve, l.now))
         && MayCast(f.comments[c], VoteAt(f.votes, (c, voter)), percent, Strength(v, percent, shares, reserve, l.now), l.now)
  }

  predicate MovesBalance(op: Operation) { op.TransferOp? || op.ToSavings? || op.FromSavings? || op.CancelSavings? || op.ConvertOp? }
  predicate MakesShares(op: Operation) { op.ToVesting? || op.Claim? }
  predicate OnEscrow(op: Operation) { op.OpenEscrow? || op.ApproveEscrow? || op.DisputeEscrow? || op.ReleaseEscrow? }
  predicate OnMarket(op: Operation) { op.CreateOrder? || op.CancelOrder? }
  predicate OnStake(op: Operation) { op.Withdraw? || op.SetRoute? || op.Delegate? }
  predicate MakesAccount(op: Operation) { op.NewAccount? || op.NewAccountWithDelegation? }
  predicate OnVotes(op: Operation) { op.ProxyOp? || op.ApproveOp? || op.NewWitness? }
  predicate OnForum(op: Operation) { op.Post? || op.VoteOp? }

  /** effective_vesting_shares of the voter. */
  function Effective(op: Operation, owned: map<Account, Stake>, plans: map<Account, P.Plan>): int
  {
    if op.VoteOp? && op.voter in owned && op.voter in plans
    then owned[op.voter].vests - plans[op.voter].delegated + plans[op.voter].received
    else 0
  }

  ghost predicate ForumEffect(op: Operation, curve: Curve, now: int, shares: int, f: ForumImage, g: ForumImage)
    requires OnForum(op)
  {
    match op
    case Post(c, x) => c !in f.comments && g == f.(comments := f.comments[c := x])
    case VoteOp(c, voter, percent, reserve, curationPercent) =>
      && c in f.comments && CurveOk(curve) && 0 <= f.comments[c].voteRshares
      && var v := VoterAt(f.voters, voter);
         var cast := Cast(f.comments[c], VoteAt(f.votes, (c, voter)), (c, voter), percent,
                          Strength(v, percent, shares, reserve, now), curationPercent, curve, now);
         g == f.(votes := f.votes[(c, voter) := cast.0], comments := f.comments[c := cast.1],
                 voters := if Unpaid(f.comments[c]) then f.voters[voter := Spent(v, percent, reserve, now)] else f.voters)
  }

  /** Stake may have moved, but no proxy, ballot or right did. */
  ghost predicate SameDecisions(v: TallyImage, w: TallyImage)
  {
    && w.proxy == v.proxy && w.ballots == v.ballots && w.declined == v.declined && w.witnesses.Keys == v.witnesses.Keys
    && w.clock == v.clock
    && Witnesses.SameProgress(v.witnesses, w.witnesses, v.clock)
  }

  ghost function PollIn(v: TallyImage): V.Poll
  {
    V.Poll(v.vests, v.proxy, v.ballots, v.declined, v.witnesses.Keys)
  }

  /** Voting operations change the decisions exactly as the recount specification says. */
  ghost predicate VotesEffect(op: Operation, v: TallyImage, w: TallyImage)
    requires OnVotes(op)
  {
    PollIn(w) == match op
      case ProxyOp(a, n) => V.After(PollIn(v), V.SetProxyStep(a, n))
      case ApproveOp(a, x, approve) => V.After(PollIn(v), V.BallotStep(a, x, approve))
      case NewWitness(x, keyed) => V.After(PollIn(v), V.CreateWitnessStep(x, keyed))
  }

  ghost predicate BalanceEffect(op: Operation, l: LedgerImage, m: LedgerImage)
    requires MovesBalance(op)
  {
    var r := l.props.interestRate;
    match op
    case TransferOp(from, to, x) =>
      from in l.purses && to in l.purses && m == l.(props := m.props, purses := Sent(l.purses, from, to, x, l.now, r))
    case ToSavings(from, to, x) =>
      from in l.purses && to in l.purses && m == l.(props := m.props, purses := Stored(l.purses, from, to, x, l.now, r))
    case FromSavings(from, to, id, x) =>
      && from in l.purses && (from, id) !in l.withdrawals
      && m == l.(props := m.props, purses := Requested(l.purses, from, x.Negate(), 1, l.now, r),
                 withdrawals := l.withdrawals[(from, id) := Withdrawal(to, x, l.now + SAVINGS_WITHDRAW_TIME)])
    case CancelSavings(from, id) =>
      && from in l.purses && (from, id) in l.withdrawals
      && m == l.(props := m.props, purses := Requested(l.purses, from, l.withdrawals[(from, id)].amount, -1, l.now, r), withdrawals := l.withdrawals - {(from, id)})
    case ConvertOp(owner, id, sbd) =>
      && owner in l.purses && (owner, id) !in l.conversions
      && m == l.(props := m.props, purses := l.purses[owner := Credited(l.purses[owner], Asset(-sbd, SBD), l.now, r)],
                 conversions := l.conversions[(owner, id) := Conversion(sbd, l.now + CONVERSION_DELAY)])
  }

  ghost predicate VestingEffect(op: Operation, l: LedgerImage, m: LedgerImage)
    requires MakesShares(op)
  {
    match op
    case ToVesting(from, to, steem) =>
      && from in l.purses && to in l.stakes
      && m == l.(props := m.props, purses := l.purses[from := l.purses[from].(steem := l.purses[from].steem - steem)],
                 stakes := l.stakes[to := l.stakes[to].(vests := l.stakes[to].vests + SharesFor(steem, l.props))])
    case Claim(a, steem, sbd, vests) =>
      && a in l.purses && a in l.stakes && 0 <= vests <= l.stakes[a].rewardVests
      && var p, s := l.purses[a].(rewardSteem := l.purses[a].rewardSteem - steem, rewardSbd := l.purses[a].rewardSbd - sbd), l.stakes[a];
         m == l.(props := m.props, purses := l.purses[a := CreditedBoth(p, steem, sbd, l.now, l.props.interestRate)],
                 stakes := l.stakes[a := Stake(s.vests + vests, s.rewardVests - vests, s.rewardVestSteem - ClaimedSteem(s, vests))])
  }

  ghost predicate EscrowEffect(op: Operation, l: LedgerImage, m: LedgerImage)
    requires OnEscrow(op)
  {
    var r := l.props.interestRate;
    match op
    case OpenEscrow(from, to, agent, id, steem, sbd, fee, deadline, expiration) =>
      && from in l.purses && (from, id) !in l.escrows
      && m == l.(props := m.props, escrows := l.escrows[(from, id) := Escrow(to, agent, deadline, expiration, steem, sbd, fee, false, false, false)],
                 purses := l.purses[from := CreditedBoth(l.purses[from], -steem - AmountIn(fee, STEEM), -sbd - AmountIn(fee, SBD), l.now, r)])
    case ApproveEscrow(from, id, to, agent, who, approve) =>
      && (from, id) in l.escrows && from in l.purses && agent in l.purses
      && var e := l.escrows[(from, id)];
         var f := e.(toApproved := e.toApproved || who == to, agentApproved := e.agentApproved || who == agent);
         if !approve then m == l.(props := m.props, escrows := l.escrows - {(from, id)}, purses := E.Returned(l.purses, from, e, l.now, r))
         else if !(f.toApproved && f.agentApproved) then m == l.(props := m.props, escrows := l.escrows[(from, id) := f])
         else m == l.(props := m.props, escrows := l.escrows[(from, id) := f.(fee := f.fee.(amount := 0))],
                      purses := l.purses[agent := Credited(l.purses[agent], e.fee, l.now, r)])
    case DisputeEscrow(from, id, to, agent) =>
      (from, id) in l.escrows && m == l.(escrows := l.escrows[(from, id) := l.escrows[(from, id)].(disputed := true)])
    case ReleaseEscrow(from, id, to, agent, who, receiver, steem, sbd) =>
      && (from, id) in l.escrows && receiver in l.purses
      && E.MayRelease(l.escrows[(from, id)], from, who, receiver, l.now)
      && var e := l.escrows[(from, id)];
         var left := e.(steem := e.steem - steem, sbd := e.sbd - sbd);
         m == l.(props := m.props, escrows := if left.steem == 0 && left.sbd == 0 then l.escrows - {(from, id)} else l.escrows[(from, id) := left],
                 purses := l.purses[receiver := CreditedBoth(l.purses[receiver], steem, sbd, l.now, r)])
  }

  ghost predicate MarketEffect(op: Operation, l: LedgerImage, m: LedgerImage)
    requires OnMarket(op)
  {
    match op
    case CreateOrder(o, fillOrKill) =>
      && m == l.(props := m.props, purses := m.purses, orders := m.orders, nextOrder := l.nextOrder + 1)
      && M.WellFormed(o) && M.BystandersKept(l.orders, m.orders, o.seller, l.purses, m.purses)
      && (fillOrKill ==> l.nextOrder !in m.orders)
      && var was := l.orders[l.nextOrder := o];
         M.MatchedTo(was, l.nextOrder, m.orders) && M.Prior(was, m.orders, l.nextOrder) && M.SameSideKept(was, m.orders, l.nextOrder)
    case CancelOrder(owner, id) =>
      exists k ::
        && k in l.orders && l.orders[k].seller == owner
        && M.Returned(m.purses, l.purses, l.orders[k], l.now, l.props.interestRate)
        && m == l.(props := m.props, purses := m.purses, orders := l.orders - {k})
  }

  ghost predicate StakeEffect(op: Operation, now: int, s: StakeImage, t: StakeImage)
    requires OnStake(op)
  {
    match op
    case Withdraw(a, vests, _) =>
      && a in s.plans
      && t == s.(plans := s.plans[a := S.PoweringDown(s.plans[a], vests, now)])
    case SetRoute(from, to, percent, autoVest) =>
      && from in s.plans && from in t.plans
      && t == s.(plans := s.plans[from := s.plans[from].(routes := t.plans[from].routes)], routes := S.Rerouted(s.routes, (from, to), P.Route(percent, autoVest)))
    case Delegate(from, to, vests, _) =>
      && S.Redelegated(s.plans, s.delegations, t.plans, t.delegations, (from, to), vests)
      && t == s.(plans := t.plans, delegations := t.delegations, nextExpiration := t.nextExpiration,
                 expirations := S.Returning(s.expirations, s.nextExpiration, s.delegations, (from, to), vests, now))
  }

  ghost predicate AccountEffect(op: Operation, l: LedgerImage, m: LedgerImage, s: StakeImage, t: StakeImage)
    requires MakesAccount(op)
  {
    && op.name !in l.accounts && op.name !in s.plans
    && Joined(l.purses, m.purses, l.stakes, m.stakes, op.creator, op.name, op.fee, SharesFor(op.fee, l.props))
    && m == l.(accounts := l.accounts + {op.name}, props := m.props, purses := m.purses, stakes := m.stakes)
    && match op
       case NewAccount(_, a, _, _) => t == s.(plans := s.plans[a := S.IDLE])
       case NewAccountWithDelegation(creator, a, _, vests, _) =>
         && creator in s.plans
         && var plans := s.plans[creator := s.plans[creator].(delegated := s.plans[creator].delegated + vests)][a := S.IDLE.(received := vests)];
            t == s.(plans := plans, delegations := if 0 < vests
                      then s.delegations[(creator, a) := P.Delegation(creator, a, vests, l.now + S.CREATE_DELEGATION_TIME)] else s.delegations)
  }

  /** A claim that leaves shares without STEEM: the first shares in circulation, rounded down to nothing. */
  ghost predicate Unbacked(op: Operation, l: LedgerImage)
  {
    op.Claim? && op.owner in l.stakes && 0 <= op.vests <= l.stakes[op.owner].rewardVests && !ClaimBacked(l.props, l.stakes[op.owner], op.vests)
  }

  /** The stakes after an operation that makes shares: one account's shares changed, by no less than nothing. */
  lemma VestingShares(op: Operation, l: LedgerImage, m: LedgerImage)
    requires MakesShares(op) && VestingEffect(op, l, m)
    ensures var a := if op.ToVesting? then op.to else op.owner;
      a in l.stakes && a in m.stakes && m.stakes.Keys == l.stakes.Keys
      && forall b :: b in l.stakes ==> m.stakes[b].vests == l.stakes[b].vests + if b == a then m.stakes[a].vests - l.stakes[a].vests else 0
  {
    hide SharesFor, ClaimedSteem, CreditedBoth;
  }

  lemma NewShares(op: Operation, l: LedgerImage, m: LedgerImage, s: StakeImage, t: StakeImage)
    requires MakesAccount(op) && AccountEffect(op, l, m, s, t)
    ensures op.name !in l.accounts && op.name in m.stakes && m.accounts == l.accounts + {op.name}
    ensures m.stakes == l.stakes[op.name := Stake(SharesFor(op.fee, l.props), 0, 0)]
  {
    hide SharesFor;
  }
}
