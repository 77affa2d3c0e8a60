/** Comments, the votes on them, and the weights that divide the curation reward. */
module Curation {
  import opened Basics
  import opened Sums
  import opened Assets
  import opened Division
  import opened Ledger
  import opened Curves

  /** STEEMIT_HARDFORK_0_6_REVERSE_AUCTION_TIME */
  const AUCTION_TIME: int := 1467295200 - 60 * 60 * 24 * 6
  /** STEEMIT_REVERSE_AUCTION_WINDOW_SECONDS */
  const AUCTION_WINDOW: int := 60 * 30
  const UPVOTE_LOCKOUT: int := 60 * 60 * 12
  const VOTE_DUST_THRESHOLD: int := 50000000
  const MAX_VOTE_CHANGES: int := 5

  datatype Beneficiary = Beneficiary(account: Account, weight: int)

  datatype Comment = Comment(author: Account, created: int, netRshares: int, absRshares: int, voteRshares: int, totalWeight: int,
                             cashoutTime: int, lastPayout: int, allowVotes: bool, allowCuration: bool,
                             rewardWeight: int, maxPayout: int, percentSbd: int, beneficiaries: seq<Beneficiary>)

  /** changes is -1 once the comment was paid out. */
  datatype Vote = Vote(comment: int, voter: Account, rshares: int, weight: int, percent: int, changes: int)

  type Votes = map<(int, Account), Vote>

  predicate Unpaid(c: Comment) { c.cashoutTime != NEVER }

  ghost function WeightOn(c: int): Vote -> int { (v: Vote) => if v.comment == c then v.weight else 0 }

  ghost function WeightOf(votes: Votes, c: int): int
  {
    SumMap(votes, WeightOn(c))
  }

  ghost predicate VotesOk(votes: Votes, accounts: set<Account>)
  {
    forall k :: k in votes ==> votes[k].comment == k.0 && votes[k].voter == k.1 && 0 <= votes[k].weight && k.1 in accounts
  }

  /** The vote weights of an unpaid comment fit its total weight. */
  ghost predicate Weighed(comments: map<int, Comment>, votes: Votes)
  {
    forall c :: c in comments && Unpaid(comments[c]) ==> WeightOf(votes, c) <= comments[c].totalWeight
  }

  /** Weighted by the curation curve, the total weight stays below the curve at the shares voted so far. */
  ghost predicate UnderCurve(c: Comment, curve: Curve)
    requires CurveOk(curve)
  {
    && 0 <= c.voteRshares && 0 <= c.totalWeight
    && (AUCTION_TIME <= c.created ==> c.totalWeight <= Evaluate(curve, c.voteRshares))
  }

  ghost predicate AllUnderCurve(comments: map<int, Comment>, curve: Curve)
    requires CurveOk(curve)
  {
    forall c :: c in comments ==> UnderCurve(comments[c], curve)
  }

  /** The weight a new upvote adds to the total, before the reverse auction discounts the voter's part. */
  function FullWeight(c: Comment, rshares: int, curve: Curve): int
    requires CurveOk(curve) && 0 < rshares && 0 <= c.voteRshares
  {
    if c.created < AUCTION_TIME then
      var total := c.absRshares + rshares;
      if total == 0 then 0 else rshares * rshares * rshares / (total * total)
    else Evaluate(curve, c.voteRshares + rshares) - Evaluate(curve, c.voteRshares)
  }

  /**
   Weight goes by the curve at the shares voted so far: the first vote adds all of it, and two votes
   add what one of both would.
   */
  lemma WeightTelescopes(c: Comment, r: int, s: int, curve: Curve)
    requires CurveOk(curve) && 0 < r && 0 < s && 0 <= c.voteRshares && AUCTION_TIME <= c.created
    ensures c.voteRshares == 0 ==> FullWeight(c, r, curve) == Evaluate(curve, r)
    ensures FullWeight(c, r, curve) + FullWeight(c.(voteRshares := c.voteRshares + r), s, curve) == FullWeight(c, r + s, curve)
  {
    hide Evaluate, FullWeight;
    CurveMonotone(curve, 0, r);
    ByTheCurve(c, r, curve);
    ByTheCurve(c.(voteRshares := c.voteRshares + r), s, curve);
    ByTheCurve(c, r + s, curve);
    assert c.voteRshares + (r + s) == c.voteRshares + r + s;
  }

  lemma ByTheCurve(c: Comment, r: int, curve: Curve)
    requires CurveOk(curve) && 0 < r && 0 <= c.voteRshares && AUCTION_TIME <= c.created
    ensures FullWeight(c, r, curve) + Evaluate(curve, c.voteRshares) == Evaluate(curve, c.voteRshares + r)
  {
    hide Evaluate;
  }

  /** The voter's part: everything after half an hour, proportionally less before. */
  function Discounted(full: int, now: int, created: int): int
  {
    if AUCTION_TIME < now then MulDiv(full, Min(now - created, AUCTION_WINDOW), AUCTION_WINDOW) else full
  }

  lemma PositiveSquare(x: int)
    requires x != 0
    ensures 0 < x * x
  {
  }

  lemma PositiveCube(x: int)
    requires 0 < x
    ensures 0 < x * x * x
  {
    assert 0 < x * x;
  }

  lemma FullWeightBounds(c: Comment, rshares: int, curve: Curve)
    requires CurveOk(curve) && 0 < rshares && 0 <= c.voteRshares
    ensures 0 <= FullWeight(c, rshares, curve)
  {
    if c.created < AUCTION_TIME {
      var total := c.absRshares + rshares;
      if total != 0 {
        PositiveSquare(total);
        PositiveCube(rshares);
        MulDivBounds(rshares * rshares * rshares, 1, total * total);
        assert MulDiv(rshares * rshares * rshares, 1, total * total) == rshares * rshares * rshares / (total * total);
      }
    } else {
      CurveMonotone(curve, c.voteRshares, c.voteRshares + rshares);
    }
  }

  lemma DiscountedBounds(full: int, now: int, created: int)
    requires 0 <= full && created <= now
    ensures 0 <= Discounted(full, now, created) <= full
  {
    MulDivShare(full, Min(now - created, AUCTION_WINDOW), AUCTION_WINDOW);
  }

  /**
   The reverse auction: nothing at once, everything from half an hour on, and in between by the
   second, rounded down.
   */
  lemma DiscountIs(full: int, now: int, created: int)
    requires 0 <= full && created <= now && AUCTION_TIME < now
    ensures var w, age := Discounted(full, now, created), now - created;
      && (AUCTION_WINDOW <= age ==> w == full)
      && (age < AUCTION_WINDOW ==> w * AUCTION_WINDOW <= full * age < (w + 1) * AUCTION_WINDOW)
  {
    var age := now - created;
    MulDivBounds(full, Min(age, AUCTION_WINDOW), AUCTION_WINDOW);
    if AUCTION_WINDOW <= age {
      MulDivAtLeast(full, AUCTION_WINDOW, AUCTION_WINDOW, full);
      MulDivShare(full, AUCTION_WINDOW, AUCTION_WINDOW);
    }
  }

  lemma WeightWritten(votes: Votes, k: (int, Account), v: Vote, c: int)
    requires v.comment == k.0 && (k in votes ==> votes[k].comment == k.0)
    ensures WeightOf(votes[k := v], c) == WeightOf(votes, c) + if c == k.0 then v.weight - (if k in votes then votes[k].weight else 0) else 0
  {
    hide SumMap;
    if k in votes {
      SumMapUpdate(votes, k, v, WeightOn(c));
    } else {
      SumMapInsert(votes, k, v, WeightOn(c));
    }
  }

  lemma WeightAtLeast(votes: Votes, accounts: set<Account>, k: (int, Account))
    requires VotesOk(votes, accounts) && k in votes
    ensures 0 <= votes[k].weight <= WeightOf(votes, k.0)
  {
    SumMapBounds(votes, k, WeightOn(k.0));
  }

  function WeightTotal(bs: seq<Beneficiary>): int
  {
    if bs == [] then 0 else WeightTotal(bs[..|bs| - 1]) + bs[|bs| - 1].weight
  }

  /** What comment and comment_options guarantee about the payout fields. */
  predicate CommentOk(x: Comment, accounts: set<Account>)
  {
    && x.author in accounts && 0 <= x.percentSbd <= HUNDRED_PERCENT && 0 <= x.rewardWeight <= HUNDRED_PERCENT
    && 0 <= x.maxPayout
    && WeightTotal(x.beneficiaries) <= HUNDRED_PERCENT
    && forall i :: 0 <= i < |x.beneficiaries| ==> x.beneficiaries[i].account in accounts && 0 <= x.beneficiaries[i].weight
  }

  ghost predicate CommentsOk(comments: map<int, Comment>, accounts: set<Account>)
  {
    forall c :: c in comments ==> CommentOk(comments[c], accounts)
  }

  /** No comment occurs twice in the payout history, and one that occurs is never due again. */
  ghost predicate PaidOnce(comments: map<int, Comment>, payouts: seq<int>)
  {
    && (forall i, j :: 0 <= i < j < |payouts| ==> payouts[i] != payouts[j])
    && (forall i :: 0 <= i < |payouts| ==> payouts[i] in comments && !Unpaid(comments[payouts[i]]))
  }

  lemma NoWeightYet(votes: Votes, accounts: set<Account>, c: int)
    requires VotesOk(votes, accounts) && forall k :: k in votes ==> k.0 != c
    ensures WeightOf(votes, c) == 0
  {
    SumMapPart(votes, WeightOn(c), {}, k => 0);
  }

  class Forum {
    const db: Database
    const curve: Curve               // the fund's curation curve
    const authorCurve: Curve
    var comments: map<int, Comment>
    var votes: Votes
    var payouts: seq<int>            // comments paid out so far, in order
    var voters: map<Account, Voter>  // accounts whose voting fields differ from a new account's

    constructor (ledger: Database, curation: Curve, author: Curve)
      requires CurveOk(curation) && CurveOk(author)
      ensures Valid() && comments == map[] && votes == map[] && payouts == [] && voters == map[]
      ensures db == ledger && curve == curation && authorCurve == author
    {
      db, curve, authorCurve := ledger, curation, author;
      comments, votes, payouts, voters := map[], map[], [], map[];
    }

    ghost predicate Valid()
      reads this, db`accounts
    {
      && CurveOk(curve) && CurveOk(authorCurve)
      && VotesOk(votes, db.accounts) && Weighed(comments, votes) && AllUnderCurve(comments, curve)
      && CommentsOk(comments, db.accounts) && PaidOnce(comments, payouts) && PowersOk(voters)
    }

    /** A new comment, not yet voted on. */
    method CreateComment(c: int, x: Comment) returns (ok: bool)
      requires Valid() && CommentOk(x, db.accounts) && x.netRshares == x.absRshares == x.voteRshares == x.totalWeight == x.lastPayout == 0 && Unpaid(x)
      modifies this`comments
      ensures Valid() && ok == (c !in old(comments) && forall k :: k in votes ==> k.0 != c)
      ensures comments == if ok then old(comments)[c := x] else old(comments)
    {
      hide SumMap;
      ok := c !in comments && forall k :: k in votes ==> k.0 != c;
      if ok {
        CurveMonotone(curve, 0, 0);
        NoWeightYet(votes, db.accounts, c);
        comments := comments[c := x];
      }
    }

    /**
     vote: on an unpaid comment the voter spends voting power, whose share of the effective vesting shares
     is the strength of the vote; on a paid one the vote is only recorded.
     */
    method CastVote(c: int, voter: Account, percent: int, shares: int, reserve: nat, curationPercent: int)
      returns (ok: bool)
      requires Valid() && -HUNDRED_PERCENT <= percent <= HUNDRED_PERCENT && (c in comments ==> comments[c].created <= db.now)
      modifies this`comments, this`votes, this`voters
      ensures ok ==> Valid()
      ensures ok <==>
        && c in old(comments) && voter in db.accounts && VoterAt(old(voters), voter).canVote
        && (Unpaid(old(comments)[c]) ==> HasPower(VoterAt(old(voters), voter), shares, reserve, db.now))
        && MayCast(old(comments)[c], VoteAt(old(votes), (c, voter)), percent, Strength(VoterAt(old(voters), voter), percent, shares, reserve, db.now), db.now)
      ensures ok ==> 0 <= old(comments)[c].voteRshares
      ensures ok ==> var v := VoterAt(old(voters), voter);
        var cast := Cast(old(comments)[c], VoteAt(old(votes), (c, voter)), (c, voter), percent,
                         Strength(v, percent, shares, reserve, db.now), curationPercent, curve, db.now);
        && votes == old(votes)[(c, voter) := cast.0] && comments == old(comments)[c := cast.1]
        && voters == if Unpaid(old(comments)[c]) then old(voters)[voter := Spent(v, percent, reserve, db.now)] else old(voters)
    {
      hide VotesOk, Weighed, AllUnderCurve, MayCast, Cast, Strength, Spent, PowersOk, CommentsOk, PaidOnce;
      var v := VoterAt(voters, voter);
      if c !in comments || !v.canVote {
        return false;
      }
      if Unpaid(comments[c])
         && (db.now - v.lastVote < MIN_VOTE_INTERVAL || CurrentPower(v, db.now) <= 0 || Denominator(reserve) == 0 || shares < 0) {
        return false;
      }
      ghost var unpaid := Unpaid(comments[c]);
      var x := comments[c];
      StrengthIs(voters, voter, percent, shares, reserve, db.now);
      ok := RecordVote(c, voter, percent, Strength(v, percent, shares, reserve, db.now), curationPercent);
      if ok && Unpaid(x) {
        voters := voters[voter := Spent(v, percent, reserve, db.now)];
      }
    }

    /** process_decline_voting_rights: the account never votes again. */
    method DeclineVoting(a: Account)
      requires Valid()
      modifies this`voters
      ensures Valid() && voters == old(voters)[a := VoterAt(old(voters), a).(canVote := false)]
    {
      hide VotesOk, Weighed, AllUnderCurve, CommentsOk, PaidOnce;
      voters := voters[a := VoterAt(voters, a).(canVote := false)];
    }

    /** What is recorded of a vote with a given strength. */
    method RecordVote(c: int, voter: Account, percent: int, absRshares: int, curationPercent: int) returns (ok: bool)
      requires Valid() && 0 <= absRshares && (c in comments ==> comments[c].created <= db.now)
      modifies this`comments, this`votes
      ensures ok ==> Valid()
      ensures ok <==>
        && c in old(comments) && voter in db.accounts
        && MayCast(old(comments)[c], VoteAt(old(votes), (c, voter)), percent, absRshares, db.now)
      ensures ok ==> 0 <= old(comments)[c].voteRshares
      ensures ok ==>
        var cast := Cast(old(comments)[c], VoteAt(old(votes), (c, voter)), (c, voter), percent, absRshares, curationPercent, curve, db.now);
        votes == old(votes)[(c, voter) := cast.0] && comments == old(comments)[c := cast.1]
    {
      hide SumMap, Evaluate, Weighed, AllUnderCurve, FirstVote, ChangedVote;
      if c in comments {
        CommentFacts(comments, curve, c);
      }
      if c !in comments || voter !in db.accounts || (0 < percent && !comments[c].allowVotes) {
        return false;
      }
      var k, x := (c, voter), comments[c];
      if x.cashoutTime == NEVER {
        var v := if k in votes then votes[k].(percent := percent) else Vote(c, voter, 0, 0, percent, 0);
        LateVoteKeeps(comments, votes, db.accounts, k, v);
        votes := votes[k := v];
        assert comments == comments[c := x];
        return true;
      }
      if absRshares <= VOTE_DUST_THRESHOLD && percent != 0 {
        return false;
      }
      var rshares := Signed(percent, absRshares);
      if k in votes {
        ok := ChangeVote(k, percent, rshares);
      } else {
        ok := NewVote(k, percent, rshares, curationPercent);
      }
    }

    /** A first vote on an unpaid comment. */
    method NewVote(k: (int, Account), percent: int, rshares: int, curationPercent: int) returns (ok: bool)
      requires Valid() && k.0 in comments && k.1 in db.accounts && k !in votes && Unpaid(comments[k.0]) && comments[k.0].created <= db.now
      modifies this`comments, this`votes
      ensures ok ==> Valid()
      ensures ok == MayVoteFirst(old(comments)[k.0], percent, rshares, db.now)
      ensures ok ==> 0 <= old(comments)[k.0].voteRshares
      ensures ok ==>
        var first := FirstVote(old(comments)[k.0], k, percent, rshares, curationPercent, curve, db.now);
        votes == old(votes)[k := first.0] && comments == old(comments)[k.0 := first.1]
    {
      hide SumMap, Evaluate, VotesOk, Weighed, AllUnderCurve, FullWeight, Discounted;
      var x := comments[k.0];
      if percent == 0 || rshares == 0 || (0 < rshares && x.cashoutTime - UPVOTE_LOCKOUT <= db.now) {
        return false;
      }
      CommentFacts(comments, curve, k.0);
      var added, weight := 0, 0;
      if 0 < rshares && x.lastPayout == 0 && x.allowCuration && 0 < curationPercent {
        added := FullWeight(x, rshares, curve);
        FullWeightBounds(x, rshares, curve);
        DiscountedBounds(added, db.now, x.created);
        weight := Discounted(added, db.now, x.created);
      }
      var v := Vote(k.0, k.1, rshares, weight, percent, 0);
      var y := x.(netRshares := x.netRshares + rshares, absRshares := x.absRshares + if rshares < 0 then -rshares else rshares,
                  totalWeight := x.totalWeight + added);
      if 0 < rshares {
        y := y.(voteRshares := y.voteRshares + rshares);
      }
      UpvotedUnderCurve(x, rshares, curationPercent, curve);
      VoteKeeps(comments, votes, db.accounts, curve, k, v, y);
      comments := comments[k.0 := y];
      votes := votes[k := v];
      return true;
    }

    /** A changed vote forfeits its curation weight. */
    method ChangeVote(k: (int, Account), percent: int, rshares: int) returns (ok: bool)
      requires Valid() && k.0 in comments && k in votes && Unpaid(comments[k.0])
      modifies this`comments, this`votes
      ensures ok ==> Valid()
      ensures ok == MayChangeVote(old(comments)[k.0], old(votes)[k], percent, rshares, db.now)
      ensures ok ==> var changed := ChangedVote(old(comments)[k.0], old(votes)[k], percent, rshares);
        votes == old(votes)[k := changed.0] && comments == old(comments)[k.0 := changed.1]
    {
      hide SumMap, Evaluate, Weighed, AllUnderCurve;
      var x, v := comments[k.0], votes[k];
      if v.changes == -1 || MAX_VOTE_CHANGES <= v.changes || v.percent == percent || (v.rshares < rshares && x.cashoutTime - UPVOTE_LOCKOUT <= db.now) {
        return false;
      }
      var y := x.(netRshares := x.netRshares - v.rshares + rshares, absRshares := x.absRshares + Abs(rshares),
                  totalWeight := x.totalWeight - v.weight);
      var u := v.(rshares := rshares, weight := 0, percent := percent, changes := v.changes + 1);
      WeightAtLeast(votes, db.accounts, k);
      CommentFacts(comments, curve, k.0);
      WeighedHere(comments, votes, k.0);
      VoteKeeps(comments, votes, db.accounts, curve, k, u, y);
      comments := comments[k.0 := y];
      votes := votes[k := u];
      return true;
    }
  }

  function Abs(x: int): int { if x < 0 then -x else x }

  /** The weight a vote adds, if it earns curation rewards at all. */
  function Eligible(x: Comment, rshares: int, curationPercent: int, curve: Curve): Option<int>
    requires CurveOk(curve) && 0 <= x.voteRshares
  {
    if 0 < rshares && x.lastPayout == 0 && x.allowCuration && 0 < curationPercent then Some(FullWeight(x, rshares, curve)) else None
  }

  function Upvoted(x: Comment, rshares: int, added: int): Comment
  {
    x.(netRshares := x.netRshares + rshares, absRshares := x.absRshares + Abs(rshares),
       voteRshares := x.voteRshares + if 0 < rshares then rshares else 0, totalWeight := x.totalWeight + added)
  }

  // ----- voting power -----

  /** STEEMIT_VOTE_REGENERATION_SECONDS */
  const REGENERATION: int := 5 * 60 * 60 * 24
  const MIN_VOTE_INTERVAL: int := 3

  datatype Voter = Voter(power: int, lastVote: int, canVote: bool)

  function VoterAt(voters: map<Account, Voter>, a: Account): Voter
  {
    if a in voters then voters[a] else Voter(HUNDRED_PERCENT, 0, true)
  }

  ghost predicate PowersOk(voters: map<Account, Voter>)
  {
    forall a :: a in voters ==> 0 <= voters[a].power <= HUNDRED_PERCENT
  }

  function CurrentPower(v: Voter, now: int): int
  {
    Min(v.power + HUNDRED_PERCENT * (now - v.lastVote) / REGENERATION, HUNDRED_PERCENT)
  }

  /** Power comes back evenly, all of it in five days, rounded down and never beyond the whole. */
  lemma PowerRegenerates(v: Voter, now: int)
    requires 0 <= v.power <= HUNDRED_PERCENT && v.lastVote <= now
    ensures var p, elapsed := CurrentPower(v, now), now - v.lastVote;
      && v.power <= p <= HUNDRED_PERCENT && (REGENERATION <= elapsed ==> p == HUNDRED_PERCENT)
      && (p < HUNDRED_PERCENT ==> (p - v.power) * REGENERATION <= HUNDRED_PERCENT * elapsed < (p - v.power + 1) * REGENERATION)
  {
    var e := now - v.lastVote;
    var g := HUNDRED_PERCENT * e / REGENERATION;
    assert g * REGENERATION <= HUNDRED_PERCENT * e < (g + 1) * REGENERATION;
  }

  /** A vote weighs the part of the voter's shares that the power it costs is of all power. */
  lemma StrengthIsPart(v: Voter, percent: int, shares: int, reserve: nat, now: int)
    requires HasPower(v, shares, reserve, now) && 0 <= CurrentPower(v, now) && -HUNDRED_PERCENT <= percent <= HUNDRED_PERCENT
    ensures var used, r := CurrentPower(v, now) - Spent(v, percent, reserve, now).power, Strength(v, percent, shares, reserve, now);
      && 0 <= used <= CurrentPower(v, now) && Spent(v, percent, reserve, now).lastVote == now
      && r * HUNDRED_PERCENT <= shares * used < (r + 1) * HUNDRED_PERCENT
  {
    UsedPowerFits(CurrentPower(v, now), percent, reserve);
    hide UsedPower, CurrentPower;
    MulDivBounds(shares, UsedPower(CurrentPower(v, now), percent, reserve), HUNDRED_PERCENT);
  }

  /** How many full-strength votes would use up all power within the regeneration time. */
  function Denominator(reserve: nat): nat
  {
    reserve * REGENERATION / (60 * 60 * 24)
  }

  /** Voting at full strength `reserve` times a day costs as much power as comes back. */
  lemma DenominatorIs(reserve: nat)
    ensures Denominator(reserve) == 5 * reserve && reserve * REGENERATION == Denominator(reserve) * (60 * 60 * 24)
  {
  }

  /** The power a vote costs, rounded up. */
  function UsedPower(current: int, percent: int, reserve: nat): int
    requires 0 < Denominator(reserve)
  {
    (MulDiv(current, Abs(percent), HUNDRED_PERCENT) + Denominator(reserve) - 1) / Denominator(reserve)
  }

  /**
   Votes are three seconds apart, and something is left to vote with. A negative effective stake
   does not fit the unsigned product.
   */
  predicate HasPower(v: Voter, shares: int, reserve: nat, now: int)
  {
    MIN_VOTE_INTERVAL <= now - v.lastVote && 0 < CurrentPower(v, now) && 0 < Denominator(reserve) && 0 <= shares
  }

  function Strength(v: Voter, percent: int, shares: int, reserve: nat, now: int): int
  {
    if HasPower(v, shares, reserve, now) then MulDiv(shares, UsedPower(CurrentPower(v, now), percent, reserve), HUNDRED_PERCENT) else 0
  }

  function Spent(v: Voter, percent: int, reserve: nat, now: int): Voter
  {
    if 0 < Denominator(reserve) then v.(power := CurrentPower(v, now) - UsedPower(CurrentPower(v, now), percent, reserve), lastVote := now) else v
  }

  /**
   A vote never costs more power than there is, so the assertion about it cannot fire; the cost is
   the exact part rounded up.
   */
  lemma UsedPowerFits(current: int, percent: int, reserve: nat)
    requires 0 <= current && -HUNDRED_PERCENT <= percent <= HUNDRED_PERCENT && 0 < Denominator(reserve)
    ensures 0 <= UsedPower(current, percent, reserve) <= current
    ensures var u, d := UsedPower(current, percent, reserve), Denominator(reserve);
      (u - 1) * d < MulDiv(current, Abs(percent), HUNDRED_PERCENT) <= u * d
  {
    MulDivShare(current, Abs(percent), HUNDRED_PERCENT);
    RoundedUp(MulDiv(current, Abs(percent), HUNDRED_PERCENT), Denominator(reserve));
  }

  lemma RoundedUp(a: int, d: int)
    requires 0 <= a && 0 < d
    ensures 0 <= (a + d - 1) / d <= a && ((a + d - 1) / d - 1) * d < a <= (a + d - 1) / d * d
  {
    var x := a + d - 1;
    var q := x / d;
    Divided(x, d);
    Pred(q, d);
    if 0 < a {
      SumBelowProduct(a, d);
      Smaller(q, a, d);
    } else {
      Smaller(q, 0, d);
    }
  }

  lemma Divided(x: int, d: int)
    requires 0 <= x && 0 < d
    ensures 0 <= x / d && x / d * d <= x < x / d * d + d
  {
  }

  lemma Pred(q: int, d: int)
    ensures (q - 1) * d == q * d - d
  {
  }

  lemma SumBelowProduct(a: int, d: int)
    requires 0 < a && 0 < d
    ensures a + d - 1 <= a * d
  {
    assert (a - 1) * (d - 1) == a * d - a - d + 1;
    ProductNonNegative(a - 1, d - 1);
  }

  lemma Smaller(q: int, a: int, d: int)
    requires 0 < d && q * d < a * d + d
    ensures q <= a
  {
    CancelPositive(a + 1, q, d);
  }

  /** Power stays between nothing and everything. */
  lemma StrengthIs(voters: map<Account, Voter>, a: Account, percent: int, shares: int, reserve: nat, now: int)
    requires PowersOk(voters) && -HUNDRED_PERCENT <= percent <= HUNDRED_PERCENT
    ensures var v := VoterAt(voters, a);
      && 0 <= Strength(v, percent, shares, reserve, now)
      && (HasPower(v, shares, reserve, now) ==> PowersOk(voters[a := Spent(v, percent, reserve, now)]))
  {
    hide UsedPower;
    var v := VoterAt(voters, a);
    if HasPower(v, shares, reserve, now) {
      UsedPowerFits(CurrentPower(v, now), percent, reserve);
      MulDivBounds(shares, UsedPower(CurrentPower(v, now), percent, reserve), HUNDRED_PERCENT);
    }
  }

  // ----- what a vote does -----

  predicate MayVoteFirst(x: Comment, percent: int, rshares: int, now: int)
  {
    percent != 0 && rshares != 0 && (0 < rshares ==> now < x.cashoutTime - UPVOTE_LOCKOUT)
  }

  /**
   The new vote and the comment it leaves: only eligible upvotes weigh, and the comment counts the
   undiscounted weight.
   */
  function FirstVote(x: Comment, k: (int, Account), percent: int, rshares: int, curationPercent: int, curve: Curve,
                     now: int): (Vote, Comment)
    requires CurveOk(curve) && 0 <= x.voteRshares
  {
    match Eligible(x, rshares, curationPercent, curve)
    case Some(full) => (Vote(k.0, k.1, rshares, Discounted(full, now, x.created), percent, 0), Upvoted(x, rshares, full))
    case None => (Vote(k.0, k.1, rshares, 0, percent, 0), Upvoted(x, rshares, 0))
  }

  /** A vote may change a few times, not after its payout, and not upwards close to one. */
  predicate MayChangeVote(x: Comment, v: Vote, percent: int, rshares: int, now: int)
  {
    && v.changes != -1 && v.changes < MAX_VOTE_CHANGES && v.percent != percent
    && (v.rshares < rshares ==> now < x.cashoutTime - UPVOTE_LOCKOUT)
  }

  /** A changed vote loses its weight for good. */
  function ChangedVote(x: Comment, v: Vote, percent: int, rshares: int): (Vote, Comment)
  {
    (v.(rshares := rshares, weight := 0, percent := percent, changes := v.changes + 1),
     x.(netRshares := x.netRshares - v.rshares + rshares, absRshares := x.absRshares + Abs(rshares), totalWeight := x.totalWeight - v.weight))
  }

  function VoteAt(votes: Votes, k: (int, Account)): Option<Vote>
  {
    if k in votes then Some(votes[k]) else None
  }

  function Signed(percent: int, absRshares: int): int
  {
    if percent < 0 then -absRshares else absRshares
  }

  predicate MayCast(x: Comment, v: Option<Vote>, percent: int, absRshares: int, now: int)
  {
    && (0 < percent ==> x.allowVotes)
    && (Unpaid(x) ==> (VOTE_DUST_THRESHOLD < absRshares || percent == 0)
                      && match v case Some(u) => MayChangeVote(x, u, percent, Signed(percent, absRshares), now)
                                 case None => MayVoteFirst(x, percent, Signed(percent, absRshares), now))
  }

  /** The vote and the comment after vote_evaluator; on a paid comment only the percentage is recorded. */
  function Cast(x: Comment, v: Option<Vote>, k: (int, Account), percent: int, absRshares: int, curationPercent: int,
                curve: Curve, now: int): (Vote, Comment)
    requires CurveOk(curve) && 0 <= x.voteRshares
  {
    match v
    case Some(u) => if Unpaid(x) then ChangedVote(x, u, percent, Signed(percent, absRshares)) else (u.(percent := percent), x)
    case None => if Unpaid(x) then FirstVote(x, k, percent, Signed(percent, absRshares), curationPercent, curve, now) else (Vote(k.0, k.1, 0, 0, percent, 0), x)
  }

  lemma CommentFacts(comments: map<int, Comment>, curve: Curve, c: int)
    requires CurveOk(curve) && AllUnderCurve(comments, curve) && c in comments
    ensures UnderCurve(comments[c], curve)
  {
  }

  lemma WeighedHere(comments: map<int, Comment>, votes: Votes, c: int)
    requires Weighed(comments, votes) && c in comments && Unpaid(comments[c])
    ensures WeightOf(votes, c) <= comments[c].totalWeight
  {
  }

  /** The telescoping sum of curve increments stays below the curve. */
  lemma UpvotedUnderCurve(x: Comment, rshares: int, curationPercent: int, curve: Curve)
    requires CurveOk(curve) && UnderCurve(x, curve)
    ensures var full := Eligible(x, rshares, curationPercent, curve); UnderCurve(Upvoted(x, rshares, if full.Some? then full.value else 0), curve)
  {
    if 0 < rshares {
      CurveMonotone(curve, x.voteRshares, x.voteRshares + rshares);
      FullWeightBounds(x, rshares, curve);
    }
  }

  /** Writing one vote and its comment keeps every weight bound, as long as the total takes up the difference. */
  lemma VoteKeeps(comments: map<int, Comment>, votes: Votes, accounts: set<Account>, curve: Curve, k: (int, Account),
                  v: Vote, y: Comment)
    requires CurveOk(curve) && VotesOk(votes, accounts) && Weighed(comments, votes) && AllUnderCurve(comments, curve)
    requires k.0 in comments && k.1 in accounts && Unpaid(comments[k.0]) && y.cashoutTime == comments[k.0].cashoutTime
    requires v.comment == k.0 && v.voter == k.1 && 0 <= v.weight && UnderCurve(y, curve)
    requires v.weight - (if k in votes then votes[k].weight else 0) <= y.totalWeight - comments[k.0].totalWeight
    ensures VotesOk(votes[k := v], accounts) && Weighed(comments[k.0 := y], votes[k := v]) && AllUnderCurve(comments[k.0 := y], curve)
    ensures CommentsOk(comments, accounts) && CommentOk(y, accounts) ==> CommentsOk(comments[k.0 := y], accounts)
    ensures forall payouts :: PaidOnce(comments, payouts) ==> PaidOnce(comments[k.0 := y], payouts)
  {
    hide SumMap, Evaluate;
    WeighedHere(comments, votes, k.0);
    forall c | c in comments
      ensures WeightOf(votes[k := v], c) == WeightOf(votes, c) + if c == k.0 then v.weight - (if k in votes then votes[k].weight else 0) else 0
    {
      WeightWritten(votes, k, v, c);
    }
  }

  lemma LateVoteKeeps(comments: map<int, Comment>, votes: Votes, accounts: set<Account>, k: (int, Account), v: Vote)
    requires VotesOk(votes, accounts) && Weighed(comments, votes) && k.0 in comments && !Unpaid(comments[k.0]) && k.1 in accounts
    requires v.comment == k.0 && v.voter == k.1 && v.weight == if k in votes then votes[k].weight else 0
    ensures VotesOk(votes[k := v], accounts) && Weighed(comments, votes[k := v])
  {
    hide SumMap;
    forall c | c in comments ensures WeightOf(votes[k := v], c) == WeightOf(votes, c) {
      WeightWritten(votes, k, v, c);
    }
  }
}
