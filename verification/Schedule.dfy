/** The witness schedule: who is elected, whose turn it is, and the virtual clock behind it. */
module Schedule {
  import opened Basics
  import opened Division
  import opened Witnesses

  type Candidates = map<Witness, Candidate>

  predicate Distinct(s: seq<Witness>)
  {
    forall i, j :: 0 <= i < j < |s| ==> s[i] != s[j]
  }

  /** A database index over all witnesses: each of them once. */
  predicate Lists(order: seq<Witness>, ws: Candidates)
  {
    Distinct(order) && (forall i :: 0 <= i < |order| ==> order[i] in ws) && forall w :: w in ws ==> w in order
  }

  predicate ByVotes(order: seq<Witness>, ws: Candidates)
  {
    Lists(order, ws) && forall i, j :: 0 <= i < j < |order| ==> ws[order[j]].votes <= ws[order[i]].votes
  }

  predicate ByTime(order: seq<Witness>, ws: Candidates)
  {
    Lists(order, ws) && forall i, j :: 0 <= i < j < |order| ==> ws[order[i]].scheduled <= ws[order[j]].scheduled
  }

  /** The elected witnesses: keyed, at most `limit`, and none left out has more votes. */
  ghost predicate Elected(top: seq<Witness>, ws: Candidates, limit: nat)
  {
    && Distinct(top) && |top| <= limit && (forall i :: 0 <= i < |top| ==> top[i] in ws && ws[top[i]].keyed)
    && (|top| < limit ==> forall w :: w in ws && ws[w].keyed ==> w in top)
    && forall w, t :: w in ws && ws[w].keyed && w !in top && t in top && t in ws ==> ws[w].votes <= ws[t].votes
  }

  method SelectTop(order: seq<Witness>, ws: Candidates, limit: nat) returns (top: seq<Witness>)
    requires ByVotes(order, ws)
    ensures Elected(top, ws, limit)
  {
    top := [];
    var i := 0;
    while i < |order| && |top| < limit
      invariant 0 <= i <= |order| && Distinct(top) && |top| <= limit
      invariant forall k :: 0 <= k < |top| ==> top[k] in order[..i] && top[k] in ws && ws[top[k]].keyed
      invariant forall k :: 0 <= k < i && ws[order[k]].keyed ==> order[k] in top
    {
      if ws[order[i]].keyed {
        top := top + [order[i]];
      }
      i := i + 1;
    }
    forall w, t | w in ws && ws[w].keyed && w !in top && t in top && t in ws ensures ws[w].votes <= ws[t].votes {
      var j :| 0 <= j < |order| && order[j] == w;
      var l :| 0 <= l < i && order[l] == t;
    }
  }

  /** The virtual time reached after the first n of the queue. */
  function LastTime(order: seq<Witness>, ws: Candidates, n: nat, clock: int): int
    requires n <= |order| && forall i :: 0 <= i < |order| ==> order[i] in ws
  {
    if n == 0 then clock else ws[order[n - 1]].scheduled
  }

  /**
   The runners: the next keyed witnesses in virtual time that were not elected, until the round is full.
   Everyone passed on the way is processed, and the clock moves to the last of them.
   */
  method SelectRunners(order: seq<Witness>, ws: Candidates, top: seq<Witness>, clock: int)
    returns (runners: seq<Witness>, processed: nat, time: int)
    requires ByTime(order, ws) && Distinct(top) && AllOnTime(ws, clock)
    ensures processed <= |order| && Distinct(top + runners) && |top| + |runners| <= Max(|top|, MAX_WITNESSES)
    ensures forall i :: 0 <= i < |runners| ==> runners[i] in order[..processed] && ws[runners[i]].keyed
    ensures time == LastTime(order, ws, processed, clock)
    ensures clock <= time && forall i :: processed <= i < |order| ==> time <= ws[order[i]].scheduled
    ensures forall w :: w in ws && ws[w].keyed && w !in top && w !in runners ==> time <= ws[w].scheduled
    ensures |top| + |runners| < MAX_WITNESSES ==>
      && processed == |order| && forall w :: w in ws && ws[w].keyed ==> w in top || w in runners
  {
    runners, processed, time := [], 0, clock;
    while processed < |order| && |top| + |runners| < MAX_WITNESSES
      invariant 0 <= processed <= |order| && Distinct(top + runners) && |top| + |runners| <= Max(|top|, MAX_WITNESSES)
      invariant forall i :: 0 <= i < |runners| ==> runners[i] in order[..processed] && ws[runners[i]].keyed
      invariant time == if processed == 0 then clock else ws[order[processed - 1]].scheduled
      invariant forall i :: 0 <= i < processed && ws[order[i]].keyed ==> order[i] in top || order[i] in runners
    {
      var w := order[processed];
      time := ws[w].scheduled;
      if ws[w].keyed && w !in top {
        assert w !in runners;
        AppendDistinct(top + runners, w);
        assert top + runners + [w] == top + (runners + [w]);
        runners := runners + [w];
      }
      processed := processed + 1;
    }
    assert forall w :: w in ws ==> OnTime(ws[w], clock);
  }

  lemma AppendDistinct(s: seq<Witness>, w: Witness)
    requires Distinct(s) && w !in s
    ensures Distinct(s + [w])
  {
  }

  // ----- the virtual clock -----

  /** The virtual time one lap takes: the more votes, the shorter. Votes are never negative. */
  function Lap(votes: int): int
  {
    if votes < 0 then LAP else LAP / (votes + 1)
  }

  lemma LapBounds(votes: int)
    ensures 0 <= Lap(votes) <= LAP
  {
  }

  /** A lap is run in the whole time w that the speed of the votes and one needs. */
  lemma LapIs(votes: int)
    requires 0 <= votes
    ensures Lap(votes) * (votes + 1) <= LAP < (Lap(votes) + 1) * (votes + 1)
  {
    var w, d := LAP / (votes + 1), votes + 1;
    assert LAP == w * d + LAP % d && (w + 1) * d == w * d + d;
  }

  /** Who starts a lap at the same time with more votes never arrives later. */
  lemma MoreVotesSooner(c: Candidate, d: Candidate, time: int)
    requires 0 <= c.votes <= d.votes
    ensures NextLap(d, time).scheduled <= NextLap(c, time).scheduled
  {
    LapIs(c.votes);
    LapIs(d.votes);
    hide Lap;
    var x, y := Lap(c.votes), Lap(d.votes);
    assert y * (c.votes + 1) <= y * (d.votes + 1) by { LapBounds(d.votes); }
    CancelPositive(x + 1, y, c.votes + 1);
  }

  /** A processed witness starts its next lap at the new time. */
  function NextLap(c: Candidate, time: int): Candidate
  {
    c.(position := 0, lastUpdate := time, scheduled := time + Lap(c.votes))
  }

  /** Whether the 128-bit sum wraps, which the source sees as a result below the clock. */
  predicate Wraps(c: Candidate, time: int)
  {
    (time + Lap(c.votes)) % U128 < time
  }

  lemma WrapsMeans(c: Candidate, time: int)
    requires 0 <= c.votes && 0 <= time < U128
    ensures Wraps(c, time) <==> U128 <= time + Lap(c.votes)
    ensures !Wraps(c, time) ==> OnTime(NextLap(c, time), time)
  {
    LapBounds(c.votes);
    var due := time + Lap(c.votes);
    if due < U128 {
      assert due % U128 == due;
    } else {
      assert due % U128 == due - U128;
    }
  }

  /** reset_virtual_schedule_time: everyone starts a lap at time zero. */
  function Restarted(ws: Candidates): Candidates
  {
    map w | w in ws :: NextLap(ws[w], 0)
  }

  ghost predicate Polled(ws: Candidates)
  {
    forall w :: w in ws ==> 0 <= ws[w].votes
  }

  lemma RestartedOnTime(ws: Candidates)
    requires Polled(ws)
    ensures AllOnTime(Restarted(ws), 0)
  {
    forall w | w in ws ensures OnTime(Restarted(ws)[w], 0) {
      LapBounds(ws[w].votes);
    }
  }

  /** Some processed witness's lap does not fit into 128 bits any more. */
  ghost predicate MustReset(order: seq<Witness>, processed: nat, ws: Candidates, time: int)
  {
    exists i :: 0 <= i < processed <= |order| && order[i] in ws && Wraps(ws[order[i]], time)
  }

  /** The first `done` witnesses of the order are on their next lap. */
  ghost predicate Lapped(order: seq<Witness>, done: nat, was: Candidates, now: Candidates, time: int)
  {
    && now.Keys == was.Keys && done <= |order|
    && forall i :: 0 <= i < |order| && order[i] in was ==> now[order[i]] == if i < done then NextLap(was[order[i]], time) else was[order[i]]
  }

  lemma LappedOneMore(order: seq<Witness>, done: nat, was: Candidates, now: Candidates, time: int)
    requires Lists(order, was) && Lapped(order, done, was, now, time) && done < |order|
    ensures Lapped(order, done + 1, was, now[order[done] := NextLap(now[order[done]], time)], time)
  {
  }

  lemma LappedOnTime(order: seq<Witness>, done: nat, was: Candidates, now: Candidates, clock: int, time: int)
    requires Lists(order, was) && Lapped(order, done, was, now, time) && AllOnTime(was, clock) && 0 <= clock <= time < U128
    requires !MustReset(order, done, was, time) && forall i :: done <= i < |order| ==> time <= was[order[i]].scheduled
    ensures AllOnTime(now, time)
  {
    forall w | w in now ensures OnTime(now[w], time) {
      var i :| 0 <= i < |order| && order[i] == w;
      assert OnTime(was[w], clock);
      WrapsMeans(was[w], time);
    }
  }

  lemma LappedEach(order: seq<Witness>, done: nat, was: Candidates, now: Candidates, time: int)
    requires Lists(order, was) && Lapped(order, done, was, now, time)
    ensures forall w :: w in order[..done] ==> w in now && now[w] == NextLap(was[w], time)
  {
  }

  lemma LappedPolled(order: seq<Witness>, done: nat, was: Candidates, now: Candidates, time: int)
    requires Lists(order, was) && Lapped(order, done, was, now, time)
    ensures forall w :: w in now ==> now[w].votes == was[w].votes && now[w].keyed == was[w].keyed
  {
    forall w | w in now ensures now[w].votes == was[w].votes && now[w].keyed == was[w].keyed {
      var i :| 0 <= i < |order| && order[i] == w;
    }
  }

  /**
   Everyone of these has just started a lap and waits the whole time w in which its votes and one run it;
   of two of them the one with more votes never arrives later.
   */
  ghost predicate FairLaps(ws: Candidates, lapped: set<Witness>, time: int)
  {
    && (forall w :: w in lapped && w in ws ==> ws[w].position == 0 && ws[w].lastUpdate == time && FairWait(ws[w].scheduled - time, ws[w].votes))
    && forall v, w :: v in lapped && w in lapped && v in ws && w in ws && ws[v].votes <= ws[w].votes ==> ws[w].scheduled <= ws[v].scheduled
  }

  ghost predicate FairWait(wait: int, votes: int)
  {
    wait * (votes + 1) <= LAP < (wait + 1) * (votes + 1)
  }

  lemma LapsAreFair(was: Candidates, now: Candidates, lapped: set<Witness>, time: int)
    requires now.Keys == was.Keys && Polled(was)
    requires forall w :: w in lapped && w in now ==> now[w] == NextLap(was[w], time)
    ensures FairLaps(now, lapped, time)
  {
    hide Lap;
    forall w | w in lapped && w in now ensures FairWait(now[w].scheduled - time, now[w].votes) {
      LapIs(was[w].votes);
    }
    forall v, w | v in lapped && w in lapped && v in now && w in now && now[v].votes <= now[w].votes
      ensures now[w].scheduled <= now[v].scheduled {
      MoreVotesSooner(was[v], was[w], time);
    }
  }

  /** The witnesses that an update lets start a new lap. */
  ghost function Starting(order: seq<Witness>, processed: nat, ws: Candidates, time: int): set<Witness>
    requires processed <= |order|
  {
    if MustReset(order, processed, ws, time) then ws.Keys else set w | w in order[..processed]
  }

  class Scheduler {
    var witnesses: Candidates
    var clock: int                    // current_virtual_time
    var shuffled: seq<Witness>        // current_shuffled_witnesses up to num_scheduled_witnesses

    constructor (ws: Candidates, time: int, round: seq<Witness>)
      requires AllOnTime(ws, time)
      ensures Valid() && witnesses == ws && clock == time && shuffled == round
    {
      witnesses, clock, shuffled := ws, time, round;
    }

    /** No scheduled time lies behind the clock and no update ahead of it. */
    ghost predicate Valid()
      reads this
    {
      AllOnTime(witnesses, clock)
    }

    /**
     The processed witnesses advance to the new time; if any of their laps would wrap, all witnesses
     and the clock start over from zero.
     */
    method Advance(order: seq<Witness>, processed: nat, time: int)
      requires Valid() && Lists(order, witnesses) && processed <= |order| && clock <= time < U128
      requires forall i :: processed <= i < |order| ==> time <= witnesses[order[i]].scheduled
      modifies this`witnesses, this`clock
      ensures Valid() && witnesses.Keys == old(witnesses).Keys
      ensures forall w :: w in witnesses ==> witnesses[w].votes == old(witnesses)[w].votes && witnesses[w].keyed == old(witnesses)[w].keyed
      ensures clock == if MustReset(order, processed, old(witnesses), time) then 0 else time
      ensures MustReset(order, processed, old(witnesses), time) ==> forall w :: w in witnesses ==> witnesses[w] == NextLap(old(witnesses)[w], 0)
      ensures !MustReset(order, processed, old(witnesses), time) ==>
        Lapped(order, processed, old(witnesses), witnesses, time)
      ensures FairLaps(witnesses, Starting(order, processed, old(witnesses), time), clock)
    {
      hide Lapped, Wraps, OnTime, NextLap, FairLaps;
      ghost var was := witnesses;
      assert Polled(was) by { VotesKnown(was, clock); }
      StartLapping(order, was, time);
      var i := 0;
      while i < processed
        invariant
          && 0 <= i <= processed && clock == old(clock) && Lapped(order, i, was, witnesses, time)
          && witnesses.Keys == was.Keys
        invariant forall j :: 0 <= j < i ==> !Wraps(was[order[j]], time)
      {
        var w := order[i];
        LappedHere(order, i, was, witnesses, time);
        if Wraps(witnesses[w], time) {
          LappedPolled(order, i, was, witnesses, time);
          RestartedOnTime(witnesses);
          RestartedAlike(was, witnesses);
          witnesses, clock := Restarted(witnesses), 0;
          LapsAreFair(was, witnesses, was.Keys, 0);
          return;
        }
        LappedOneMore(order, i, was, witnesses, time);
        witnesses := witnesses[w := NextLap(witnesses[w], time)];
        i := i + 1;
      }
      LappedPolled(order, processed, was, witnesses, time);
      LappedOnTime(order, processed, was, witnesses, clock, time);
      LappedEach(order, processed, was, witnesses, time);
      LapsAreFair(was, witnesses, Starting(order, processed, was, time), time);
      clock := time;
    }

    /**
     update_witness_schedule4: elected witnesses and runners form the next round in shuffled order.
     False when the round is not as full as the number of witnesses demands.
     */
    method Update(byVotes: seq<Witness>, byTime: seq<Witness>, maxVoted: nat, time: nat)
      returns (ok: bool, elected: seq<Witness>, runners: seq<Witness>, passed: nat)
      requires Valid() && ByVotes(byVotes, witnesses) && ByTime(byTime, witnesses) && maxVoted <= MAX_WITNESSES && time < 0x1_0000_0000
      modifies this
      ensures Valid() && witnesses.Keys == old(witnesses).Keys
      ensures forall w :: w in witnesses ==> witnesses[w].votes == old(witnesses)[w].votes && witnesses[w].keyed == old(witnesses)[w].keyed
      ensures Elected(elected, old(witnesses), maxVoted)
      ensures forall w :: w in old(witnesses) && old(witnesses)[w].keyed && w !in elected && w !in runners ==>
        forall r :: r in runners && r in old(witnesses) ==> old(witnesses)[r].scheduled <= old(witnesses)[w].scheduled
      ensures ok <==> |elected| + |runners| == Min(MAX_WITNESSES, |old(witnesses)|)
      ensures !ok ==> shuffled == old(shuffled)
      ensures ok ==>
        shuffled == if elected + runners == [] then [NOBODY] else Shuffled(elected + runners, time, |elected + runners|)
      ensures passed <= |byTime| && var at := LastTime(byTime, old(witnesses), passed, old(clock));
        if MustReset(byTime, passed, old(witnesses), at)
        then clock == 0 && forall w :: w in witnesses ==> witnesses[w] == NextLap(old(witnesses)[w], 0)
        else clock == at && Lapped(byTime, passed, old(witnesses), witnesses, at)
      ensures ok && 0 < |old(witnesses)| ==> Distinct(shuffled) && multiset(shuffled) == multiset(elected + runners)
      ensures ok && 0 < |old(witnesses)| ==>
        forall w :: w in shuffled ==> w in old(witnesses) && old(witnesses)[w].keyed
      ensures clock >= old(clock) || clock == 0
      ensures FairLaps(witnesses, Starting(byTime, passed, old(witnesses), LastTime(byTime, old(witnesses), passed, old(clock))), clock)
    {
      hide Elected, OnTime, NextLap, MustReset, Lapped, Draw, FairLaps, Starting;
      elected := SelectTop(byVotes, witnesses, maxVoted);
      ElectedAlone(elected, witnesses, maxVoted);
      var virtualTime;
      runners, passed, virtualTime := SelectRunners(byTime, witnesses, elected, clock);
      RunnersFirst(byTime, witnesses, elected, runners, passed, virtualTime);
      ghost var ws := witnesses;
      TimeInRange(byTime, witnesses, passed, clock, virtualTime);
      Advance(byTime, passed, virtualTime);
      var active := elected + runners;
      if |active| != Min(MAX_WITNESSES, |witnesses|) {
        return false, elected, runners, passed;
      }
      assert |witnesses| == |ws| by { assert |witnesses.Keys| == |ws.Keys|; }
      var round := new Witness[|active|](i requires 0 <= i < |active| => active[i]);
      assert round[..] == active;
      Shuffle(round, time);
      SameMembers(round[..], active);
      shuffled := if |active| == 0 then [NOBODY] else round[..];
      ok := true;
      forall w | w in active ensures w in ws && ws[w].keyed {
        ActiveKeyed(elected, runners, byTime, ws, maxVoted, w);
      }
    }
  }

  /** The empty account name that fills a round without witnesses. */
  const NOBODY: Witness := -1

  /** The xorshift generator the shuffle draws from, in 64-bit arithmetic. */
  function Draw(time: nat, i: nat): nat
    requires time < 0x1_0000_0000 && i < 0x1_0000_0000
  {
    var k0: bv64 := ((time as bv64) << 32) + (i as bv64) * 2685821657736338717;
    var k1 := k0 ^ (k0 >> 12);
    var k2 := k1 ^ (k1 << 25);
    var k3 := k2 ^ (k2 >> 27);
    (k3 * 2685821657736338717) as nat
  }

  /** A known answer of the generator. */
  lemma DrawExample()
    ensures Draw(1, 2) == 8363531313377062728
  {
    var k0: bv64 := ((1 as bv64) << 32) + (2 as bv64) * 2685821657736338717;
    var k1 := k0 ^ (k0 >> 12);
    var k2 := k1 ^ (k1 << 25);
    var k3 := k2 ^ (k2 >> 27);
    assert k3 * 2685821657736338717 == 8363531313377062728;
  }

  /** The round after the first n swaps: position k trades places with one drawn from the rest. */
  function Shuffled(s: seq<Witness>, time: nat, n: nat): (r: seq<Witness>)
    requires n <= |s| < 0x1_0000_0000 && time < 0x1_0000_0000
    ensures |r| == |s|
  {
    if n == 0 then s else
    var r, k := Shuffled(s, time, n - 1), n - 1;
    var j := k + Draw(time, k) % (|s| - k);
    r[k := r[j]][j := r[k]]
  }

  /** Each place swaps with a random later one: the result is a permutation. */
  method Shuffle(a: array<Witness>, time: nat)
    requires a.Length < 0x1_0000_0000 && time < 0x1_0000_0000
    modifies a
    ensures a[..] == Shuffled(old(a[..]), time, a.Length)
    ensures multiset(a[..]) == multiset(old(a[..]))
  {
    hide Draw;
    for i := 0 to a.Length
      invariant a[..] == Shuffled(old(a[..]), time, i)
      invariant multiset(a[..]) == multiset(old(a[..]))
    {
      var j := i + Draw(time, i) % (a.Length - i);
      a[i], a[j] := a[j], a[i];
    }
  }

  /** Rearranging a list without repetitions gives a list without repetitions of the same members. */
  lemma SameMembers(s: seq<Witness>, t: seq<Witness>)
    requires multiset(s) == multiset(t)
    ensures |s| == |t| && (Distinct(t) ==> Distinct(s)) && forall w :: w in s <==> w in t
  {
    assert |s| == |multiset(s)| && |t| == |multiset(t)|;
    forall w ensures w in s <==> w in t {
      assert w in s <==> w in multiset(s);
      assert w in t <==> w in multiset(t);
    }
    if Distinct(t) {
      forall i, j | 0 <= i < j < |s| ensures s[i] != s[j] {
        OccursOnce(t, s[i]);
        TwoOccurrences(s, i, j);
      }
    }
  }

  lemma {:induction false} OccursOnce(t: seq<Witness>, w: Witness)
    requires Distinct(t)
    ensures multiset(t)[w] <= 1
  {
    if t != [] {
      var rest := t[..|t| - 1];
      assert t == rest + [t[|t| - 1]];
      OccursOnce(rest, w);
      if t[|t| - 1] == w {
        assert w !in rest;
      }
    }
  }

  lemma TwoOccurrences(s: seq<Witness>, i: nat, j: nat)
    requires i < j < |s|
    ensures s[i] == s[j] ==> 2 <= multiset(s)[s[i]]
  {
    assert s == s[..j] + [s[j]] + s[j + 1..];
    assert s[i] in s[..j];
  }

  lemma ElectedAlone(top: seq<Witness>, ws: Candidates, limit: nat)
    requires Elected(top, ws, limit)
    ensures |top| <= limit && Distinct(top) && forall i :: 0 <= i < |top| ==> top[i] in ws && ws[top[i]].keyed
  {
  }

  lemma ActiveKeyed(elected: seq<Witness>, runners: seq<Witness>, order: seq<Witness>, ws: Candidates, limit: nat,
                    w: Witness)
    requires Elected(elected, ws, limit) && Lists(order, ws) && w in elected + runners
    requires forall i :: 0 <= i < |runners| ==> runners[i] in order && runners[i] in ws && ws[runners[i]].keyed
    ensures w in ws && ws[w].keyed
  {
  }

  lemma RunnersFirst(order: seq<Witness>, ws: Candidates, top: seq<Witness>, runners: seq<Witness>, processed: nat,
                     time: int)
    requires ByTime(order, ws) && processed <= |order| && forall i :: 0 <= i < |runners| ==> runners[i] in order[..processed]
    requires 0 < processed ==> time == ws[order[processed - 1]].scheduled
    requires forall w :: w in ws && ws[w].keyed && w !in top && w !in runners ==> time <= ws[w].scheduled
    ensures forall i :: 0 <= i < |runners| ==> runners[i] in order && runners[i] in ws
    ensures forall w :: w in ws && ws[w].keyed && w !in top && w !in runners ==> forall r :: r in runners && r in ws ==> ws[r].scheduled <= ws[w].scheduled
  {
    forall r | r in runners && r in ws ensures ws[r].scheduled <= time {
      var i :| 0 <= i < processed && order[i] == r;
    }
  }

  lemma TimeInRange(order: seq<Witness>, ws: Candidates, processed: nat, clock: int, time: int)
    requires Lists(order, ws) && AllOnTime(ws, clock) && processed <= |order| && clock < U128
    requires time == if processed == 0 then clock else ws[order[processed - 1]].scheduled
    ensures time < U128
  {
    if 0 < processed {
      var w := order[processed - 1];
      assert w in ws;
      assert OnTime(ws[w], clock);
    }
  }

  lemma VotesKnown(ws: Candidates, clock: int)
    requires AllOnTime(ws, clock)
    ensures Polled(ws)
  {
    forall w | w in ws ensures 0 <= ws[w].votes { assert OnTime(ws[w], clock); }
  }

  lemma StartLapping(order: seq<Witness>, ws: Candidates, time: int)
    ensures Lapped(order, 0, ws, ws, time)
  {
  }

  lemma LappedHere(order: seq<Witness>, i: nat, was: Candidates, now: Candidates, time: int)
    requires Lists(order, was) && Lapped(order, i, was, now, time) && i < |order|
    ensures order[i] in now && now[order[i]] == was[order[i]]
  {
  }

  lemma RestartedAlike(was: Candidates, now: Candidates)
    requires now.Keys == was.Keys
    requires forall w :: w in now ==> now[w].votes == was[w].votes && now[w].keyed == was[w].keyed
    ensures Restarted(now).Keys == was.Keys && forall w :: w in was ==> Restarted(now)[w] == NextLap(was[w], 0) && Restarted(now)[w].votes == was[w].votes && Restarted(now)[w].keyed == was[w].keyed
  {
  }
}
