/** Witness candidates and the virtual time they are scheduled by. */
module Witnesses {
  import opened Basics
  import opened Division

  /** VIRTUAL_SCHEDULE_LAP_LENGTH2: the largest 128-bit number */
  const LAP: int := U128 - 1

  /** The scheduling part of a witness object. All times are unsigned 128-bit numbers. */
  datatype Candidate = Candidate(votes: int, keyed: bool, position: int, lastUpdate: int, scheduled: int)

  /** A new witness object: no votes yet and the latest possible scheduled time. */
  function NewCandidate(keyed: bool): Candidate
  {
    Candidate(0, keyed, 0, 0, LAP)
  }

  /**
   A scheduled time is never in the past and no update is in the future; it is when the rest of the lap
   is run, or the end of time.
   */
  ghost predicate OnTime(c: Candidate, clock: int)
  {
    && 0 <= c.lastUpdate <= clock <= c.scheduled
    && 0 <= c.position < U128
    && 0 <= c.votes
    && c.scheduled == Min(c.lastUpdate + (LAP - c.position) / (c.votes + 1), LAP)
  }

  ghost predicate AllOnTime(witnesses: map<Witness, Candidate>, clock: int)
  {
    && 0 <= clock < U128
    && forall w :: w in witnesses ==> OnTime(witnesses[w], clock)
  }

  /** The bookkeeping of adjust_witness_vote, in wrapping 128-bit arithmetic. */
  function Reschedule(c: Candidate, clock: int, delta: int): (r: Candidate)
    requires 0 <= c.votes + delta
  {
    var position := (c.position + c.votes * ((clock - c.lastUpdate) % U128)) % U128;
    var votes := c.votes + delta;
    var scheduled := (clock + (LAP - position) / (votes + 1)) % U128;
    c.(votes := votes, position := position, lastUpdate := clock,
       scheduled := if scheduled < clock then LAP else scheduled)
  }

  lemma QuotientBounds(x: int, d: int)
    requires 0 <= x && 0 < d
    ensures 0 <= x / d <= x
  {
    assert x == x / d * d + x % d;
    CancelPositive(0, x / d + 1, d);
    CancelPositive(x / d, x, d);
    assert x <= x * d by { CancelPositive(1, d, d); ProductNonNegative(x, d - 1); }
  }

  /** A 128-bit sum that comes out below its first part has wrapped. */
  lemma WrapSeen(clock: int, wait: int)
    requires 0 <= clock < U128 && 0 <= wait < U128
    ensures var sum := (clock + wait) % U128; (if sum < clock then LAP else sum) == Min(clock + wait, LAP)
  {
    if clock + wait < U128 {
      QuotientIs(clock + wait, U128, 0, clock + wait);
    } else {
      QuotientIs(clock + wait, U128, 1, clock + wait - U128);
    }
  }

  /** Exact meaning of the wrap-around test: the scheduled time saturates instead of wrapping. */
  lemma RescheduleSaturates(c: Candidate, clock: int, delta: int)
    requires 0 <= c.votes + delta && 0 <= clock < U128
    ensures var r := Reschedule(c, clock, delta);
            && r.scheduled == Min(clock + (LAP - r.position) / (r.votes + 1), LAP)
            && OnTime(r, clock)
            && r.votes == c.votes + delta && r.keyed == c.keyed
  {
    var r := Reschedule(c, clock, delta);
    var left, d := LAP - r.position, r.votes + 1;
    assert r.votes == c.votes + delta && 0 <= left <= LAP;
    QuotientBounds(left, d);
    WrapSeen(clock, left / d);
  }

  // ----- positions -----

  /** How far a witness has run at a given time: at the speed of its votes since its last update, modulo 2^128. */
  ghost function Progress(c: Candidate, time: int): int
  {
    (c.position + c.votes * (time - c.lastUpdate)) % U128
  }

  /** An update changes the speed and the time of arrival, never the distance already run. */
  lemma PositionAdvances(c: Candidate, clock: int, delta: int)
    requires 0 <= c.votes + delta
    ensures var r := Reschedule(c, clock, delta);
      r.lastUpdate == clock && r.position == Progress(r, clock) == Progress(c, clock)
  {
    var e := clock - c.lastUpdate;
    var q := e / U128;
    var x, k := c.position + c.votes * (e % U128), c.votes * q;
    assert e == q * U128 + e % U128;
    assert c.votes * e == c.votes * (e % U128) + k * U128 by { Spread(c.votes, e % U128, q, U128); }
    AddMultiple(x, k, U128);
    var r := Reschedule(c, clock, delta);
    assert r.votes * (clock - clock) == 0;
  }

  lemma Spread(v: int, a: int, q: int, m: int)
    ensures v * (q * m + a) == v * a + (v * q) * m
  {
    assert v * (q * m + a) == v * (q * m) + v * a;
    assert v * (q * m) == (v * q) * m;
  }

  lemma AddMultiple(x: int, k: int, m: int)
    requires 0 < m
    ensures (x + k * m) % m == x % m
  {
    var q := x / m;
    assert (q + k) * m == q * m + k * m;
    QuotientIs(x + k * m, m, q + k, x % m);
  }

  /** Progress goes on from any point on the way. */
  lemma ProgressGoesOn(c: Candidate, t1: int, t2: int)
    ensures Progress(c, t2) == (Progress(c, t1) + c.votes * (t2 - t1)) % U128
  {
    var x, y := c.position + c.votes * (t1 - c.lastUpdate), c.votes * (t2 - t1);
    assert c.votes * (t1 - c.lastUpdate) + y == c.votes * (t2 - c.lastUpdate);
    var k := x / U128;
    assert x + y == (x % U128 + y) + k * U128;
    AddMultiple(x % U128 + y, k, U128);
  }

  /** The outcome of an update depends on the candidate only through its progress, its votes and its key. */
  lemma SameUpdate(c: Candidate, d: Candidate, clock: int, x: int, y: int)
    requires 0 <= c.votes + x == d.votes + y && c.keyed == d.keyed && Progress(c, clock) == Progress(d, clock)
    ensures Reschedule(c, clock, x) == Reschedule(d, clock, y)
  {
    PositionAdvances(c, clock, x);
    PositionAdvances(d, clock, y);
    hide Progress;
    var r, s := Reschedule(c, clock, x), Reschedule(d, clock, y);
    assert r.position == s.position;
  }

  /** An update in between that changes no vote is forgotten by the next one. */
  lemma UpdatesForgotten(c: Candidate, t1: int, t2: int, delta: int)
    requires 0 <= c.votes && 0 <= c.votes + delta
    ensures Reschedule(Reschedule(c, t1, 0), t2, delta) == Reschedule(c, t2, delta)
  {
    var r := Reschedule(c, t1, 0);
    PositionAdvances(c, t1, 0);
    ProgressGoesOn(c, t1, t2);
    ProgressGoesOn(r, t1, t2);
    assert r.votes == c.votes && r.keyed == c.keyed;
    hide Progress, Reschedule;
    SameUpdate(r, c, t2, delta, delta);
  }

  /** Two changes of the votes at one time are one. */
  lemma UpdatesJoin(c: Candidate, clock: int, x: int, y: int)
    requires 0 <= c.votes + x && 0 <= c.votes + x + y
    ensures Reschedule(Reschedule(c, clock, x), clock, y) == Reschedule(c, clock, x + y)
  {
    var r := Reschedule(c, clock, x);
    PositionAdvances(c, clock, x);
    assert r.votes == c.votes + x && r.keyed == c.keyed;
    hide Progress, Reschedule;
    SameUpdate(r, c, clock, y, x + y);
  }

  /** Up to the scheduled time a witness stays on its lap, and the position does not wrap. */
  lemma OnTheWay(c: Candidate, clock: int)
    requires OnTime(c, c.lastUpdate) && c.lastUpdate <= clock <= c.scheduled
    ensures Progress(c, clock) == c.position + c.votes * (clock - c.lastUpdate) <= LAP
  {
    var left, e, d := LAP - c.position, clock - c.lastUpdate, c.votes + 1;
    assert left == left / d * d + left % d;
    CancelPositive(e, left / d, d);
    assert e * d == c.votes * e + e;
    ProductNonNegative(c.votes, e);
    SmallRemainder(c.position + c.votes * e, U128);
  }

  /**
   An update without a change of votes does not keep the scheduled time: the lap is run at the speed of
   the votes and divided by one more, so e units of virtual time put the arrival off by e / (votes + 1).
   */
  lemma UpdateDelays(c: Candidate, clock: int)
    requires OnTime(c, c.lastUpdate) && c.lastUpdate <= clock <= c.scheduled
    ensures var r, left, e, d := Reschedule(c, clock, 0), LAP - c.position, clock - c.lastUpdate, c.votes + 1;
      && r.scheduled == Min(c.lastUpdate + (left + e) / d, LAP) && c.scheduled <= r.scheduled
      && (r.scheduled == c.scheduled <==> LAP <= c.lastUpdate + left / d || left % d + e < d)
  {
    var r, left, e, d := Reschedule(c, clock, 0), LAP - c.position, clock - c.lastUpdate, c.votes + 1;
    OnTheWay(c, clock);
    PositionAdvances(c, clock, 0);
    RescheduleSaturates(c, clock, 0);
    hide Reschedule, Progress;
    PutOff(left, c.votes, e);
    QuotientGrows(left, e, d);
    var due, late := left / d, (left + e) / d;
    assert r.scheduled == Min(c.lastUpdate + late, LAP) && c.scheduled == Min(c.lastUpdate + due, LAP);
  }

  lemma PutOff(left: int, votes: int, e: int)
    requires 0 <= votes
    ensures e + (left - votes * e) / (votes + 1) == (left + e) / (votes + 1)
  {
    assert e * (votes + 1) == votes * e + e;
    AddQuotient(left - votes * e, e, votes + 1);
  }

  lemma SmallRemainder(x: int, m: int)
    requires 0 <= x < m
    ensures x % m == x
  {
    QuotientIs(x, m, 0, x);
  }

  lemma AddQuotient(x: int, k: int, d: int)
    requires 0 < d
    ensures (x + k * d) / d == x / d + k
  {
    assert (x / d + k) * d == x / d * d + k * d;
    QuotientIs(x + k * d, d, x / d + k, x % d);
  }

  lemma QuotientGrows(x: int, e: int, d: int)
    requires 0 < d && 0 <= e
    ensures x / d <= (x + e) / d
    ensures (x + e) / d == x / d <==> x % d + e < d
  {
    var q := x / d;
    assert x == q * d + x % d;
    AddQuotient(x % d + e, q, d);
    if x % d + e < d {
      SmallQuotient(x % d + e, d);
    } else {
      AtLeastOne(x % d + e, d);
    }
  }

  lemma SmallQuotient(x: int, d: int)
    requires 0 <= x < d
    ensures x / d == 0
  {
    QuotientIs(x, d, 0, x);
  }

  lemma AtLeastOne(x: int, d: int)
    requires 0 < d <= x
    ensures 1 <= x / d
  {
    var q := x / d;
    assert x == q * d + x % d;
    if q <= 0 {
      CancelPositive(q, 0, d);
    }
  }

  /** Without a vote the arrival moves with every update: here from LAP / 2 + 1 to as much later as time has passed. */
  lemma UpdateDelaysExample()
    ensures var c := Candidate(0, true, LAP / 2, 0, LAP - LAP / 2);
      OnTime(c, 0) && Reschedule(c, 1000, 0).scheduled == c.scheduled + 1000
  {
    var c := Candidate(0, true, LAP / 2, 0, LAP - LAP / 2);
    assert (LAP - c.position) / 1 == LAP - LAP / 2;
    UpdateDelays(c, 1000);
  }

  /** Every witness there was has run as far as before, and has its key. */
  ghost predicate SameProgress(was: map<Witness, Candidate>, now: map<Witness, Candidate>, clock: int)
  {
    && was.Keys <= now.Keys
    && forall w :: w in was ==> Progress(now[w], clock) == Progress(was[w], clock) && now[w].keyed == was[w].keyed
  }

  lemma ProgressKept(was: map<Witness, Candidate>, mid: map<Witness, Candidate>, now: map<Witness, Candidate>,
                     clock: int)
    requires SameProgress(was, mid, clock) && SameProgress(mid, now, clock)
    ensures SameProgress(was, now, clock)
  {
    hide Progress;
    forall w | w in was ensures Progress(now[w], clock) == Progress(was[w], clock) && now[w].keyed == was[w].keyed {
      assert w in mid;
    }
  }

  lemma ProgressSame(ws: map<Witness, Candidate>, clock: int)
    ensures SameProgress(ws, ws, clock)
  {
  }

  lemma OneUpdateKeeps(ws: map<Witness, Candidate>, w: Witness, clock: int, delta: int)
    requires w in ws && 0 <= ws[w].votes + delta
    ensures SameProgress(ws, ws[w := Reschedule(ws[w], clock, delta)], clock)
  {
    PositionAdvances(ws[w], clock, delta);
    hide Progress;
  }
}
