/** Block slots, whose turn each one is, and the block number the witnesses have made irreversible. */
module Slots {
  import opened Basics
  import opened Division

  const BLOCK_INTERVAL: int := 3

  // ----- turns -----

  /** get_scheduled_witness */
  function ScheduledWitness(round: seq<Witness>, aslot: nat, slot: nat): Witness
    requires round != []
  {
    round[(aslot + slot) % |round|]
  }

  /** Any run of as many slots as there are witnesses gives each of them exactly one turn. */
  lemma EveryoneOncePerRound(round: seq<Witness>, aslot: nat, slot: nat, k: nat)
    requires k < |round| && forall i, j :: 0 <= i < j < |round| ==> round[i] != round[j]
    ensures exists t: nat :: slot <= t < slot + |round| && ScheduledWitness(round, aslot, t) == round[k]
    ensures forall t: nat, u: nat :: slot <= t < u < slot + |round| ==> ScheduledWitness(round, aslot, t) != ScheduledWitness(round, aslot, u)
  {
    var n, r := |round|, (aslot + slot) % |round|;
    var t := slot + if r <= k then k - r else k - r + n;
    Rotate(aslot + slot, t - slot, n);
    assert aslot + t == aslot + slot + (t - slot);
    assert ScheduledWitness(round, aslot, t) == round[k];
    forall t: nat, u: nat | slot <= t < u < slot + n ensures ScheduledWitness(round, aslot, t) != ScheduledWitness(round, aslot, u) {
      Rotate(aslot + slot, t - slot, n);
      Rotate(aslot + slot, u - slot, n);
      assert aslot + t == aslot + slot + (t - slot) && aslot + u == aslot + slot + (u - slot);
    }
  }

  lemma Rotate(base: nat, i: nat, n: nat)
    requires i < n
    ensures (base + i) % n == if base % n + i < n then base % n + i else base % n + i - n
  {
    var q, r := base / n, base % n;
    assert base + i == q * n + r + i;
    if r + i < n {
      QuotientIs(base + i, n, q, r + i);
    } else {
      assert (q + 1) * n == q * n + n;
      QuotientIs(base + i, n, q + 1, r + i - n);
    }
  }

  // ----- slot times -----

  /** get_slot_time for slots from 1 on */
  function SlotTime(head: nat, time: nat, slot: nat): int
  {
    if slot == 0 then 0
    else if head == 0 then time + slot * BLOCK_INTERVAL
    else time / BLOCK_INTERVAL * BLOCK_INTERVAL + slot * BLOCK_INTERVAL
  }

  /** get_slot_at_time */
  function SlotAtTime(head: nat, time: nat, when: int): int
  {
    var first := SlotTime(head, time, 1);
    if when < first then 0 else (when - first) / BLOCK_INTERVAL + 1
  }

  /** The slot at a time is the one that has begun and not yet given way to the next, and slot times are found again. */
  lemma SlotsTile(head: nat, time: nat, when: int)
    ensures 0 <= SlotAtTime(head, time, when)
    ensures SlotAtTime(head, time, when) == 0 <==> when < SlotTime(head, time, 1)
    ensures 0 < SlotAtTime(head, time, when) ==>
      SlotTime(head, time, SlotAtTime(head, time, when)) <= when < SlotTime(head, time, SlotAtTime(head, time, when) + 1)
    ensures forall slot: nat :: 0 < slot ==> SlotAtTime(head, time, SlotTime(head, time, slot)) == slot
    ensures forall slot: nat :: 0 < slot && 0 < head ==>
      SlotTime(head, time, slot) % BLOCK_INTERVAL == 0 && 0 <= time - (SlotTime(head, time, slot) - slot * BLOCK_INTERVAL) < BLOCK_INTERVAL
    ensures forall slot: nat :: 0 < slot ==> SlotTime(0, time, slot) == time + slot * BLOCK_INTERVAL
  {
  }

  // ----- irreversibility -----

  const START_VOTING_BLOCK: int := 28800 * 30
  /** STEEMIT_IRREVERSIBLE_THRESHOLD, in hundredths of a percent */
  const THRESHOLD: int := 7500

  function Below(s: seq<int>, v: int): nat
  {
    if s == [] then 0 else Below(s[..|s| - 1], v) + if s[|s| - 1] < v then 1 else 0
  }

  function AtMost(s: seq<int>, v: int): nat
  {
    if s == [] then 0 else AtMost(s[..|s| - 1], v) + if s[|s| - 1] <= v then 1 else 0
  }

  lemma {:induction false} CountBounds(s: seq<int>, v: int)
    ensures Below(s, v) <= AtMost(s, v) <= |s|
    ensures AtMost(s, v) < |s| ==> exists i :: 0 <= i < |s| && v < s[i]
    ensures v in s ==> Below(s, v) < AtMost(s, v)
  {
    if s != [] {
      var rest := s[..|s| - 1];
      CountBounds(rest, v);
      if AtMost(rest, v) < |rest| {
        var i :| 0 <= i < |rest| && v < rest[i];
        assert v < s[i];
      }
    }
  }

  lemma {:induction false} NothingBelowLeast(s: seq<int>, v: int)
    requires forall i :: 0 <= i < |s| ==> v <= s[i]
    ensures Below(s, v) == 0
  {
    if s != [] {
      NothingBelowLeast(s[..|s| - 1], v);
    }
  }

  /** With no value strictly between, being below the next value is being at most this one. */
  lemma {:induction false} NextValue(s: seq<int>, v: int, u: int)
    requires v < u && forall i :: 0 <= i < |s| ==> s[i] <= v || u <= s[i]
    ensures Below(s, u) == AtMost(s, v)
  {
    if s != [] {
      NextValue(s[..|s| - 1], v, u);
    }
  }

  method Least(s: seq<int>) returns (v: int)
    requires s != []
    ensures v in s && forall i :: 0 <= i < |s| ==> v <= s[i]
  {
    v := s[0];
    for k := 1 to |s|
      invariant v in s && forall i :: 0 <= i < k ==> v <= s[i]
    {
      if s[k] < v {
        v := s[k];
      }
    }
  }

  /** The value nth_element leaves at position k: at most k values are below it and more than k are at most it. */
  method NthElement(s: seq<int>, k: nat) returns (v: int)
    requires k < |s|
    ensures v in s && Below(s, v) <= k < AtMost(s, v)
  {
    v := Least(s);
    NothingBelowLeast(s, v);
    while AtMost(s, v) <= k
      invariant v in s && Below(s, v) <= k
      decreases |s| - AtMost(s, v)
    {
      CountBounds(s, v);
      var u := LeastAbove(s, v);
      NextValue(s, v, u);
      CountBounds(s, u);
      v := u;
    }
  }

  method LeastAbove(s: seq<int>, v: int) returns (u: int)
    requires exists i :: 0 <= i < |s| && v < s[i]
    ensures u in s && v < u && forall i :: 0 <= i < |s| ==> s[i] <= v || u <= s[i]
  {
    var found := false;
    u := v;
    for k := 0 to |s|
      invariant found ==> u in s && v < u
      invariant forall i :: 0 <= i < k && v < s[i] ==> found && u <= s[i]
    {
      if v < s[k] && (!found || s[k] < u) {
        found, u := true, s[k];
      }
    }
  }

  /** How many of the numbers are at least v. */
  function AtLeast(s: seq<int>, v: int): int
  {
    |s| - Below(s, v)
  }

  class Finality {
    var head: nat
    var lib: nat
    var confirmed: map<Witness, nat>      // last_confirmed_block_num

    constructor ()
      ensures Valid() && head == 0 && lib == 0
    {
      head, lib, confirmed := 0, 0, map[];
    }

    ghost predicate Valid()
      reads this
    {
      && lib <= head
      && (head < START_VOTING_BLOCK ==> lib == if head > MAX_WITNESSES then head - MAX_WITNESSES else 0)
      && forall w :: w in confirmed ==> confirmed[w] <= head
    }

    function Confirmations(round: seq<Witness>): seq<int>
      reads this
    {
      var c := confirmed;
      seq(|round|, i requires 0 <= i < |round| => if round[i] in c then c[round[i]] else 0)
    }

    /**
     A block by `signer` and then update_last_irreversible_block: the number never falls and never
     passes the head, and once voting decides it moves only to a block confirmed by three quarters.
     */
    method NextBlock(signer: Witness, round: seq<Witness>)
      requires Valid() && round != []
      modifies this
      ensures Valid() && head == old(head) + 1 && old(lib) <= lib <= head
      ensures confirmed == old(confirmed)[signer := head]
      ensures START_VOTING_BLOCK <= head ==>
        && (lib != old(lib) ==> AtLeast(Confirmations(round), lib) * HUNDRED_PERCENT >= THRESHOLD * |round|)
        && (forall v :: AtLeast(Confirmations(round), v) >= |round| - (HUNDRED_PERCENT - THRESHOLD) * |round| / HUNDRED_PERCENT && v in Confirmations(round) ==> v <= lib)
    {
      head := head + 1;
      confirmed := confirmed[signer := head];
      if head < START_VOTING_BLOCK {
        if head > MAX_WITNESSES {
          lib := head - MAX_WITNESSES;
        }
        return;
      }
      var numbers := Confirmations(round);
      var offset := (HUNDRED_PERCENT - THRESHOLD) * |round| / HUNDRED_PERCENT;
      forall i | 0 <= i < |numbers| ensures 0 <= numbers[i] <= head {
        var w := round[i];
        assert w in confirmed ==> confirmed[w] <= head;
      }
      var v := NthElement(numbers, offset);
      forall u | u in numbers && AtLeast(numbers, u) >= |round| - offset ensures u <= v {
        MoreBelow(numbers, v, u);
      }
      if lib < v {
        lib := v;
      }
    }
  }

  lemma {:induction false} MoreBelow(s: seq<int>, v: int, u: int)
    ensures v < u ==> AtMost(s, v) <= Below(s, u)
  {
    if s != [] {
      MoreBelow(s[..|s| - 1], v, u);
    }
  }
}
