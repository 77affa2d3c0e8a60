/** Chain synchronisation: the synopsis one peer sends, the reply of the other, and how it is taken in. */
module Sync {
  import opened Basics
  import opened Curves

  /** A block id carries its number. */
  datatype Id = Id(num: nat, hash: int)

  const ZERO: Id := Id(0, 0)

  /** ids[n - 1] is the id of block n. */
  ghost predicate ChainIds(ids: seq<Id>)
  {
    forall i :: 0 <= i < |ids| ==> ids[i].num == i + 1
  }

  ghost predicate Consecutive(ids: seq<Id>)
  {
    forall i :: 0 <= i < |ids| ==> ids[i].num == ids[0].num + i
  }

  // ----- the block numbers of a synopsis -----

  function Next(low: int, top: int): int
    requires low <= top
  {
    low + (top - low + 2) / 2
  }

  /** From the lowest block, always half of the remaining way. */
  function Marks(low: int, top: int): seq<int>
    decreases top - low
  {
    if top < low then [] else [low] + Marks(Next(low, top), top)
  }

  function MarksUpTo(low: int, top: int, cut: int): seq<int>
    decreases top - low
  {
    if top < low || cut < low then [] else [low] + MarksUpTo(Next(low, top), top, cut)
  }

  function MarksFrom(low: int, top: int, first: int): seq<int>
    decreases top - low
  {
    if top < low then [] else (if first <= low then [low] else []) + MarksFrom(Next(low, top), top, first)
  }

  lemma {:induction false} MarksBegin(low: int, top: int)
    requires low <= top
    ensures Marks(low, top) != [] && Marks(low, top)[0] == low
  {
  }

  /** Strictly increasing, inside the range, and ending exactly at the top. */
  lemma {:induction false} MarksClimb(low: int, top: int)
    requires low <= top
    ensures var m := Marks(low, top);
      && m != [] && m[0] == low && m[|m| - 1] == top
      && (forall i, j :: 0 <= i < j < |m| ==> m[i] < m[j])
      && (forall i :: 0 <= i < |m| ==> low <= m[i] <= top)
    decreases top - low
  {
    var next := Next(low, top);
    if next <= top {
      MarksClimb(next, top);
    } else {
      assert Marks(next, top) == [];
    }
  }

  /** Logarithmic length, exactly: two to the length minus one is at most the span, two to the length exceeds it. */
  lemma {:induction false} MarksAreFew(low: int, top: int)
    requires low <= top
    ensures 0 < |Marks(low, top)| && Pow2(|Marks(low, top)| - 1) <= top - low + 1 < Pow2(|Marks(low, top)|)
    decreases top - low
  {
    var next := Next(low, top);
    if next <= top {
      MarksAreFew(next, top);
    } else {
      assert Marks(next, top) == [];
      assert Pow2(1) == 2 * Pow2(0);
    }
  }

  /** The two halves of the loop, one in the chain code and one in the network code, join without a seam. */
  lemma {:induction false} HalvesJoin(low: int, top: int, cut: int)
    ensures MarksUpTo(low, top, cut) + MarksFrom(low, top, cut + 1) == Marks(low, top)
    decreases top - low
  {
    if low <= top {
      if low <= cut {
        HalvesJoin(Next(low, top), top, cut);
      } else {
        AllFromAbove(low, top, cut + 1);
      }
    }
  }

  lemma {:induction false} AllFromAbove(low: int, top: int, first: int)
    requires first <= low
    ensures MarksFrom(low, top, first) == Marks(low, top)
    decreases top - low
  {
    if low <= top {
      AllFromAbove(Next(low, top), top, first);
    }
  }

  lemma {:induction false} MarksUpToRange(low: int, top: int, cut: int)
    ensures forall i :: 0 <= i < |MarksUpTo(low, top, cut)| ==> low <= MarksUpTo(low, top, cut)[i] <= cut
    decreases top - low
  {
    if low <= top && low <= cut {
      MarksUpToRange(Next(low, top), top, cut);
    }
  }

  lemma {:induction false} MarksFromRange(low: int, top: int, first: int)
    ensures forall i :: 0 <= i < |MarksFrom(low, top, first)| ==> first <= MarksFrom(low, top, first)[i] <= top
    decreases top - low
  {
    if low <= top {
      MarksFromRange(Next(low, top), top, first);
    }
  }

  function IdAt(ids: seq<Id>, n: int): Id
  {
    if 1 <= n <= |ids| then ids[n - 1] else ZERO
  }

  /** The ids at the given block numbers. */
  function At(ids: seq<Id>, marks: seq<int>): seq<Id>
  {
    if marks == [] then [] else [IdAt(ids, marks[0])] + At(ids, marks[1..])
  }

  lemma {:induction false} AtJoins(ids: seq<Id>, a: seq<int>, b: seq<int>)
    ensures At(ids, a + b) == At(ids, a) + At(ids, b)
  {
    if a == [] {
      assert a + b == b;
    } else {
      assert (a + b)[1..] == a[1..] + b;
      AtJoins(ids, a[1..], b);
    }
  }

  lemma {:induction false} AtEach(ids: seq<Id>, marks: seq<int>)
    ensures |At(ids, marks)| == |marks| && forall i :: 0 <= i < |marks| ==> At(ids, marks)[i] == IdAt(ids, marks[i])
  {
    if marks != [] {
      AtEach(ids, marks[1..]);
    }
  }

  /**
   get_blockchain_synopsis from where the bounds are known: main chain up to `nonFork`, then the fork's
   own blocks, leaving room for `after` ids the network code appends.
   */
  method BackendSynopsis(main: seq<Id>, nonFork: nat, fork: seq<Id>, low: nat, after: nat) returns (synopsis: seq<Id>)
    requires nonFork <= |main| && 1 <= low <= nonFork + |fork|
    ensures var ids := main[..nonFork] + fork; synopsis == At(ids, MarksUpTo(low, |ids| + after, |ids|))
  {
    hide At, MarksUpTo, Next;
    ghost var ids := main[..nonFork] + fork;
    var high := nonFork + |fork|;
    var top := high + after;
    var at := low;
    synopsis := [];
    var more := true;
    while more
      invariant 1 <= at && more == (at <= high)
      invariant synopsis + At(ids, MarksUpTo(at, top, high)) == At(ids, MarksUpTo(low, top, high))
      decreases high - at, more
    {
      OneMark(ids, at, top, high);
      var id := if at <= nonFork then main[at - 1] else fork[at - nonFork - 1];
      assert id == IdAt(ids, at);
      synopsis := synopsis + [id];
      NextIs(at, top);
      at := at + (top - at + 2) / 2;
      more := at <= high;
    }
    NoMarks(ids, at, top, high);
  }

  lemma NextIs(low: int, top: int)
    requires low <= top
    ensures Next(low, top) == low + (top - low + 2) / 2 && low < Next(low, top)
  {
  }

  lemma NoMarks(ids: seq<Id>, at: int, top: int, cut: int)
    requires cut < at
    ensures At(ids, MarksUpTo(at, top, cut)) == []
  {
  }

  lemma NoMarksFrom(ids: seq<Id>, at: int, top: int, first: int)
    requires top < at
    ensures At(ids, MarksFrom(at, top, first)) == []
  {
  }

  lemma OneMark(ids: seq<Id>, at: int, top: int, cut: int)
    requires at <= cut <= top
    ensures At(ids, MarksUpTo(at, top, cut)) == [IdAt(ids, at)] + At(ids, MarksUpTo(Next(at, top), top, cut))
  {
    var rest := MarksUpTo(Next(at, top), top, cut);
    assert ([at] + rest)[1..] == rest;
  }

  lemma OneMarkFrom(ids: seq<Id>, at: int, top: int, first: int)
    requires at <= top
    ensures At(ids, MarksFrom(at, top, first)) == (if first <= at then [IdAt(ids, at)] else []) + At(ids, MarksFrom(Next(at, top), top, first))
  {
    var rest := MarksFrom(Next(at, top), top, first);
    assert first <= at ==> ([at] + rest)[1..] == rest;
    assert at < first ==> MarksFrom(at, top, first) == rest;
  }

  /**
   create_blockchain_synopsis_for_peer: the ids the peer already announced are appended by the same
   recurrence, continued from the lowest block of the first half.
   */
  method CompleteSynopsis(synopsis: seq<Id>, items: seq<Id>) returns (full: seq<Id>)
    requires items != [] && 1 <= items[0].num && (synopsis != [] ==> 1 <= synopsis[0].num <= items[0].num + |items| - 1)
    ensures var low := if synopsis == [] then 1 else synopsis[0].num; var first := items[0].num; var top := first + |items| - 1;
      full == synopsis + At(Padded(first, items), MarksFrom(low, top, first))
  {
    hide At, MarksFrom, Next;
    var first := items[0].num;
    var top := first + |items| - 1;
    var low := if synopsis == [] then 1 else synopsis[0].num;
    ghost var ids := Padded(first, items);
    full := synopsis;
    var at := low;
    var more := true;
    while more
      invariant 1 <= at && more == (at <= top)
      invariant full + At(ids, MarksFrom(at, top, first)) == synopsis + At(ids, MarksFrom(low, top, first))
      decreases top - at, more
    {
      OneMarkFrom(ids, at, top, first);
      if first <= at {
        assert items[at - first] == IdAt(ids, at);
        full := full + [items[at - first]];
      }
      NextIs(at, top);
      at := at + (top - at + 2) / 2;
      more := at <= top;
    }
    NoMarksFrom(ids, at, top, first);
  }

  /** The announced ids placed at their block numbers. */
  ghost function Padded(first: int, items: seq<Id>): seq<Id>
    requires 1 <= first
  {
    seq(first - 1, i => ZERO) + items
  }

  lemma HalvesAgree(known: seq<Id>, items: seq<Id>, low: int)
    ensures var top := |known| + |items|;
      At(known, MarksUpTo(low, top, |known|)) + At(Padded(|known| + 1, items), MarksFrom(low, top, |known| + 1)) == At(known + items, Marks(low, top))
  {
    hide Marks, MarksUpTo, MarksFrom, At;
    var top, ids := |known| + |items|, known + items;
    HalvesJoin(low, top, |known|);
    var a, b := MarksUpTo(low, top, |known|), MarksFrom(low, top, |known| + 1);
    AtJoins(ids, a, b);
    MarksUpToRange(low, top, |known|);
    MarksFromRange(low, top, |known| + 1);
    forall i | 0 <= i < |a| ensures IdAt(known, a[i]) == IdAt(ids, a[i]) {
      assert a[i] <= |known|;
    }
    AtAgree(known, ids, a);
    forall i | 0 <= i < |b| ensures IdAt(Padded(|known| + 1, items), b[i]) == IdAt(ids, b[i]) {
      assert |known| + 1 <= b[i] <= top;
    }
    AtAgree(Padded(|known| + 1, items), ids, b);
  }

  /**
   The synopsis for a peer whose announced ids, if any, directly follow the blocks already known: the
   marked ids of the joined chain, from the lowest undoable block to the last one.
   */
  method SynopsisForPeer(main: seq<Id>, nonFork: nat, fork: seq<Id>, low: nat, items: seq<Id>) returns (full: seq<Id>)
    requires nonFork <= |main| && ChainIds(main[..nonFork] + fork + items)
    requires if nonFork + |fork| == 0 then low == 1 else 1 <= low <= nonFork + |fork|
    ensures var ids := main[..nonFork] + fork + items;
      && full == At(ids, Marks(low, |ids|))
      && (ids != [] ==> full != [] && full[|full| - 1] == ids[|ids| - 1])
  {
    hide Marks, MarksUpTo, MarksFrom, At, Padded, Next;
    ghost var known := main[..nonFork] + fork;
    ghost var top := |known| + |items|;
    assert known + items == main[..nonFork] + fork + items;
    full := [];
    if 0 < nonFork + |fork| {
      full := BackendSynopsis(main, nonFork, fork, low, |items|);
      FirstHalfBegins(known, items, low);
    } else {
      NothingKnown(known, low, top);
    }
    if items != [] {
      assert items[0] == (known + items)[|known|];
      full := CompleteSynopsis(full, items);
    } else {
      NoMarksBeyond(Padded(|known| + 1, items), low, top);
    }
    HalvesAgree(known, items, low);
    if known + items != [] {
      LastMark(known + items, low);
    }
  }

  lemma {:induction false} NoMarksBeyond(ids: seq<Id>, low: int, top: int)
    ensures At(ids, MarksFrom(low, top, top + 1)) == []
    decreases top - low
  {
    if low <= top {
      NextClimbs(low, top);
      NoMarksBeyond(ids, Next(low, top), top);
    }
  }

  lemma NextClimbs(low: int, top: int)
    requires low <= top
    ensures low < Next(low, top)
  {
  }

  lemma FirstHalfBegins(known: seq<Id>, items: seq<Id>, low: int)
    requires 1 <= low <= |known| && ChainIds(known + items)
    ensures var half := At(known, MarksUpTo(low, |known| + |items|, |known|)); half != [] && half[0].num == low
  {
    OneMark(known, low, |known| + |items|, |known|);
    assert IdAt(known, low) == (known + items)[low - 1];
  }

  lemma NothingKnown(known: seq<Id>, low: int, top: int)
    requires known == [] && 0 < low
    ensures At(known, MarksUpTo(low, top, |known|)) == []
  {
  }

  lemma LastMark(ids: seq<Id>, low: int)
    requires 1 <= low <= |ids|
    ensures var s := At(ids, Marks(low, |ids|)); s != [] && s[|s| - 1] == ids[|ids| - 1]
  {
    MarksClimb(low, |ids|);
    AtEach(ids, Marks(low, |ids|));
  }

  lemma {:induction false} AtAgree(x: seq<Id>, y: seq<Id>, marks: seq<int>)
    requires forall i :: 0 <= i < |marks| ==> IdAt(x, marks[i]) == IdAt(y, marks[i])
    ensures At(x, marks) == At(y, marks)
  {
    if marks != [] {
      AtAgree(x, y, marks[1..]);
    }
  }

  // ----- the reply -----

  /** is_included_block: the id is the one our preferred chain has at its number. */
  predicate Included(chain: seq<Id>, id: Id)
  {
    1 <= id.num <= |chain| && chain[id.num - 1] == id
  }

  /** The last synopsis entry the responder recognises, searched from the end. */
  method FindCommon(chain: seq<Id>, synopsis: seq<Id>) returns (found: bool, i: nat)
    ensures found ==> i < |synopsis| && (synopsis[i] == ZERO || Included(chain, synopsis[i]))
    ensures found ==> forall j :: i < j < |synopsis| ==> synopsis[j] != ZERO && !Included(chain, synopsis[j])
    ensures !found ==> forall j :: 0 <= j < |synopsis| ==> synopsis[j] != ZERO && !Included(chain, synopsis[j])
  {
    i := |synopsis|;
    while 0 < i
      invariant
        && i <= |synopsis| && forall j :: i <= j < |synopsis| ==> synopsis[j] != ZERO && !Included(chain, synopsis[j])
    {
      i := i - 1;
      if synopsis[i] == ZERO || Included(chain, synopsis[i]) {
        return true, i;
      }
    }
    return false, 0;
  }

  /** The reply is the stretch of the chain from the last recognised entry i on. */
  ghost predicate Answers(chain: seq<Id>, synopsis: seq<Id>, limit: nat, reply: seq<Id>, i: int)
  {
    && 0 <= i < |synopsis| && (synopsis[i] == ZERO || Included(chain, synopsis[i]))
    && (forall j :: i < j < |synopsis| ==> synopsis[j] != ZERO && !Included(chain, synopsis[j]))
    && Max(synopsis[i].num, 1) - 1 <= |chain|
    && reply == chain[Max(synopsis[i].num, 1) - 1..Min(|chain|, Max(synopsis[i].num, 1) - 1 + limit)]
  }

  /** get_block_ids; false when no entry of the synopsis is known. */
  method GetBlockIds(chain: seq<Id>, synopsis: seq<Id>, limit: nat) returns (ok: bool, reply: seq<Id>, remaining: int)
    requires ChainIds(chain)
    ensures ok ==> remaining == (if reply == [] then 0 else |chain| - reply[|reply| - 1].num) && 0 <= remaining
    ensures ok && (synopsis == [] || synopsis == [ZERO] || chain == []) ==> reply == chain[..Min(limit, |chain|)]
    ensures ok && chain != [] && synopsis != [] && synopsis != [ZERO] ==>
      exists i :: Answers(chain, synopsis, limit, reply, i)
    ensures ok <==> chain == [] || synopsis == [] || exists j :: 0 <= j < |synopsis| && (synopsis[j] == ZERO || Included(chain, synopsis[j]))
  {
    reply, remaining := [], 0;
    if chain == [] {
      return true, reply, remaining;
    }
    var start := 0;
    ghost var at: int := -1;
    if synopsis != [] && synopsis != [ZERO] {
      var found, i := FindCommon(chain, synopsis);
      if !found {
        return false, reply, remaining;
      }
      start := synopsis[i].num;
      at := i;
    } else if synopsis == [ZERO] {
      assert synopsis[0] == ZERO;
    }
    reply := Collect(chain, start, limit);
    if reply != [] {
      var last := reply[|reply| - 1];
      assert last in chain;
      if last.num < |chain| {
        remaining := |chain| - last.num;
      }
    }
    ok := true;
    assert 0 <= at ==> Answers(chain, synopsis, limit, reply, at);
  }

  /** Up to `limit` ids of the chain from block `start` on; block 0 does not exist. */
  method Collect(chain: seq<Id>, start: nat, limit: nat) returns (reply: seq<Id>)
    requires start <= |chain| && chain != []
    ensures reply == chain[Max(start, 1) - 1..Min(|chain|, Max(start, 1) - 1 + limit)]
  {
    ghost var from := Max(start, 1) - 1;
    reply := [];
    var num := start;
    while num <= |chain| && |reply| < limit
      invariant start <= num <= |chain| + 1 && |reply| <= limit && (num == 0 ==> reply == [] && start == 0)
      invariant 0 < num ==> |reply| == num - 1 - from && reply == chain[from..from + |reply|]
    {
      if 0 < num {
        assert chain[from..from + |reply|] + [chain[num - 1]] == chain[from..from + |reply| + 1];
        reply := reply + [chain[num - 1]];
      }
      num := num + 1;
    }
  }

  /** The checks of on_blockchain_item_ids_inventory_message on a reply to a synopsis. */
  predicate Accepts(synopsis: seq<Id>, reply: seq<Id>)
  {
    reply != [] ==>
      && (forall i :: 1 <= i < |reply| ==> reply[i].num == reply[0].num + i)
      && (if synopsis == [] then reply[0].num == 1 else reply[0] in synopsis)
  }

  lemma StretchIsConsecutive(chain: seq<Id>, from: nat, to: nat)
    requires ChainIds(chain) && from <= to <= |chain|
    ensures forall i :: 0 <= i < |chain[from..to]| ==> chain[from..to][i].num == from + 1 + i
  {
  }

  // ----- how far back the reply starts -----

  /** The largest mark that is not above c. */
  function MarkBelow(low: int, top: int, c: int): int
    requires low <= top
    decreases top - low
  {
    var next := Next(low, top);
    if next <= top && next <= c then MarkBelow(next, top, c) else low
  }

  /** It lies at most twice as far from the end as c does. */
  lemma {:induction false} MarkBelowIsNear(low: int, top: int, c: int)
    requires low <= c <= top
    ensures low <= MarkBelow(low, top, c) <= c && top - MarkBelow(low, top, c) <= 2 * (top - c)
    decreases top - low
  {
    var next := Next(low, top);
    if next <= top && next <= c {
      MarkBelowIsNear(next, top, c);
    }
  }

  lemma {:induction false} MarkBelowIsLast(low: int, top: int, c: int, i: nat)
    requires low <= c <= top && i < |Marks(low, top)| && Marks(low, top)[i] <= c
    requires forall j :: i < j < |Marks(low, top)| ==> c < Marks(low, top)[j]
    ensures Marks(low, top)[i] == MarkBelow(low, top, c)
    decreases top - low
  {
    var next, m := Next(low, top), Marks(low, top);
    if next <= top {
      var rest := Marks(next, top);
      MarksBegin(next, top);
      assert forall j :: 1 <= j < |m| ==> m[j] == rest[j - 1];
      if next <= c {
        assert m[1] == next;
        assert 0 < i;
        forall j | i - 1 < j < |rest| ensures c < rest[j] {
          assert m[j + 1] == rest[j];
        }
        MarkBelowIsLast(next, top, c, i - 1);
      } else if 0 < i {
        MarksClimb(next, top);
      }
    } else {
      assert Marks(next, top) == [];
    }
  }

  /** Two chains of hashed blocks: equal up to block c and different from there on. */
  ghost predicate Diverge(mine: seq<Id>, theirs: seq<Id>, c: nat)
  {
    && c <= |mine| && c <= |theirs| && (forall i :: 0 <= i < c ==> mine[i] == theirs[i])
    && forall i :: c <= i < |mine| && i < |theirs| ==> mine[i] != theirs[i]
  }

  lemma IncludedUpTo(mine: seq<Id>, theirs: seq<Id>, c: nat, n: int)
    requires ChainIds(mine) && ChainIds(theirs) && Diverge(mine, theirs, c) && 1 <= n <= |mine|
    ensures IdAt(mine, n) != ZERO && IdAt(mine, n).num == n && (Included(theirs, IdAt(mine, n)) <==> n <= c)
  {
  }

  /** In a synopsis of my chain, exactly the marks up to the divergence are recognised. */
  lemma RecognisedMarks(mine: seq<Id>, theirs: seq<Id>, low: nat, c: nat)
    requires ChainIds(mine) && ChainIds(theirs) && Diverge(mine, theirs, c) && 1 <= low <= |mine|
    ensures var marks := Marks(low, |mine|); var synopsis := At(mine, marks);
      && |synopsis| == |marks| && synopsis != [] && synopsis[0].num == low
      && forall i :: 0 <= i < |marks| ==> synopsis[i] != ZERO && synopsis[i].num == marks[i] && (Included(theirs, synopsis[i]) <==> marks[i] <= c)
  {
    hide Marks, At;
    var marks := Marks(low, |mine|);
    AtEach(mine, marks);
    MarksClimb(low, |mine|);
    forall i | 0 <= i < |marks| {
      IncludedUpTo(mine, theirs, c, marks[i]);
    }
  }

  lemma AnswerIsGood(mine: seq<Id>, theirs: seq<Id>, low: nat, limit: nat, c: nat, reply: seq<Id>, i: int)
    requires ChainIds(mine) && ChainIds(theirs) && Diverge(mine, theirs, c) && 1 <= low <= c && 0 < limit
    requires Answers(theirs, At(mine, Marks(low, |mine|)), limit, reply, i)
    ensures reply != [] && Accepts(At(mine, Marks(low, |mine|)), reply)
    ensures var start := reply[0].num; low <= start <= c && |mine| - start <= 2 * (|mine| - c)
    ensures reply == theirs[reply[0].num - 1..Min(|theirs|, reply[0].num - 1 + limit)]
  {
    hide Marks, At, MarkBelow;
    var marks, synopsis := Marks(low, |mine|), At(mine, Marks(low, |mine|));
    RecognisedMarks(mine, theirs, low, c);
    assert Included(theirs, synopsis[i]);
    var n := synopsis[i].num;
    MarkBelowIsLast(low, |mine|, c, i);
    MarkBelowIsNear(low, |mine|, c);
    StretchIsConsecutive(theirs, n - 1, Min(|theirs|, n - 1 + limit));
    assert reply[0] == theirs[n - 1] == synopsis[i];
  }

  /**
   An honest responder answers the synopsis exactly when the chains agree on its first entry or one of
   them is empty. The answer passes the requester's checks: it is the responder's chain from the start if
   the requester has nothing, and otherwise a stretch that begins at one of the synopsis entries, no
   further from the end than twice the depth at which the chains diverge.
   */
  method Exchange(mine: seq<Id>, theirs: seq<Id>, low: nat, limit: nat, ghost c: nat) returns (ok: bool, reply: seq<Id>)
    requires ChainIds(mine) && ChainIds(theirs) && Diverge(mine, theirs, c) && 1 <= low && (mine != [] ==> low <= |mine|) && 0 < limit
    ensures ok <==> mine == [] || theirs == [] || low <= c
    ensures ok ==> Accepts(At(mine, Marks(low, |mine|)), reply)
    ensures ok && (mine == [] || theirs == []) ==> reply == theirs[..Min(limit, |theirs|)]
    ensures ok && mine != [] && theirs != [] ==>
      && reply != [] && low <= reply[0].num <= c && |mine| - reply[0].num <= 2 * (|mine| - c)
      && reply == theirs[reply[0].num - 1..Min(|theirs|, reply[0].num - 1 + limit)]
  {
    hide Marks, At, Answers, Accepts;
    var synopsis := At(mine, Marks(low, |mine|));
    var remaining;
    if mine == [] {
      NoSynopsis(mine, low);
    } else {
      SynopsisMarks(mine, theirs, low, c);
    }
    ok, reply, remaining := GetBlockIds(theirs, synopsis, limit);
    if mine == [] || theirs == [] {
      WholeAnswer(theirs, limit, synopsis);
    } else if ok {
      ghost var i :| Answers(theirs, synopsis, limit, reply, i);
      AnsweredWithin(mine, theirs, low, c, limit, reply, i);
      AnswerIsGood(mine, theirs, low, limit, c, reply, i);
    }
  }

  lemma NoSynopsis(mine: seq<Id>, low: nat)
    requires mine == [] && 1 <= low
    ensures At(mine, Marks(low, |mine|)) == []
  {
  }

  /** From the beginning of a chain any checks pass when nothing was asked about. */
  lemma WholeAnswer(theirs: seq<Id>, limit: nat, synopsis: seq<Id>)
    requires ChainIds(theirs) && (synopsis == [] || theirs == [])
    ensures Accepts(synopsis, theirs[..Min(limit, |theirs|)])
  {
  }

  /**
   The entries of a synopsis are the requester's own blocks, and the responder knows exactly those
   up to the divergence.
   */
  lemma SynopsisMarks(mine: seq<Id>, theirs: seq<Id>, low: nat, c: nat)
    requires ChainIds(mine) && ChainIds(theirs) && Diverge(mine, theirs, c) && 1 <= low <= |mine|
    ensures var synopsis := At(mine, Marks(low, |mine|));
      && synopsis != [] && synopsis != [ZERO] && synopsis[0].num == low
      && (Included(theirs, synopsis[0]) <==> low <= c)
      && forall i :: 0 <= i < |synopsis| ==> synopsis[i] != ZERO && low <= synopsis[i].num && (Included(theirs, synopsis[i]) ==> low <= c)
  {
    RecognisedMarks(mine, theirs, low, c);
    MarksClimb(low, |mine|);
    hide Marks, At;
  }

  lemma AnsweredWithin(mine: seq<Id>, theirs: seq<Id>, low: nat, c: nat, limit: nat, reply: seq<Id>, i: int)
    requires ChainIds(mine) && ChainIds(theirs) && Diverge(mine, theirs, c) && 1 <= low <= |mine|
    requires Answers(theirs, At(mine, Marks(low, |mine|)), limit, reply, i)
    ensures low <= c
  {
    SynopsisMarks(mine, theirs, low, c);
  }

  // ----- taking the reply in -----

  /** The queue up to the last place k of the reply's first id, then the reply. */
  ghost predicate SplicedAt(was: seq<Id>, received: seq<Id>, now: seq<Id>, k: int)
    requires received != []
  {
    0 <= k < |was| && was[k] == received[0] && received[0] !in was[k + 1..] && now == was[..k] + received
  }

  class Peer {
    var itemsToGet: seq<Id>      // ids_of_items_to_get
    var lastSeen: Id             // last_block_delegate_has_seen

    constructor ()
      ensures itemsToGet == [] && lastSeen == ZERO
    {
      itemsToGet, lastSeen := [], ZERO;
    }

    /**
     With nothing queued, ids we already have are dropped from the front, unless the first one heads the
     queue of another peer, which is still to deliver it.
     */
    method TakeFresh(received: seq<Id>, has: set<Id>, others: seq<Id>)
      requires itemsToGet == []
      modifies this
      ensures |itemsToGet| <= |received| && itemsToGet == received[|received| - |itemsToGet|..]
      ensures received != [] && received[0] in others ==> itemsToGet == received
      ensures forall i :: 0 <= i < |received| - |itemsToGet| ==> received[i] in has
      ensures itemsToGet != [] && received[0] !in others ==> itemsToGet[0] !in has
      ensures lastSeen == if itemsToGet == received then old(lastSeen) else received[|received| - |itemsToGet| - 1]
    {
      var k := 0;
      if received != [] && received[0] !in others {
        while k < |received| && received[k] in has
          invariant 0 <= k <= |received| && (forall i :: 0 <= i < k ==> received[i] in has)
          invariant itemsToGet == [] && lastSeen == if k == 0 then old(lastSeen) else received[k - 1]
        {
          lastSeen := received[k];
          k := k + 1;
        }
      }
      itemsToGet := received[k..];
    }

    /** With ids queued, the queue is cut back to the reply's first id and continued by the reply. */
    method Splice(received: seq<Id>)
      requires received != [] && itemsToGet != []
      modifies this
      ensures received[0] in old(itemsToGet) ==>
        && lastSeen == old(lastSeen) && exists k :: SplicedAt(old(itemsToGet), received, itemsToGet, k)
      ensures received[0] !in old(itemsToGet) ==> lastSeen == received[0] && itemsToGet == received[1..]
      ensures Consecutive(old(itemsToGet)) && Consecutive(received) ==> Consecutive(itemsToGet)
    {
      ghost var was := itemsToGet;
      while itemsToGet != [] && itemsToGet[|itemsToGet| - 1] != received[0]
        invariant
          && |itemsToGet| <= |was| && itemsToGet == was[..|itemsToGet|] && lastSeen == old(lastSeen)
          && received[0] !in was[|itemsToGet|..]
      {
        itemsToGet := itemsToGet[..|itemsToGet| - 1];
      }
      if itemsToGet == [] {
        lastSeen := received[0];
        itemsToGet := received[1..];
        assert Consecutive(received) ==> Consecutive(itemsToGet);
      } else {
        ghost var k := |itemsToGet| - 1;
        itemsToGet := itemsToGet[..|itemsToGet| - 1];
        itemsToGet := itemsToGet + received;
        assert itemsToGet == was[..k] + received;
        assert SplicedAt(was, received, itemsToGet, k);
      }
    }
  }
}
