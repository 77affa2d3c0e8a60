/** Applying, undoing and switching branches of blocks over any deterministic chain state. */
module Switching {
  import opened Basics
  import opened Forks

  /**
   What applying a block does to the state. Along the way the last irreversible block number is
   committed, even when the block is rejected later; `partial` is what a rejection leaves behind if
   nothing can be undone.
   */
  datatype Outcome<S> = Applied(state: S, lib: nat) | Rejected(commit: Option<nat>, partial: S)
  {
    /** The number committed, if the block got that far. */
    function Commit(): Option<nat> { if Applied? then Some(lib) else commit }

    function Lib(): nat { if Commit().Some? then Commit().value else 0 }
  }

  datatype Result = Switched | Restored | Stuck

  /** commit: undo states for blocks up to `lib` are dropped; the first one kept belongs to block base + 1. */
  function Trim<S>(stack: seq<S>, base: int, lib: int): seq<S>
  {
    stack[Min(|stack|, Max(0, lib - base))..]
  }

  /** The state before the j-th of the blocks that can still be undone, or the current one. */
  ghost function Before<S>(stack: seq<S>, state: S, j: int): S
    requires 0 <= j <= |stack|
  {
    if j < |stack| then stack[j] else state
  }

  /** Undo states are the true intermediate states: each one leads to the next by its block. */
  ghost predicate Stacked<S(!new)>(step: (S, Block) -> Outcome<S>, chain: seq<Block>, state: S, stack: seq<S>)
  {
    && |stack| <= |chain|
    && forall j :: 0 <= j < |stack| ==> Leads(step, stack[j], chain[|chain| - |stack| + j], Before(stack, state, j + 1))
  }

  ghost predicate Leads<S(!new)>(step: (S, Block) -> Outcome<S>, s: S, b: Block, t: S)
  {
    step(s, b).Applied? && step(s, b).state == t
  }

  /** Blocks sit at the height their id says, each on its predecessor. */
  ghost predicate Heights(chain: seq<Block>)
  {
    && (forall i :: 0 <= i < |chain| ==> chain[i].id.num == i + 1)
    && (forall i {:trigger chain[i]} :: 0 < i < |chain| ==> chain[i].previous == chain[i - 1].id)
    && (chain != [] ==> chain[0].previous == ZERO)
  }

  function HeadOf(chain: seq<Block>): Id
  {
    if chain == [] then ZERO else chain[|chain| - 1].id
  }

  lemma HeadHeight(chain: seq<Block>)
    requires Heights(chain)
    ensures HeadOf(chain).num == |chain|
  {
  }

  /** The state after applying the blocks one after the other, unless one of them is rejected. */
  ghost function Replay<S(!new)>(step: (S, Block) -> Outcome<S>, s: S, blocks: seq<Block>): Option<S>
  {
    if blocks == [] then Some(s) else
    var before := Replay(step, s, blocks[..|blocks| - 1]);
    if before.None? then None else
    var o := step(before.value, blocks[|blocks| - 1]);
    if o.Applied? then Some(o.state) else None
  }

  /** The highest number committed by blocks that are applied, up to and including the first rejected one. */
  ghost function Committed<S(!new)>(step: (S, Block) -> Outcome<S>, s: S, blocks: seq<Block>): nat
  {
    if blocks == [] then 0 else
    var rest := blocks[..|blocks| - 1];
    var before := Replay(step, s, rest);
    var earlier: nat := Committed(step, s, rest);
    var last := blocks[|blocks| - 1];
    if before.Some? && earlier <= step(before.value, last).Lib() then step(before.value, last).Lib() else earlier
  }

  // ----- the fork database's window -----

  /** Blocks below `cut` have been forgotten, and pushes reach back `size` blocks. */
  datatype Window = Window(cut: int, size: int)

  /** set_max_size after the commitment of a block, with the fork database's head at height `top`. */
  function Narrowed<S>(w: Window, o: Outcome<S>, num: int, top: int): Window
  {
    match o.Commit()
    case None => w
    case Some(lib) => var size := num - lib + 1; Window(Max(w.cut, Max(0, top - size)), size)
  }

  /** The window after applying blocks up to and including the first rejected one. */
  ghost function Shrunk<S(!new)>(step: (S, Block) -> Outcome<S>, s: S, blocks: seq<Block>, top: int, w: Window): Window
  {
    if blocks == [] then w else
    var rest, last := blocks[..|blocks| - 1], blocks[|blocks| - 1];
    var before := Replay(step, s, rest);
    var earlier := Shrunk(step, s, rest, top, w);
    if before.Some? then Narrowed(earlier, step(before.value, last), last.id.num, top) else earlier
  }

  /** No block is committed by its own rejected application. */
  ghost predicate Careful<S(!new)>(step: (S, Block) -> Outcome<S>)
  {
    forall s: S, b: Block :: step(s, b).Rejected? ==> step(s, b).Lib() < b.id.num
  }

  /** The current state and all undo states are what applying the chain from its beginning gives. */
  ghost predicate Rooted<S(!new)>(step: (S, Block) -> Outcome<S>, genesis: S, chain: seq<Block>, state: S, stack: seq<S>)
  {
    && |stack| <= |chain|
    && forall j :: 0 <= j <= |stack| ==> Replay(step, genesis, chain[..|chain| - |stack| + j]) == Some(Before(stack, state, j))
  }

  ghost predicate ChainGenuine(hash: Id -> Block, chain: seq<Block>)
  {
    forall i :: 0 <= i < |chain| ==> Genuine(hash, chain[i])
  }

  class Node<S(!new)> {
    const step: (S, Block) -> Outcome<S>
    const genesis: S
    ghost const hash: Id -> Block
    var chain: seq<Block>      // applied blocks; the head is the last one
    var state: S
    var stack: seq<S>          // undo states of the last |stack| blocks, oldest first

    constructor (start: S, run: (S, Block) -> Outcome<S>, ghost h: Id -> Block)
      ensures Valid() && chain == [] && state == genesis == start && stack == [] && step == run && hash == h
    {
      step, genesis, chain, state, stack, hash := run, start, [], start, [], h;
    }

    ghost predicate Valid()
      reads this
    {
      && Heights(chain) && Stacked(step, chain, state, stack) && ChainGenuine(hash, chain)
      && (Careful(step) ==> Rooted(step, genesis, chain, state, stack))
    }

    /** apply_block in an undo session of its own; committing narrows the fork database, which no undo widens again. */
    method TryApply(forks: ForkDatabase, b: Block) returns (ok: bool)
      requires Valid() && forks.Valid() && forks.head.Some? && Numbered(b) && Genuine(hash, b)
      modifies this`chain, this`state, this`stack, forks`index, forks`maxSize
      ensures Valid() && Tried(step, b, old(chain), old(state), old(stack), ok, chain, state, stack)
      ensures forks.Valid() && var w, o := Window(0, old(forks.maxSize)), step(old(state), b);
        InWindow(forks, old(forks.index), if b.previous == HeadOf(old(chain)) then Narrowed(w, o, b.id.num, forks.head.value.id.num) else w)
    {
      hide *;
      AllInWindow(forks);
      if b.previous != HeadOf(chain) {
        TriedElsewhere(step, b, chain, state, stack);
        return false;
      }
      ValidParts();
      OneHigher(chain, b);
      OneGenuine(hash, chain, b);
      var base := |chain| - |stack|;
      var o := step(state, b);
      PushStacked(step, chain, state, stack, b);
      PushRooted(step, genesis, chain, state, stack, b);
      Narrow(forks, o, b.id.num);
      match o {
        case Applied(next, lib) =>
          TriedApplied(step, b, chain, state, stack);
          TrimStacked(step, chain + [b], next, stack + [state], lib);
          TrimRooted(step, genesis, chain + [b], next, stack + [state], lib);
          chain, state, stack := chain + [b], next, Trim(stack + [state], base, lib);
          ok := true;
        case Rejected(commit, partial) =>
          TriedRejected(step, b, chain, state, stack);
          TrimStacked(step, chain, state, stack, o.Lib());
          TrimRooted(step, genesis, chain, state, stack, o.Lib());
          EmptyStacked(step, chain + [b], partial);
          SessionTrim(stack, state, base, o.Lib());
          CarefulHere(step, chain, state, b);
          Undo(b, Trim(stack + [state], base, o.Lib()), partial);
          ok := false;
      }
      PartsValid();
    }

    /** The last lines of update_last_irreversible_block. */
    method Narrow(forks: ForkDatabase, o: Outcome<S>, num: nat)
      requires forks.Valid() && forks.head.Some?
      modifies forks`index, forks`maxSize
      ensures forks.Valid() && InWindow(forks, old(forks.index), Narrowed(Window(0, old(forks.maxSize)), o, num, forks.head.value.id.num))
    {
      AboveAll(forks.index);
      if o.Commit().Some? {
        forks.SetMaxSize(num - o.Commit().value + 1);
      }
    }

    lemma ValidParts()
      requires Valid()
      ensures Heights(chain) && Stacked(step, chain, state, stack) && |stack| <= |chain| && ChainGenuine(hash, chain)
      ensures Careful(step) ==> Rooted(step, genesis, chain, state, stack)
    {
    }

    lemma PartsValid()
      requires Heights(chain) && Stacked(step, chain, state, stack) && ChainGenuine(hash, chain)
      requires Careful(step) ==> Rooted(step, genesis, chain, state, stack)
      ensures Valid()
    {
    }

    /** Leaving a failed session: its undo state is restored if it was not committed away. */
    method Undo(b: Block, session: seq<S>, partial: S)
      modifies this`chain, this`state, this`stack
      ensures session == [] ==> chain == old(chain) + [b] && state == partial && stack == []
      ensures session != [] ==>
        && chain == old(chain) && state == session[|session| - 1] && stack == session[..|session| - 1]
    {
      if session == [] {
        chain, state, stack := chain + [b], partial, [];
      } else {
        state, stack := session[|session| - 1], session[..|session| - 1];
      }
    }

    /**
     pop_block: the head block must be found and the fork database's head must have a living parent. What
     was committed is found in the block log, but there is no undo state for it and nothing is undone.
     */
    method Pop(forks: ForkDatabase, held: map<Id, Block>) returns (ok: bool)
      requires Valid() && forks.Valid() && forks.head.Some? && Indexed(held) && AllGenuine(forks.hash, held)
      modifies this`chain, this`state, this`stack, forks`head
      ensures Valid() && forks.Valid() && forks.head.Some?
      ensures ok <==>
        && (old(stack) == [] || HeadOf(old(chain)) in forks.index)
        && Down(forks.index + held, old(forks.head).value, 1).Some?
      ensures forks.head == if ok then Down(forks.index + held, old(forks.head).value, 1) else old(forks.head)
      ensures if ok && old(stack) != []
        then chain == old(chain)[..|old(chain)| - 1] && state == old(stack)[|old(stack)| - 1] && stack == old(stack)[..|old(stack)| - 1]
        else chain == old(chain) && state == old(state) && stack == old(stack)
    {
      hide Stacked, Heights, ChainGenuine, Careful, Rooted, Down, Indexed, AllGenuine;
      ValidParts();
      if stack != [] && HeadOf(chain) !in forks.index {
        return false;
      }
      ok := forks.Pop(held);
      if ok && stack != [] {
        PopStacked(step, chain, state, stack);
        PopHeights(hash, chain);
        ghost var careful := Careful(step);
        if careful {
          PopRooted(step, genesis, chain, state, stack);
        }
        chain, state, stack := chain[..|chain| - 1], stack[|stack| - 1], stack[..|stack| - 1];
      }
    }

    /**
     Popping down to a block: possible exactly when the undo states, the blocks and the ancestors of
     the fork head are there.
     */
    method PopTo(forks: ForkDatabase, held: map<Id, Block>, target: Id) returns (ok: bool)
      requires Valid() && forks.Valid() && forks.head.Some? && Indexed(held) && AllGenuine(forks.hash, held)
      requires target.num <= |chain| && target == HeadOf(chain[..target.num])
      modifies this`chain, this`state, this`stack, forks`head
      ensures Valid() && forks.Valid() && forks.head.Some?
      ensures var d := |old(chain)| - target.num;
        && (ok <==> CanPop(forks.index, held, old(forks.head).value, old(chain), |old(stack)|, d))
        && (ok ==> chain == old(chain)[..target.num] && state == Before(old(stack), old(state), |old(stack)| - d) && stack == old(stack)[..|old(stack)| - d])
        && (ok ==> forks.head == Down(forks.index + held, old(forks.head).value, d))
    {
      hide Stacked, Heights, ChainGenuine, Careful, Rooted, Down, Indexed, AllGenuine, Valid, ForkDatabase.Valid,
        CanPop, TopKnown, HeadOf, Numbered, Taken;
      ghost var m, d := |stack|, |chain| - target.num;
      ghost var alive, start := forks.index + held, forks.head.value;
      ghost var popped: nat, walked: nat := 0, 0;
      NothingPopped(forks.index, held, start, chain);
      ValidParts();
      NothingTaken(chain, stack, state);
      while HeadOf(chain) != target
        invariant Valid() && forks.Valid() && forks.head.Some? && popped <= d
        invariant walked == popped || (popped == m < d && m <= walked)
        invariant Taken(old(chain), old(stack), old(state), popped, chain, stack, state)
        invariant forks.head == Down(alive, start, walked) && TopKnown(forks.index, old(chain), popped)
        decreases forks.head.value.id.num
      {
        OneTaken(old(chain), old(stack), old(state), popped, chain, stack, state);
        NotThereYet(old(chain), |chain|, target);
        ghost var was := forks.head.value;
        DownOne(alive, start, walked);
        HeadNumbered(forks);
        OneLower(forks.index, held, was);
        TopAt(forks.index, old(chain), popped);
        ok := Pop(forks, held);
        if !ok {
          PopBlocked(forks.index, held, start, old(chain), m, d, popped, walked);
          return false;
        }
        walked := walked + 1;
        if popped < m {
          popped := popped + 1;
        }
      }
      ValidParts();
      HeadHeight(chain);
      OneTaken(old(chain), old(stack), old(state), popped, chain, stack, state);
      AllPopped(forks.index, held, start, old(chain), m, d);
      AllTaken(old(chain), old(stack), old(state), popped, chain, stack, state);
      return true;
    }

    /** Applying a branch upwards, stopping at the first block that is rejected. */
    method ApplyAll(forks: ForkDatabase, blocks: seq<Block>) returns (count: nat)
      requires Valid() && forks.Valid() && forks.head.Some? && Continues(HeadOf(chain), blocks) && ChainGenuine(hash, blocks)
      modifies this`chain, this`state, this`stack, forks`index, forks`maxSize
      ensures Valid() && count <= |blocks| && Replay(step, old(state), blocks[..count]).Some?
      ensures count < |blocks| ==> Replay(step, old(state), blocks[..count + 1]).None?
      ensures |old(chain)| <= |chain| && chain[..|old(chain)|] == old(chain)
      ensures count == |blocks| ==> chain == old(chain) + blocks && Replay(step, old(state), blocks) == Some(state)
      ensures var committed := Committed(step, old(state), blocks[..Min(count + 1, |blocks|)]);
        if committed <= |old(chain)| then chain == old(chain) + blocks[..count] && count <= |stack| && Before(stack, state, |stack| - count) == old(state)
        else |stack| < |chain| - |old(chain)|
      ensures forks.Valid() && InWindow(forks, old(forks.index),
        Shrunk(step, old(state), blocks[..Min(count + 1, |blocks|)], forks.head.value.id.num, Window(0, old(forks.maxSize))))
    {
      hide Stacked, Heights, Replay, Committed, Trim, Before, Depth, Tried, Stopped, Continues, HeadOf, Numbered, Valid, ForkDatabase.Valid, InWindow, Shrunk,
           Narrowed, ChainGenuine, Genuine, Careful, Rooted;
      count := 0;
      ghost var f, s, top, w := |chain|, state, forks.head.value.id.num, Window(0, forks.maxSize);
      NothingPlayed(step, state, blocks, stack);
      NothingShrunk(step, state, blocks, forks);
      while count < |blocks|
        invariant
          && 0 <= count <= |blocks| && Valid() && chain == old(chain) + blocks[..count]
          && Replay(step, s, blocks[..count]) == Some(state)
        invariant Depth(stack, state, s, f, count, Committed(step, s, blocks[..count]))
        invariant forks.Valid() && forks.head == old(forks.head) && InWindow(forks, old(forks.index), Shrunk(step, s, blocks[..count], top, w))
      {
        var b := blocks[count];
        ghost var c, x, t, i, z := chain, state, stack, forks.index, forks.maxSize;
        HeadAfter(old(chain), blocks, count);
        GenuineAt(hash, blocks, count);
        WindowIs(forks, old(forks.index), Shrunk(step, s, blocks[..count], top, w));
        ValidParts();
        var ok := TryApply(forks, b);
        Progress(step, s, blocks, count, old(chain), c, x, t, ok, chain, state, stack);
        ShrunkMore(step, s, blocks, count, top, w, forks, old(forks.index), i, z);
        if !ok {
          StoppedMeans(step, s, blocks, count, old(chain), chain, state, stack);
          return;
        }
        count := count + 1;
      }
      assert blocks[..count] == blocks;
      DepthMeans(stack, state, s, f, count, Committed(step, s, blocks));
    }

    /**
     A whole branch: applied to its end, or stopped with the way back open exactly when nothing
     above the start was committed.
     */
    method ApplyBranch(forks: ForkDatabase, blocks: seq<Block>) returns (count: nat)
      requires Valid() && forks.Valid() && forks.head.Some? && Continues(HeadOf(chain), blocks) && ChainGenuine(hash, blocks)
      modifies this`chain, this`state, this`stack, forks`index, forks`maxSize
      ensures Valid() && |old(chain)| <= |chain| && chain[..|old(chain)|] == old(chain)
      ensures count == Accepted(step, old(state), blocks) <= |blocks| && (count == |blocks| <==> Replay(step, old(state), blocks).Some?)
      ensures count == |blocks| ==> chain == old(chain) + blocks && Replay(step, old(state), blocks) == Some(state)
      ensures Reached(old(chain), old(state), blocks, count, Committed(step, old(state), blocks), chain, state, stack)
      ensures forks.Valid() && InWindow(forks, old(forks.index), Shrunk(step, old(state), blocks, forks.head.value.id.num, Window(0, old(forks.maxSize))))
    {
      hide Stacked, Heights, Replay, Committed, Accepted, Before, Continues, Shrunk, InWindow, ChainGenuine, Valid,
        ForkDatabase.Valid;
      ghost var top, w := forks.head.value.id.num, Window(0, forks.maxSize);
      count := ApplyAll(forks, blocks);
      FirstRejection(step, old(state), blocks, count, top, w);
    }

    /**
     The fork switch of _push_block, from a new tip whose branch `first` meets the current chain's branch
     `second`: pop the old blocks, apply the new ones, and go back when one of them is rejected.
     */
    method SwitchFork(forks: ForkDatabase, first: seq<Block>, second: seq<Block>) returns (r: Result)
      requires Valid() && forks.Valid() && hash == forks.hash && Switchable(forks.index, chain, first, second) && forks.head == Some(first[0])
      modifies this`chain, this`state, this`stack, forks`index, forks`head, forks`maxSize
      ensures Valid() && forks.Valid() && forks.head.Some?
      ensures SwitchOutcome(step, old(ViewOf(this, forks)), ViewOf(this, forks), first, second, r)
    {
      hide *;
      ghost var v := ViewOf(this, forks);
      ViewParts(this, forks);
      SwitchableParts(forks.index, chain, first, second);
      ghost var f, n := |chain| - |second|, |second|;
      ghost var s, base := ForkState(stack, state, second), chain[..f];
      ValidParts();
      HeadNumbered(forks);
      SecondIsTail(step, chain, state, stack, second);
      Upwards(forks, first);
      Upwards(forks, second);
      FirstPops(forks.index, chain, stack, first, second);
      var fork := second[|second| - 1].previous;
      var held := Entries(forks.index, second);
      HeldGenuine(forks, second);
      assert |chain| - fork.num == n;
      var ok := PopTo(forks, map[], fork);
      assert ok <==> CanPop(v.index, map[], first[0], v.chain, |v.stack|, n);
      if !ok {
        ViewParts(this, forks);
        NotPoppable(step, v, ViewOf(this, forks), first, second);
        return Stuck;
      }
      ForkStateIs(v.stack, v.state, second);
      r := Advance(forks, first, second, held, fork, v, base, s);
    }

    /** The second half of a switch: the old blocks are popped and the new ones come. */
    method Advance(forks: ForkDatabase, first: seq<Block>, second: seq<Block>, held: map<Id, Block>, fork: Id,
                   ghost v: View<S>, ghost base: seq<Block>, ghost s: S) returns (r: Result)
      requires Valid() && forks.Valid() && hash == forks.hash && Indexed(held) && AllGenuine(forks.hash, held) && held == Entries(v.index, second)
      requires Switchable(v.index, v.chain, first, second) && 0 < |second| < |first| && |second| <= |v.stack| && Indexed(v.index)
      requires s == ForkState(v.stack, v.state, second) && Replay(step, s, Reversed(second)) == Some(v.state)
      requires chain == base && state == s && forks.index == v.index && forks.maxSize == v.maxSize
      requires forks.head == Some(first[|second|])
      requires Heights(base) && fork == HeadOf(base) && fork.num == |base| && |base| == |v.chain| - |second| && v.chain[..|base|] == base
      requires v.chain == base + Reversed(second) && fork == second[|second| - 1].previous
      requires |Reversed(first)| == |first| && Continues(fork, Reversed(first)) && ChainGenuine(hash, Reversed(first))
      requires Continues(fork, Reversed(second)) && ChainGenuine(hash, Reversed(second)) && Numbered(second[0]) && Genuine(hash, second[0])
      modifies this`chain, this`state, this`stack, forks`index, forks`head, forks`maxSize
      ensures Valid() && forks.Valid() && forks.head.Some?
      ensures SwitchOutcome(step, v, ViewOf(this, forks), first, second, r)
    {
      hide *;
      ghost var w, committed := Shrunk(step, s, Reversed(first), first[|second|].id.num,
                                       Window(0, v.maxSize)), Committed(step, s, Reversed(first));
      var count := ApplyBranch(forks, Reversed(first));
      WindowIs(forks, v.index, w);
      if count == |first| {
        ViewParts(this, forks);
        SwitchedHere(step, v, ViewOf(this, forks), first, second);
        return Switched;
      }
      WayBackIs(step, v, first, second);
      ghost var left := Above(v.index, w.cut) - Ids(first[..|first| - count]);
      var ok := Retreat(forks, first, second, held, count, fork, base, s, committed);
      ViewParts(this, forks);
      if ok {
        ghost var w2 := Shrunk(step, s, Reversed(second), forks.head.value.id.num, Window(0, w.size));
        WindowIs(forks, left, w2);
        RestoredHere(step, v, ViewOf(this, forks), first, second, s, count, w, left, w2);
        return Restored;
      }
      StuckHere(step, v, ViewOf(this, forks), first, second, s);
      return Stuck;
    }

    /**
     After a rejection: the rejected block and those above it leave the fork database, whose head goes back
     to the old tip; the accepted ones are popped and the old branch is applied again.
     */
    method Retreat(forks: ForkDatabase, first: seq<Block>, second: seq<Block>, held: map<Id, Block>, count: nat,
                   fork: Id,
                   ghost base: seq<Block>, ghost s: S, ghost committed: nat) returns (ok: bool)
      requires Valid() && forks.Valid() && hash == forks.hash && forks.head.Some? && Indexed(held) && AllGenuine(forks.hash, held)
      requires Heights(base) && fork == HeadOf(base) && |base| <= |chain| && chain[..|base|] == base && count < |first|
      requires second != [] && Numbered(second[0]) && Genuine(hash, second[0])
      requires Continues(fork, Reversed(second)) && ChainGenuine(hash, Reversed(second)) && Replay(step, s, Reversed(second)).Some?
      requires |Reversed(first)| == |first| && Reached(base, s, Reversed(first), count, committed, chain, state, stack)
      modifies this`chain, this`state, this`stack, forks`index, forks`head, forks`maxSize
      ensures Valid() && forks.Valid() && forks.head.Some?
      ensures var left := old(forks.index) - Ids(first[..|first| - count]);
        && (ok <==> committed <= |base| && CanPop(left, held, second[0], base + Reversed(first)[..count], count, count))
        && (ok ==> chain == base + Reversed(second) && Replay(step, s, Reversed(second)) == Some(state))
        && (ok ==> forks.head == Down(left + held, second[0], count))
        && (ok ==> InWindow(forks, left, Shrunk(step, s, Reversed(second), forks.head.value.id.num, Window(0, old(forks.maxSize)))))
    {
      hide *;
      forks.RemoveAll(first[..|first| - count]);
      forks.SetHead(second[0]);
      ReachedDepth(base, s, Reversed(first), count, committed, chain, state, stack, forks.index, held, second[0]);
      ValidParts();
      HeightsPrefix(chain, base);
      ok := PopTo(forks, held, fork);
      if ok {
        var again := ApplyBranch(forks, Reversed(second));
      }
    }
  }

  // ----- what a fork switch does -----

  /** Everything of a node and its fork database that a switch may change. */
  datatype View<S> = View(chain: seq<Block>, state: S, stack: seq<S>, index: map<Id, Block>, head: Option<Block>, maxSize: int)

  ghost function ViewOf<S(!new)>(node: Node<S>, forks: ForkDatabase): View<S>
    reads node, forks
  {
    View(node.chain, node.state, node.stack, forks.index, forks.head, forks.maxSize)
  }

  lemma ViewParts<S(!new)>(node: Node<S>, forks: ForkDatabase)
    ensures ViewOf(node, forks) == View(node.chain, node.state, node.stack, forks.index, forks.head, forks.maxSize)
  {
  }

  ghost predicate InWindow(forks: ForkDatabase, index: map<Id, Block>, w: Window)
    reads forks
  {
    forks.index == Above(index, w.cut) && forks.maxSize == w.size
  }

  /** The last d blocks of the chain are in the index. */
  ghost predicate TopKnown(index: map<Id, Block>, chain: seq<Block>, d: nat)
  {
    d <= |chain| && forall i :: |chain| - d <= i < |chain| ==> chain[i].id in index
  }

  /**
   d blocks can be popped: there are undo states for them, they are found, and the fork head has
   that many living ancestors.
   */
  ghost predicate CanPop(index: map<Id, Block>, held: map<Id, Block>, head: Block, chain: seq<Block>, depth: nat, d: nat)
  {
    d <= depth && TopKnown(index, chain, d) && Down(index + held, head, d).Some?
  }

  /**
   Where a branch applied from `start` has got: back to the start leads a way exactly when nothing
   above it was committed.
   */
  ghost predicate Reached<S(!new)>(start: seq<Block>, s: S, blocks: seq<Block>, count: nat, committed: nat, chain: seq<Block>, state: S, stack: seq<S>)
  {
    if committed <= |start|
    then count <= |blocks| && chain == start + blocks[..count] && count <= |stack| && Before(stack, state, |stack| - count) == s
    else |stack| < |chain| - |start|
  }

  /** Two branches from a common block, the first one longer, the second one the top of the chain, all of it known. */
  ghost predicate Switchable(index: map<Id, Block>, chain: seq<Block>, first: seq<Block>, second: seq<Block>)
  {
    && Downwards(first) && Downwards(second) && |second| < |first|
    && first[|first| - 1].previous == second[|second| - 1].previous
    && Tail(chain, second) && Known(index, first) && Known(index, second)
  }

  /**
   The way back from a rejected branch: nothing above the fork point was committed; the accepted blocks
   have not been forgotten; and the old tip has as many known ancestors, also not forgotten, as blocks
   were accepted. What is forgotten is decided by the commitments of the new branch.
   */
  ghost predicate WayBack<S(!new)>(step: (S, Block) -> Outcome<S>, v: View<S>, first: seq<Block>, second: seq<Block>)
    requires |second| < |first| && second != []
  {
    var s, up, f := ForkState(v.stack, v.state, second), Reversed(first), |v.chain| - |second|;
    var a, cut := Accepted(step, s, up), Shrunk(step, s, up, first[|second|].id.num, Window(0, v.maxSize)).cut;
    && Committed(step, s, up) <= f
    && (0 < a ==> cut <= f + 1)
    && (|second| <= a ==> cut <= f + |second| - a)
    && Down(v.index, second[0], a).Some?
  }

  /**
   The result of a fork switch and everything it leaves. It succeeds exactly when the old branch has its
   undo states and every new block applies; it restores the original chain and state exactly when some
   new block is rejected and the way back is open. The fork database's head does not follow the chain:
   each pop took it one block down.
   */
  ghost predicate SwitchOutcome<S(!new)>(step: (S, Block) -> Outcome<S>, v: View<S>, u: View<S>, first: seq<Block>, second: seq<Block>, r: Result)
  {
    && |second| < |first| && second != [] && |second| <= |v.chain|
    && var s, up, again, n := ForkState(v.stack, v.state, second), Reversed(first), Reversed(second), |second|;
       var a, w := Accepted(step, s, up), Shrunk(step, s, up, first[n].id.num, Window(0, v.maxSize));
       && (r == Switched <==> n <= |v.stack| && Replay(step, s, up).Some?)
       && (r == Switched ==> u == View(v.chain[..|v.chain| - n] + up, u.state, u.stack, Above(v.index, w.cut), Some(first[n]), w.size)
                             && Replay(step, s, up) == Some(u.state))
       && (r == Restored <==> n <= |v.stack| && Replay(step, s, up).None? && WayBack(step, v, first, second))
       && (r == Restored ==> a <= |first| && u.head.Some? && u.head == Down(v.index, second[0], a)
                             && var w2 := Shrunk(step, s, again, u.head.value.id.num, Window(0, w.size));
                                u == View(v.chain, v.state, u.stack, Above(Above(v.index, w.cut) - Ids(first[..|first| - a]), w2.cut), u.head, w2.size))
  }

  /** The state at the fork point, where it can still be reached. */
  ghost function ForkState<S(!new)>(stack: seq<S>, state: S, second: seq<Block>): S
  {
    if |second| <= |stack| then Before(stack, state, |stack| - |second|) else state
  }

  /** How many blocks apply before the first rejection. */
  ghost function Accepted<S(!new)>(step: (S, Block) -> Outcome<S>, s: S, blocks: seq<Block>): nat
  {
    if Replay(step, s, blocks).Some? then |blocks| else Accepted(step, s, blocks[..|blocks| - 1])
  }

  function Reversed(s: seq<Block>): seq<Block>
  {
    seq(|s|, i requires 0 <= i < |s| => s[|s| - 1 - i])
  }

  ghost predicate Downwards(branch: seq<Block>)
  {
    branch != [] && Linked(branch) && forall i :: 0 <= i < |branch| ==> Numbered(branch[i])
  }

  /** The branch is the top of the chain, tip first. */
  ghost predicate Tail(chain: seq<Block>, branch: seq<Block>)
  {
    |branch| <= |chain| && forall i :: 0 <= i < |branch| ==> branch[i] == chain[|chain| - 1 - i]
  }

  lemma DownwardsReversed(branch: seq<Block>)
    requires Downwards(branch)
    ensures Continues(branch[|branch| - 1].previous, Reversed(branch))
  {
    ReversedEach(branch);
    hide Reversed;
    var up, n := Reversed(branch), |branch|;
    forall i | 0 < i < n ensures up[i].previous == up[i - 1].id {
      LinkAt(branch, n - 1 - i);
    }
    forall i | 0 <= i < n ensures Numbered(up[i]) {
      assert up[i] == branch[n - 1 - i];
    }
    hide Numbered, Linked;
    assert up[0] == branch[n - 1];
  }

  lemma LinkAt(branch: seq<Block>, j: nat)
    requires Linked(branch) && j + 1 < |branch|
    ensures branch[j].previous == branch[j + 1].id
  {
  }

  lemma ReversedEach(s: seq<Block>)
    ensures |Reversed(s)| == |s| && forall i :: 0 <= i < |s| ==> Reversed(s)[i] == s[|s| - 1 - i]
  {
  }

  /** The old branch ends at the fork point, and replaying it from there gives the current state. */
  lemma SecondIsTail<S(!new)>(step: (S, Block) -> Outcome<S>, chain: seq<Block>, state: S, stack: seq<S>, second: seq<Block>)
    requires Heights(chain) && Stacked(step, chain, state, stack) && Tail(chain, second) && second != []
    ensures var f := |chain| - |second|;
      && 0 <= f && Reversed(second) == chain[f..] && Heights(chain[..f])
      && second[|second| - 1].previous == HeadOf(chain[..f]) && second[|second| - 1].previous.num == f
      && chain == chain[..f] + Reversed(second)
      && (|second| <= |stack| ==> Replay(step, ForkState(stack, state, second), Reversed(second)) == Some(state))
  {
    hide Stacked, Replay, Before, ForkState;
    TailReversed(chain, second);
    var f := |chain| - |second|;
    HeadHeight(chain[..f]);
    if |second| <= |stack| {
      ReplayStack(step, chain, state, stack, |second|);
      ForkStateIs(stack, state, second);
    }
  }

  lemma ForkStateIs<S(!new)>(stack: seq<S>, state: S, second: seq<Block>)
    requires |second| <= |stack|
    ensures ForkState(stack, state, second) == Before(stack, state, |stack| - |second|)
  {
  }

  lemma TailReversed(chain: seq<Block>, second: seq<Block>)
    requires Tail(chain, second) && second != []
    ensures Reversed(second) == chain[|chain| - |second|..] && second[|second| - 1] == chain[|chain| - |second|]
    ensures chain == chain[..|chain| - |second|] + Reversed(second)
  {
    ReversedEach(second);
    hide Reversed;
    var f := |chain| - |second|;
    forall i | 0 <= i < |second| ensures Reversed(second)[i] == chain[f..][i] {
      assert second[|second| - 1 - i] == chain[|chain| - 1 - (|second| - 1 - i)];
    }
  }

  lemma {:induction false} ReplayStack<S(!new)>(step: (S, Block) -> Outcome<S>, chain: seq<Block>, state: S, stack: seq<S>, k: nat)
    requires Stacked(step, chain, state, stack) && k <= |stack|
    ensures Replay(step, Before(stack, state, |stack| - k), chain[|chain| - k..]) == Some(state)
    decreases k
  {
    if 0 < k {
      var blocks := chain[|chain| - k..];
      PopStacked(step, chain, state, stack);
      var c, s, t := chain[..|chain| - 1], stack[|stack| - 1], stack[..|stack| - 1];
      ReplayStack(step, c, s, t, k - 1);
      assert c[|c| - (k - 1)..] == blocks[..k - 1];
      assert Leads(step, stack[|stack| - 1], chain[|chain| - 1], Before(stack, state, |stack|));
    }
  }

  /** The count of a stopped run is what the whole list accepts, and its commitments are those of the whole list. */
  lemma {:induction false} FirstRejection<S(!new)>(step: (S, Block) -> Outcome<S>, s: S, blocks: seq<Block>, count: nat, top: int, w: Window)
    requires count <= |blocks| && Replay(step, s, blocks[..count]).Some?
    requires (count < |blocks| ==> Replay(step, s, blocks[..count + 1]).None?)
    ensures Accepted(step, s, blocks) == count && (Replay(step, s, blocks).Some? <==> count == |blocks|)
    ensures Committed(step, s, blocks) == Committed(step, s, blocks[..Min(count + 1, |blocks|)])
    ensures Shrunk(step, s, blocks, top, w) == Shrunk(step, s, blocks[..Min(count + 1, |blocks|)], top, w)
    decreases |blocks|
  {
    if count == |blocks| {
      assert blocks[..count] == blocks;
    } else if count + 1 == |blocks| {
      assert blocks[..count + 1] == blocks;
      assert Accepted(step, s, blocks[..count]) == count;
    } else {
      var rest := blocks[..|blocks| - 1];
      assert rest[..count] == blocks[..count] && rest[..count + 1] == blocks[..count + 1];
      FirstRejection(step, s, rest, count, top, w);
    }
  }

  /** Each block builds on the one before it, the first on `head`. */
  ghost predicate Continues(head: Id, blocks: seq<Block>)
  {
    && (forall i :: 0 <= i < |blocks| ==> Numbered(blocks[i]))
    && (forall i {:trigger blocks[i]} :: 0 < i < |blocks| ==> blocks[i].previous == blocks[i - 1].id)
    && (blocks != [] ==> blocks[0].previous == head)
  }

  lemma HeadAfter(chain: seq<Block>, blocks: seq<Block>, i: nat)
    requires Continues(HeadOf(chain), blocks) && i < |blocks|
    ensures blocks[i].previous == HeadOf(chain + blocks[..i]) && Numbered(blocks[i])
  {
    if i == 0 {
      assert chain + blocks[..0] == chain;
    }
  }

  lemma NothingPlayed<S(!new)>(step: (S, Block) -> Outcome<S>, s: S, blocks: seq<Block>, stack: seq<S>)
    ensures Replay(step, s, blocks[..0]) == Some(s) && Committed(step, s, blocks[..0]) == 0
    ensures forall f: nat :: Depth(stack, s, s, f, 0, 0)
  {
  }

  lemma OnePlayed<S(!new)>(step: (S, Block) -> Outcome<S>, s: S, blocks: seq<Block>, i: nat)
    requires i < |blocks| && Replay(step, s, blocks[..i]).Some?
    ensures var o := step(Replay(step, s, blocks[..i]).value, blocks[i]);
      && Replay(step, s, blocks[..i + 1]) == (if o.Applied? then Some(o.state) else None)
      && Committed(step, s, blocks[..i + 1]) == Max(Committed(step, s, blocks[..i]), o.Lib())
  {
    assert blocks[..i + 1][..i] == blocks[..i];
  }

  /**
   After `count` blocks above height f: the state at f can still be reached exactly when nothing
   above f was committed.
   */
  ghost predicate Depth<S(!new)>(stack: seq<S>, state: S, s: S, f: int, count: int, committed: int)
  {
    if committed <= f then 0 <= count <= |stack| && Before(stack, state, |stack| - count) == s else |stack| < count
  }

  lemma DepthMeans<S(!new)>(stack: seq<S>, state: S, s: S, f: int, count: int, committed: int)
    ensures Depth(stack, state, s, f, count, committed) <==>
      if committed <= f then 0 <= count <= |stack| && Before(stack, state, |stack| - count) == s else |stack| < count
  {
  }

  lemma DepthAfterApply<S(!new)>(stack: seq<S>, state: S, s: S, f: int, count: nat, committed: int, o: Outcome<S>)
    requires Depth(stack, state, s, f, count, committed)
    ensures o.Applied? ==>
      Depth(Trim(stack + [state], f + count - |stack|, o.Lib()), o.state, s, f, count + 1, Max(committed, o.Lib()))
  {
  }

  lemma DepthAfterReject<S(!new)>(stack: seq<S>, state: S, s: S, f: int, count: nat, committed: int, lib: nat)
    requires Depth(stack, state, s, f, count, committed)
    ensures lib <= f + count ==> Depth(Trim(stack, f + count - |stack|, lib), state, s, f, count, Max(committed, lib))
  {
  }

  /**
   One attempt at a block: refused off the head; applied with the commitment taking effect; or rejected,
   which restores everything unless the attempt itself was committed.
   */
  ghost predicate Tried<S(!new)>(step: (S, Block) -> Outcome<S>, b: Block, chain: seq<Block>, state: S, stack: seq<S>,
                                 ok: bool, chain': seq<Block>, state': S, stack': seq<S>)
  {
    var o, n, base := step(state, b), |chain|, |chain| - |stack|;
    if b.previous != HeadOf(chain) then !ok && chain' == chain && state' == state && stack' == stack
    else if o.Applied? then ok && chain' == chain + [b] && state' == o.state && stack' == Trim(stack + [state], base, o.Lib())
    else if o.Lib() <= n then !ok && chain' == chain && state' == state && stack' == Trim(stack, base, o.Lib())
    else !ok && chain' == chain + [b] && state' == o.partial && stack' == []
  }

  lemma TriedElsewhere<S(!new)>(step: (S, Block) -> Outcome<S>, b: Block, chain: seq<Block>, state: S, stack: seq<S>)
    requires b.previous != HeadOf(chain)
    ensures Tried(step, b, chain, state, stack, false, chain, state, stack)
  {
  }

  lemma TriedApplied<S(!new)>(step: (S, Block) -> Outcome<S>, b: Block, chain: seq<Block>, state: S, stack: seq<S>)
    requires b.previous == HeadOf(chain) && step(state, b).Applied?
    ensures var o := step(state, b);
      Tried(step, b, chain, state, stack, true, chain + [b], o.state, Trim(stack + [state], |chain| - |stack|, o.lib))
  {
  }

  lemma TriedRejected<S(!new)>(step: (S, Block) -> Outcome<S>, b: Block, chain: seq<Block>, state: S, stack: seq<S>)
    requires b.previous == HeadOf(chain) && step(state, b).Rejected?
    ensures var o := step(state, b);
      if o.Lib() <= |chain| then Tried(step, b, chain, state, stack, false, chain, state, Trim(stack, |chain| - |stack|, o.Lib()))
      else Tried(step, b, chain, state, stack, false, chain + [b], o.partial, [])
  {
  }

  /** A run stopped by a rejection: the start is still within reach unless something above it was committed. */
  ghost predicate Stopped<S(!new)>(step: (S, Block) -> Outcome<S>, s: S, blocks: seq<Block>, i: nat, start: seq<Block>, chain: seq<Block>, state: S, stack: seq<S>)
    requires i < |blocks|
  {
    && Replay(step, s, blocks[..i + 1]).None? && |start| <= |chain| && chain[..|start|] == start
    && if Committed(step, s, blocks[..i + 1]) <= |start| then chain == start + blocks[..i] && i <= |stack| && Before(stack, state, |stack| - i) == s
       else |stack| < |chain| - |start|
  }

  lemma StoppedMeans<S(!new)>(step: (S, Block) -> Outcome<S>, s: S, blocks: seq<Block>, i: nat, start: seq<Block>, chain: seq<Block>, state: S, stack: seq<S>)
    requires i < |blocks|
    ensures Stopped(step, s, blocks, i, start, chain, state, stack) <==>
      && Replay(step, s, blocks[..i + 1]).None? && |start| <= |chain| && chain[..|start|] == start
      && if Committed(step, s, blocks[..i + 1]) <= |start| then chain == start + blocks[..i] && i <= |stack| && Before(stack, state, |stack| - i) == s
         else |stack| < |chain| - |start|
  {
  }

  /** One more attempt of a run: either the invariant of the run moves on, or the run stops. */
  lemma Progress<S(!new)>(step: (S, Block) -> Outcome<S>, s: S, blocks: seq<Block>, i: nat, start: seq<Block>,
                          chain: seq<Block>, state: S, stack: seq<S>, ok: bool, chain': seq<Block>, state': S, stack': seq<S>)
    requires i < |blocks| && Tried(step, blocks[i], chain, state, stack, ok, chain', state', stack')
    requires blocks[i].previous == HeadOf(chain) && chain == start + blocks[..i] && |stack| <= |chain|
    requires Replay(step, s, blocks[..i]) == Some(state) && Depth(stack, state, s, |start|, i, Committed(step, s, blocks[..i]))
    ensures ok ==> chain' == start + blocks[..i + 1] && Replay(step, s, blocks[..i + 1]) == Some(state')
    ensures ok ==> Depth(stack', state', s, |start|, i + 1, Committed(step, s, blocks[..i + 1]))
    ensures !ok ==> Stopped(step, s, blocks, i, start, chain', state', stack')
  {
    hide Replay, Committed, Depth, Trim, Before, HeadOf;
    OnePlayed(step, s, blocks, i);
    var o, f, committed := step(state, blocks[i]), |start|, Committed(step, s, blocks[..i]);
    DepthAfterApply(stack, state, s, f, i, committed, o);
    DepthAfterReject(stack, state, s, f, i, committed, o.Lib());
    DepthMeans(stack', state', s, f, i, Max(committed, o.Lib()));
    assert start + blocks[..i] + [blocks[i]] == start + blocks[..i + 1];
  }

  lemma NotThereYet(chain: seq<Block>, n: nat, target: Id)
    requires target.num <= n <= |chain| && target == HeadOf(chain[..target.num]) && HeadOf(chain[..n]) != target
    ensures target.num < n
  {
  }

  lemma OneHigher(chain: seq<Block>, b: Block)
    requires Heights(chain) && Numbered(b) && b.previous == HeadOf(chain)
    ensures Heights(chain + [b])
  {
  }

  /** What committing does to the undo stack while a session is open. */
  lemma SessionTrim<S>(stack: seq<S>, s: S, base: int, lib: int)
    ensures var rest := Trim(stack + [s], base, lib);
      if lib <= base + |stack| then rest != [] && rest[|rest| - 1] == s && rest[..|rest| - 1] == Trim(stack, base, lib) else rest == []
  {
  }

  lemma EmptyStacked<S(!new)>(step: (S, Block) -> Outcome<S>, chain: seq<Block>, state: S)
    ensures Stacked(step, chain, state, [])
  {
  }

  lemma PushStacked<S(!new)>(step: (S, Block) -> Outcome<S>, chain: seq<Block>, state: S, stack: seq<S>, b: Block)
    requires Stacked(step, chain, state, stack)
    ensures step(state, b).Applied? ==> Stacked(step, chain + [b], step(state, b).state, stack + [state])
  {
    if step(state, b).Applied? {
      var c, t, next := chain + [b], stack + [state], step(state, b).state;
      forall j | 0 <= j < |t| ensures Leads(step, t[j], c[|c| - |t| + j], Before(t, next, j + 1)) {
        if j < |stack| {
          assert Leads(step, stack[j], chain[|chain| - |stack| + j], Before(stack, state, j + 1));
        }
      }
    }
  }

  lemma TrimStacked<S(!new)>(step: (S, Block) -> Outcome<S>, chain: seq<Block>, state: S, stack: seq<S>, lib: nat)
    requires Stacked(step, chain, state, stack)
    ensures Stacked(step, chain, state, Trim(stack, |chain| - |stack|, lib))
  {
    var t := Trim(stack, |chain| - |stack|, lib);
    var d := |stack| - |t|;
    forall j | 0 <= j < |t| ensures Leads(step, t[j], chain[|chain| - |t| + j], Before(t, state, j + 1)) {
      assert Leads(step, stack[d + j], chain[|chain| - |stack| + d + j], Before(stack, state, d + j + 1));
    }
  }

  lemma PopStacked<S(!new)>(step: (S, Block) -> Outcome<S>, chain: seq<Block>, state: S, stack: seq<S>)
    requires Stacked(step, chain, state, stack) && stack != []
    ensures Stacked(step, chain[..|chain| - 1], stack[|stack| - 1], stack[..|stack| - 1])
  {
    var c, s, t := chain[..|chain| - 1], stack[|stack| - 1], stack[..|stack| - 1];
    forall j | 0 <= j < |t| ensures Leads(step, t[j], c[|c| - |t| + j], Before(t, s, j + 1)) {
      assert Leads(step, stack[j], chain[|chain| - |stack| + j], Before(stack, state, j + 1));
    }
  }

  // ----- the chain from its beginning -----

  lemma {:induction false} PushRooted<S(!new)>(step: (S, Block) -> Outcome<S>, genesis: S, chain: seq<Block>, state: S, stack: seq<S>, b: Block)
    requires Careful(step) ==> Rooted(step, genesis, chain, state, stack)
    ensures Careful(step) && step(state, b).Applied? ==> Rooted(step, genesis, chain + [b], step(state, b).state, stack + [state])
  {
    hide Careful;
    if Careful(step) && step(state, b).Applied? {
      var c, t, next := chain + [b], stack + [state], step(state, b).state;
      forall j | 0 <= j <= |t| ensures Replay(step, genesis, c[..|c| - |t| + j]) == Some(Before(t, next, j)) {
        if j < |t| {
          assert c[..|c| - |t| + j] == chain[..|chain| - |stack| + j];
          assert Before(t, next, j) == Before(stack, state, j);
        } else {
          RootedState(step, genesis, chain, state, stack);
          assert c[..|c|] == c && c[..|c| - 1] == chain;
        }
      }
    }
  }

  lemma TrimRooted<S(!new)>(step: (S, Block) -> Outcome<S>, genesis: S, chain: seq<Block>, state: S, stack: seq<S>, lib: nat)
    ensures Rooted(step, genesis, chain, state, stack) ==> Rooted(step, genesis, chain, state, Trim(stack, |chain| - |stack|, lib))
  {
    hide Replay;
    if Rooted(step, genesis, chain, state, stack) {
      var t := Trim(stack, |chain| - |stack|, lib);
      var d := |stack| - |t|;
      forall j | 0 <= j <= |t| ensures Replay(step, genesis, chain[..|chain| - |t| + j]) == Some(Before(t, state, j)) {
        assert Replay(step, genesis, chain[..|chain| - |stack| + (d + j)]) == Some(Before(stack, state, d + j));
      }
    }
  }

  lemma PopRooted<S(!new)>(step: (S, Block) -> Outcome<S>, genesis: S, chain: seq<Block>, state: S, stack: seq<S>)
    requires Rooted(step, genesis, chain, state, stack) && stack != []
    ensures Rooted(step, genesis, chain[..|chain| - 1], stack[|stack| - 1], stack[..|stack| - 1])
  {
    hide Replay;
    var c, s, t := chain[..|chain| - 1], stack[|stack| - 1], stack[..|stack| - 1];
    forall j | 0 <= j <= |t| ensures Replay(step, genesis, c[..|c| - |t| + j]) == Some(Before(t, s, j)) {
      assert c[..|c| - |t| + j] == chain[..|chain| - |stack| + j];
      assert Replay(step, genesis, chain[..|chain| - |stack| + j]) == Some(Before(stack, state, j));
    }
  }

  lemma RootedState<S(!new)>(step: (S, Block) -> Outcome<S>, genesis: S, chain: seq<Block>, state: S, stack: seq<S>)
    requires Rooted(step, genesis, chain, state, stack)
    ensures Replay(step, genesis, chain) == Some(state)
  {
    hide Replay;
    var j := |stack|;
    assert Replay(step, genesis, chain[..|chain| - |stack| + j]) == Some(Before(stack, state, j));
    assert chain[..|chain| - |stack| + j] == chain;
  }

  lemma CarefulHere<S(!new)>(step: (S, Block) -> Outcome<S>, chain: seq<Block>, s: S, b: Block)
    requires Heights(chain) && Numbered(b) && b.previous == HeadOf(chain)
    ensures Careful(step) && step(s, b).Rejected? ==> step(s, b).Lib() <= |chain|
  {
    HeadHeight(chain);
  }

  lemma OneGenuine(hash: Id -> Block, chain: seq<Block>, b: Block)
    requires ChainGenuine(hash, chain) && Genuine(hash, b)
    ensures ChainGenuine(hash, chain + [b])
  {
  }

  lemma GenuineAt(hash: Id -> Block, chain: seq<Block>, i: nat)
    requires ChainGenuine(hash, chain) && i < |chain|
    ensures Genuine(hash, chain[i])
  {
  }

  lemma PopHeights(hash: Id -> Block, chain: seq<Block>)
    requires Heights(chain) && ChainGenuine(hash, chain) && chain != []
    ensures Heights(chain[..|chain| - 1]) && ChainGenuine(hash, chain[..|chain| - 1])
  {
  }

  lemma HeightsPrefix(chain: seq<Block>, base: seq<Block>)
    requires Heights(chain) && |base| <= |chain| && chain[..|base|] == base
    ensures HeadOf(base).num == |base| && HeadOf(chain[..|base|]) == HeadOf(base)
  {
    if base != [] {
      assert base[|base| - 1] == chain[|base| - 1];
    }
  }

  // ----- popping -----

  lemma AllInWindow(forks: ForkDatabase)
    ensures InWindow(forks, forks.index, Window(0, forks.maxSize))
  {
    AboveAll(forks.index);
  }

  lemma NothingPopped(index: map<Id, Block>, held: map<Id, Block>, start: Block, chain: seq<Block>)
    ensures Down(index + held, start, 0) == Some(start) && TopKnown(index, chain, 0)
  {
  }

  /** The chain, its undo states and the state after k blocks were popped. */
  ghost predicate Taken<S(!new)>(chain0: seq<Block>, stack0: seq<S>, state0: S, k: nat, chain: seq<Block>, stack: seq<S>, state: S)
  {
    && k <= |stack0| <= |chain0|
    && chain == chain0[..|chain0| - k] && stack == stack0[..|stack0| - k]
    && state == Before(stack0, state0, |stack0| - k)
  }

  lemma NothingTaken<S(!new)>(chain: seq<Block>, stack: seq<S>, state: S)
    requires |stack| <= |chain|
    ensures Taken(chain, stack, state, 0, chain, stack, state)
  {
  }

  lemma OneTaken<S(!new)>(chain0: seq<Block>, stack0: seq<S>, state0: S, k: nat, chain: seq<Block>, stack: seq<S>, state: S)
    requires Taken(chain0, stack0, state0, k, chain, stack, state)
    ensures k <= |stack0| <= |chain0| && |chain| == |chain0| - k && |stack| == |stack0| - k
    ensures chain == chain0[..|chain0| - k]
    ensures stack != [] ==>
      Taken(chain0, stack0, state0, k + 1, chain[..|chain| - 1], stack[..|stack| - 1], stack[|stack| - 1])
  {
  }

  lemma AllTaken<S(!new)>(chain0: seq<Block>, stack0: seq<S>, state0: S, k: nat, chain: seq<Block>, stack: seq<S>, state: S)
    requires Taken(chain0, stack0, state0, k, chain, stack, state)
    ensures k <= |stack0| && stack == stack0[..|stack0| - k] && state == Before(stack0, state0, |stack0| - k)
  {
  }

  lemma DownOne(alive: map<Id, Block>, start: Block, n: nat)
    ensures Down(alive, start, n).Some? ==> Down(alive, start, n + 1) == Down(alive, Down(alive, start, n).value, 1)
  {
    if Down(alive, start, n).Some? {
      var x := Down(alive, start, n).value;
      assert Down(alive, x, 0) == Some(x);
    }
  }

  lemma HeadNumbered(forks: ForkDatabase)
    requires forks.Valid() && forks.head.Some?
    ensures Numbered(forks.head.value) && Indexed(forks.index)
  {
  }

  lemma OneLower(index: map<Id, Block>, held: map<Id, Block>, b: Block)
    requires Numbered(b) && Indexed(index) && Indexed(held)
    ensures Down(index + held, b, 1).Some? ==> Down(index + held, b, 1).value.id.num == b.id.num - 1
  {
    assert Down(index + held, b, 0) == Some(b);
  }

  lemma TopAt(index: map<Id, Block>, chain: seq<Block>, k: nat)
    requires TopKnown(index, chain, k) && k < |chain|
    ensures TopKnown(index, chain, k + 1) <==> HeadOf(chain[..|chain| - k]) in index
  {
    assert chain[..|chain| - k][|chain| - k - 1] == chain[|chain| - 1 - k];
  }

  lemma TopFewer(index: map<Id, Block>, chain: seq<Block>, k: nat, d: nat)
    requires TopKnown(index, chain, d) && k <= d
    ensures TopKnown(index, chain, k)
  {
  }

  /** A pop that fails on the way to depth d means that d blocks cannot be popped. */
  lemma PopBlocked(index: map<Id, Block>, held: map<Id, Block>, start: Block, chain: seq<Block>, m: nat, d: nat,
                   popped: nat, walked: nat)
    requires popped <= m && popped < d && (walked == popped || (popped == m && m <= walked))
    requires (popped < m && !TopKnown(index, chain, popped + 1)) || Down(index + held, start, walked + 1).None?
    ensures !CanPop(index, held, start, chain, m, d)
  {
    hide TopKnown, Down;
    if d <= m && TopKnown(index, chain, d) {
      TopFewer(index, chain, popped + 1, d);
      DownEnds(index + held, start, walked + 1, d);
    }
  }

  lemma AllPopped(index: map<Id, Block>, held: map<Id, Block>, start: Block, chain: seq<Block>, m: nat, d: nat)
    requires d <= m && TopKnown(index, chain, d) && Down(index + held, start, d).Some?
    ensures CanPop(index, held, start, chain, m, d)
  {
  }

  // ----- applying with a fork database -----

  lemma NothingShrunk<S(!new)>(step: (S, Block) -> Outcome<S>, s: S, blocks: seq<Block>, forks: ForkDatabase)
    ensures forall top: int :: InWindow(forks, forks.index, Shrunk(step, s, blocks[..0], top, Window(0, forks.maxSize)))
  {
    AboveAll(forks.index);
  }

  lemma ShrunkMore<S(!new)>(step: (S, Block) -> Outcome<S>, s: S, blocks: seq<Block>, i: nat, top: int, w: Window, forks: ForkDatabase,
                            index: map<Id, Block>, mid: map<Id, Block>, size: int)
    requires i < |blocks| && Replay(step, s, blocks[..i]).Some?
    requires mid == Above(index, Shrunk(step, s, blocks[..i], top, w).cut) && size == Shrunk(step, s, blocks[..i], top, w).size
    requires InWindow(forks, mid, Narrowed(Window(0, size), step(Replay(step, s, blocks[..i]).value, blocks[i]), blocks[i].id.num, top))
    ensures InWindow(forks, index, Shrunk(step, s, blocks[..i + 1], top, w))
  {
    hide Replay, Above;
    assert blocks[..i + 1][..i] == blocks[..i];
    var earlier := Shrunk(step, s, blocks[..i], top, w);
    var o := step(Replay(step, s, blocks[..i]).value, blocks[i]);
    if o.Commit().Some? {
      AboveTwice(index, earlier.cut, Narrowed(Window(0, size), o, blocks[i].id.num, top).cut);
    } else {
      AboveAll(mid);
    }
  }

  // ----- the parts of a switch -----

  lemma WindowIs(forks: ForkDatabase, index: map<Id, Block>, w: Window)
    ensures InWindow(forks, index, w) <==> forks.index == Above(index, w.cut) && forks.maxSize == w.size
  {
  }

  lemma SwitchableParts(index: map<Id, Block>, chain: seq<Block>, first: seq<Block>, second: seq<Block>)
    requires Switchable(index, chain, first, second)
    ensures Downwards(first) && Downwards(second) && 0 < |second| < |first| && first[|first| - 1].previous == second[|second| - 1].previous
    ensures Tail(chain, second) && |second| <= |chain| && Known(index, first) && Known(index, second)
  {
  }

  lemma Upwards(forks: ForkDatabase, branch: seq<Block>)
    requires forks.Valid() && Downwards(branch) && Known(forks.index, branch)
    ensures branch != [] && |Reversed(branch)| == |branch| && Continues(branch[|branch| - 1].previous, Reversed(branch))
    ensures ChainGenuine(forks.hash, Reversed(branch)) && Numbered(branch[0]) && Genuine(forks.hash, branch[0])
  {
    DownwardsReversed(branch);
    ReversedEach(branch);
    hide Reversed, Continues;
    forall i | 0 <= i < |branch| ensures Genuine(forks.hash, branch[i]) {
      assert branch[i] == forks.index[branch[i].id];
    }
    forall i | 0 <= i < |branch| ensures Genuine(forks.hash, Reversed(branch)[i]) {
      assert Reversed(branch)[i] == branch[|branch| - 1 - i];
    }
  }

  lemma HeldGenuine(forks: ForkDatabase, second: seq<Block>)
    requires forks.Valid()
    ensures Indexed(Entries(forks.index, second)) && AllGenuine(forks.hash, Entries(forks.index, second))
    ensures Indexed(map[]) && AllGenuine(forks.hash, map[])
  {
  }

  /** The new tip is higher than the old one, so the first pops never run out of ancestors. */
  lemma FirstPops<S>(index: map<Id, Block>, chain: seq<Block>, stack: seq<S>, first: seq<Block>, second: seq<Block>)
    requires Switchable(index, chain, first, second)
    ensures CanPop(index, map[], first[0], chain, |stack|, |second|) <==> |second| <= |stack|
    ensures Down(index + map[], first[0], |second|) == Some(first[|second|])
  {
    assert index + map[] == index;
    DownBranch(index, first, |second|);
    forall i | |chain| - |second| <= i < |chain| ensures chain[i].id in index {
      assert chain[i] == second[|chain| - 1 - i];
    }
  }

  lemma NotPoppable<S(!new)>(step: (S, Block) -> Outcome<S>, v: View<S>, u: View<S>, first: seq<Block>, second: seq<Block>)
    requires Switchable(v.index, v.chain, first, second) && |v.stack| < |second|
    ensures SwitchOutcome(step, v, u, first, second, Stuck)
  {
  }

  lemma StuckHere<S(!new)>(step: (S, Block) -> Outcome<S>, v: View<S>, u: View<S>, first: seq<Block>, second: seq<Block>, s: S)
    requires Switchable(v.index, v.chain, first, second) && s == ForkState(v.stack, v.state, second) && Replay(step, s, Reversed(first)).None?
    requires !WayBack(step, v, first, second)
    ensures SwitchOutcome(step, v, u, first, second, Stuck)
  {
  }

  lemma SwitchedHere<S(!new)>(step: (S, Block) -> Outcome<S>, v: View<S>, u: View<S>, first: seq<Block>, second: seq<Block>)
    requires Switchable(v.index, v.chain, first, second) && |second| <= |v.stack|
    requires Replay(step, ForkState(v.stack, v.state, second), Reversed(first)) == Some(u.state)
    requires u.chain == v.chain[..|v.chain| - |second|] + Reversed(first) && u.head == Some(first[|second|])
    requires var w := Shrunk(step, ForkState(v.stack, v.state, second), Reversed(first), first[|second|].id.num, Window(0, v.maxSize));
      u.index == Above(v.index, w.cut) && u.maxSize == w.size
    ensures SwitchOutcome(step, v, u, first, second, Switched)
  {
  }

  lemma RestoredHere<S(!new)>(step: (S, Block) -> Outcome<S>, v: View<S>, u: View<S>, first: seq<Block>, second: seq<Block>,
                              s: S, a: nat, w: Window, left: map<Id, Block>, w2: Window)
    requires Switchable(v.index, v.chain, first, second) && |second| <= |v.stack| && WayBack(step, v, first, second)
    requires s == ForkState(v.stack, v.state, second) && Replay(step, s, Reversed(first)).None? && a == Accepted(step, s, Reversed(first)) <= |first|
    requires w == Shrunk(step, s, Reversed(first), first[|second|].id.num, Window(0, v.maxSize))
    requires left == Above(v.index, w.cut) - Ids(first[..|first| - a])
    requires u.head.Some? && u.head == Down(v.index, second[0], a)
    requires w2 == Shrunk(step, s, Reversed(second), u.head.value.id.num, Window(0, w.size))
    requires u.chain == v.chain && u.state == v.state && u.index == Above(left, w2.cut) && u.maxSize == w2.size
    ensures SwitchOutcome(step, v, u, first, second, Restored)
  {
    hide Shrunk, Replay, Accepted, Above, Ids, Down, WayBack, ForkState, Reversed;
  }

  lemma ReachedDepth<S(!new)>(base: seq<Block>, s: S, blocks: seq<Block>, count: nat, committed: nat, chain: seq<Block>, state: S, stack: seq<S>,
                              left: map<Id, Block>, held: map<Id, Block>, b: Block)
    requires Reached(base, s, blocks, count, committed, chain, state, stack) && |base| <= |chain| && count <= |blocks|
    ensures CanPop(left, held, b, chain, |stack|, |chain| - |base|) <==>
      committed <= |base| && CanPop(left, held, b, base + blocks[..count], count, count)
    ensures committed <= |base| ==>
      && |chain| == |base| + count && count <= |stack| && Before(stack, state, |stack| - count) == s
  {
    hide TopKnown, Down;
  }

  lemma {:induction false} DownwardsNumber(branch: seq<Block>, i: nat)
    requires Downwards(branch) && i < |branch|
    ensures branch[i].id.num == branch[|branch| - 1].previous.num + |branch| - i
    decreases |branch| - i
  {
    assert Numbered(branch[i]);
    if i + 1 < |branch| {
      DownwardsNumber(branch, i + 1);
      LinkAt(branch, i);
    }
  }

  /** Of the living blocks only those below the fork point can be missing on the way down from the old tip. */
  lemma {:induction false} HeldDown(index: map<Id, Block>, cut: int, gone: seq<Block>, second: seq<Block>, f: int,
                                    j: nat)
    requires Indexed(index) && Downwards(second) && Known(index, second) && f == second[|second| - 1].previous.num
    requires forall b :: b in gone ==> f < b.id.num
    ensures var alive := Above(index, cut) - Ids(gone) + Entries(index, second);
      Down(alive, second[0], j) == if |second| <= j && f + |second| - j < cut then None else Down(index, second[0], j)
  {
    hide Above, Ids, Entries, Indexed, Known, Downwards;
    assert second != [] by { DownwardsNonempty(second); }
    var alive, b := Above(index, cut) - Ids(gone) + Entries(index, second), second[0];
    if 0 < j {
      HeldDown(index, cut, gone, second, f, j - 1);
      if Down(index, b, j - 1).Some? {
        DownwardsNumber(second, 0);
        DownwardsNonempty(second);
        DownHeight(index, b, j - 1);
        ParentAlive(index, cut, gone, second, f, j - 1);
      }
    }
  }

  lemma DownwardsNonempty(branch: seq<Block>)
    requires Downwards(branch)
    ensures branch != [] && Numbered(branch[0])
  {
  }

  lemma ParentAlive(index: map<Id, Block>, cut: int, gone: seq<Block>, second: seq<Block>, f: int, j: nat)
    requires Indexed(index) && Downwards(second) && Known(index, second) && f == second[|second| - 1].previous.num
    requires forall b :: b in gone ==> f < b.id.num
    requires Down(index, second[0], j).Some? && Down(index, second[0], j).value.previous.num == f + |second| - j - 1
    ensures var p, alive := Down(index, second[0], j).value.previous, Above(index, cut) - Ids(gone) + Entries(index, second);
      && (p in alive <==> p in index && (j + 1 < |second| || cut <= p.num))
      && (p in alive ==> alive[p] == index[p])
  {
    hide Down;
    var p := Down(index, second[0], j).value.previous;
    if j + 1 < |second| {
      DownBranch(index, second, j);
      LinkAt(second, j);
      assert second[j + 1].id in index && second[j + 1] in second;
      assert p in Entries(index, second);
    } else {
      forall k | 0 <= k < |second| ensures second[k].id.num > f {
        DownwardsNumber(second, k);
      }
      assert p !in Ids(second) && p !in Ids(gone);
    }
  }

  lemma TopsKept(index: map<Id, Block>, cut: int, base: seq<Block>, first: seq<Block>, f: int, a: nat)
    requires Downwards(first) && Known(index, first) && f == first[|first| - 1].previous.num && a <= |first|
    ensures |Reversed(first)| == |first|
    ensures TopKnown(Above(index, cut) - Ids(first[..|first| - a]), base + Reversed(first)[..a], a) <==> (0 < a ==> cut <= f + 1)
  {
    ReversedEach(first);
    hide Reversed;
    var left, chain := Above(index, cut) - Ids(first[..|first| - a]), base + Reversed(first)[..a];
    forall i | |base| <= i < |chain| ensures chain[i].id in left <==> cut <= f + 1 + i - |base| {
      var k := |first| - 1 - (i - |base|);
      assert chain[i] == first[k];
      DownwardsNumber(first, k);
      forall m | 0 <= m < |first| - a ensures first[m].id != first[k].id {
        DownwardsNumber(first, m);
      }
    }
    if 0 < a {
      assert chain[|base|].id in left <==> cut <= f + 1;
    }
  }

  /** What of the old branch a failed switch can still reach: its popped blocks and their ancestors. */
  lemma WayBackParts(chain: seq<Block>, index: map<Id, Block>, cut: int, first: seq<Block>, second: seq<Block>, a: nat)
    requires Switchable(index, chain, first, second) && Indexed(index) && a <= |first|
    requires second[|second| - 1].previous.num == |chain| - |second|
    ensures |Reversed(first)| == |first|
    ensures var f, left := |chain| - |second|, Above(index, cut) - Ids(first[..|first| - a]);
      && (TopKnown(left, chain[..f] + Reversed(first)[..a], a) <==> (0 < a ==> cut <= f + 1))
      && Down(left + Entries(index, second), second[0], a) ==
         if |second| <= a && f + |second| - a < cut then None else Down(index, second[0], a)
  {
    hide Reversed, Down, Above, Entries, Ids, TopKnown;
    var f := |chain| - |second|;
    forall b | b in first[..|first| - a] ensures f < b.id.num {
      var i :| 0 <= i < |first| - a && first[i] == b;
      DownwardsNumber(first, i);
    }
    TopsKept(index, cut, chain[..f], first, f, a);
    HeldDown(index, cut, first[..|first| - a], second, f, a);
  }

  lemma WayBackIs<S(!new)>(step: (S, Block) -> Outcome<S>, v: View<S>, first: seq<Block>, second: seq<Block>)
    requires Switchable(v.index, v.chain, first, second) && Indexed(v.index) && second[|second| - 1].previous.num == |v.chain| - |second|
    requires Accepted(step, ForkState(v.stack, v.state, second), Reversed(first)) <= |Reversed(first)| == |first|
    ensures var s, up, f := ForkState(v.stack, v.state, second), Reversed(first), |v.chain| - |second|;
      var a, cut := Accepted(step, s, up), Shrunk(step, s, up, first[|second|].id.num, Window(0, v.maxSize)).cut;
      var left, held := Above(v.index, cut) - Ids(first[..|first| - a]), Entries(v.index, second);
      && (WayBack(step, v, first, second) <==> Committed(step, s, up) <= f && CanPop(left, held, second[0], v.chain[..f] + up[..a], a, a))
      && (WayBack(step, v, first, second) ==> Down(left + held, second[0], a) == Down(v.index, second[0], a))
  {
    hide Indexed, Known, Downwards, Shrunk, Replay, Committed, Accepted, Reversed, ForkState, Down, Above, Entries, Ids,
      TopKnown;
    var s, up := ForkState(v.stack, v.state, second), Reversed(first);
    var a, cut := Accepted(step, s, up), Shrunk(step, s, up, first[|second|].id.num, Window(0, v.maxSize)).cut;
    WayBackParts(v.chain, v.index, cut, first, second, a);
  }

  // ----- pushing a block -----

  datatype PushResult = Refused | Waiting | Extended | Failed | Forked(switch: Result)

  /** Ids are hashes: a chain block and an indexed block with one id are the same block. */
  ghost predicate Agree(index: map<Id, Block>, chain: seq<Block>)
  {
    forall i :: 0 <= i < |chain| && chain[i].id in index ==> index[chain[i].id] == chain[i]
  }

  lemma {:induction false} BranchIsTail(index: map<Id, Block>, chain: seq<Block>, branch: seq<Block>, i: nat)
    requires Indexed(index) && Heights(chain) && Agree(index, chain) && Branch(index, branch, HeadOf(chain)) && i < |branch|
    ensures i < |chain| && branch[i] == chain[|chain| - 1 - i]
  {
    hide *;
    BranchNumber(index, branch, HeadOf(chain), i);
    HeadHeight(chain);
    BranchAt(index, branch, HeadOf(chain), i);
    PositiveNumber(branch[i]);
    var n := |chain| - 1 - i;
    if i == 0 {
      LastIsHead(chain);
    } else {
      BranchIsTail(index, chain, branch, i - 1);
      HeightAt(chain, n + 1);
    }
    AgreeAt(index, chain, n);
  }

  lemma PositiveNumber(b: Block)
    requires Numbered(b)
    ensures 0 < b.id.num
  {
  }

  lemma LastIsHead(chain: seq<Block>)
    requires chain != []
    ensures HeadOf(chain) == chain[|chain| - 1].id
  {
  }

  lemma BranchAt(index: map<Id, Block>, branch: seq<Block>, tip: Id, i: nat)
    requires Branch(index, branch, tip) && i < |branch|
    ensures branch[i].id in index && index[branch[i].id] == branch[i]
    ensures if i == 0 then branch[0].id == tip else branch[i - 1].previous == branch[i].id
  {
  }

  lemma HeightAt(chain: seq<Block>, i: nat)
    requires Heights(chain) && i < |chain|
    ensures chain[i].id.num == i + 1 && (0 < i ==> chain[i].previous == chain[i - 1].id)
  {
  }

  lemma AgreeAt(index: map<Id, Block>, chain: seq<Block>, i: nat)
    requires Agree(index, chain) && i < |chain| && chain[i].id in index
    ensures index[chain[i].id] == chain[i]
  {
  }

  lemma BranchesDescend(index: map<Id, Block>, a: seq<Block>)
    requires Indexed(index) && a != [] && Linked(a) && Known(index, a)
    ensures Downwards(a)
  {
    forall i | 0 <= i < |a| ensures Numbered(a[i]) {
      assert index[a[i].id] == a[i];
    }
  }

  lemma AgreeAsGenuine(hash: Id -> Block, index: map<Id, Block>, chain: seq<Block>)
    requires Indexed(index) && AllGenuine(hash, index) && ChainGenuine(hash, chain)
    ensures Agree(index, chain)
  {
    forall i | 0 <= i < |chain| && chain[i].id in index ensures index[chain[i].id] == chain[i] {
      assert Genuine(hash, index[chain[i].id]) && Genuine(hash, chain[i]);
    }
  }

  /** The fork database takes blocks that are not too old and whose parent it knows, or the very first ones. */
  predicate Linkable(forks: ForkDatabase, b: Block)
    reads forks
  {
    !forks.TooOld(b) && (forks.head.Some? && b.previous != ZERO ==> b.previous in forks.index)
  }

  /** The view once the fork database has taken a block. */
  ghost function Pushed<S>(v: View<S>, b: Block): View<S>
  {
    v.(index := if b.id in v.index then v.index else v.index[b.id := b],
       head := if v.head.None? || v.head.value.id.num < b.id.num then Some(b) else v.head)
  }

  /**
   What _push_block does with a block that the fork database took, whose head is then `tip`: apply the
   block where the tip builds on the chain; otherwise wait unless the tip is higher, and then switch to
   its branch if the fork database still knows where the two meet.
   */
  ghost predicate PushOutcome<S(!new)>(step: (S, Block) -> Outcome<S>, v: View<S>, u: View<S>, b: Block, r: PushResult)
  {
    && v.head.Some?
    && var tip, top := v.head.value, HeadOf(v.chain);
       if tip.previous == top then AppliedOrForgotten(step, v, u, b, r)
       else if tip.id.num <= |v.chain| then r.Waiting? && u == v
       else if !exists p, q :: Meeting(v.index, p, q, tip.id, top) then r.Refused? && u == v
       else r.Forked? && exists first, second :: Branches(v.index, first, second, tip.id, top) && SwitchOutcome(step, v, u, first, second, r.switch)
  }

  ghost predicate AppliedOrForgotten<S(!new)>(step: (S, Block) -> Outcome<S>, v: View<S>, u: View<S>, b: Block, r: PushResult)
    requires v.head.Some?
  {
    && (r.Extended? || r.Failed?) && Tried(step, b, v.chain, v.state, v.stack, r.Extended?, u.chain, u.state, u.stack)
    && var w := Window(0, v.maxSize);
       var x := if b.previous == HeadOf(v.chain) then Narrowed(w, step(v.state, b), b.id.num, v.head.value.id.num) else w;
       u.head == v.head && u.maxSize == x.size && u.index == Above(v.index, x.cut) - if r.Failed? then {b.id} else {}
  }

  /** What fetch_branch_from finds: known branches from both tips to the nearest blocks with a common parent. */
  ghost predicate Branches(index: map<Id, Block>, first: seq<Block>, second: seq<Block>, x: Id, y: Id)
  {
    && Linked(first) && Linked(second) && Known(index, first) && Known(index, second) && Meet(first, second)
    && first[0].id == x && second[0].id == y
  }

  /**
   _push_block: a block on the current head extends the chain, a higher block elsewhere starts a fork
   switch, and anything else leaves the chain alone.
   */
  method PushBlock<S(!new)>(forks: ForkDatabase, node: Node<S>, b: Block) returns (r: PushResult)
    requires forks.Valid() && node.Valid() && node.hash == forks.hash && Numbered(b) && Genuine(forks.hash, b)
    modifies forks`index, forks`head, forks`maxSize, node`chain, node`state, node`stack
    ensures node.Valid() && forks.Valid()
    ensures !old(Linkable(forks, b)) ==> r.Refused? && ViewOf(node, forks) == old(ViewOf(node, forks))
    ensures old(Linkable(forks, b)) ==> PushOutcome(node.step, Pushed(old(ViewOf(node, forks)), b), ViewOf(node, forks), b, r)
  {
    hide Stacked, Heights, Leads, Indexed, Trim, Node.Valid, ForkDatabase.Valid, Numbered, Genuine, Tried,
      SwitchOutcome, InWindow, Narrowed, Above, Branches, Meeting;
    var ok := forks.Push(b);
    if !ok {
      return Refused;
    }
    ghost var v := ViewOf(node, forks);
    assert v == Pushed(old(ViewOf(node, forks)), b);
    var tip := forks.head.value;
    if tip.previous != HeadOf(node.chain) {
      if tip.id.num <= |node.chain| {
        return Waiting;
      }
      r := SwitchTo(forks, node);
      return;
    }
    ok := node.TryApply(forks, b);
    TriedWindow(node.step, v, forks, b);
    if ok {
      assert forks.index - {} == forks.index;
      return Extended;
    }
    forks.Remove(b.id);
    return Failed;
  }

  lemma TriedWindow<S(!new)>(step: (S, Block) -> Outcome<S>, v: View<S>, forks: ForkDatabase, b: Block)
    requires v.head.Some?
    ensures var w := Window(0, v.maxSize);
      var x := if b.previous == HeadOf(v.chain) then Narrowed(w, step(v.state, b), b.id.num, v.head.value.id.num) else w;
      InWindow(forks, v.index, x) <==> forks.index == Above(v.index, x.cut) && forks.maxSize == x.size
  {
  }

  /** A fork switch to the head of the fork database, which is higher than the chain. */
  method SwitchTo<S(!new)>(forks: ForkDatabase, node: Node<S>) returns (r: PushResult)
    requires forks.Valid() && node.Valid() && node.hash == forks.hash && forks.head.Some? && |node.chain| < forks.head.value.id.num
    modifies forks`index, forks`head, forks`maxSize, node`chain, node`state, node`stack
    ensures node.Valid() && forks.Valid()
    ensures var v, u := old(ViewOf(node, forks)), ViewOf(node, forks);
      if !exists p, q :: Meeting(v.index, p, q, v.head.value.id, HeadOf(v.chain)) then r.Refused? && u == v
      else r.Forked? && exists first, second ::
        Branches(v.index, first, second, v.head.value.id, HeadOf(v.chain)) && SwitchOutcome(node.step, v, u, first, second, r.switch)
  {
    hide *;
    ViewParts(node, forks);
    var tip := forks.head.value;
    var ok, first, second := forks.FetchBranches(tip.id, HeadOf(node.chain));
    if !ok {
      return Refused;
    }
    node.ValidParts();
    HeadHeight(node.chain);
    ForkParts(forks);
    AgreeAsGenuine(forks.hash, forks.index, node.chain);
    FetchedSwitchable(forks.index, forks.hash, node.chain, first, second, tip);
    var switch := node.SwitchFork(forks, first, second);
    r := Forked(switch);
  }

  lemma ForkParts(forks: ForkDatabase)
    requires forks.Valid()
    ensures Indexed(forks.index) && AllGenuine(forks.hash, forks.index)
    ensures forks.head.Some? ==> Numbered(forks.head.value) && Genuine(forks.hash, forks.head.value)
  {
  }

  /** The branches found for a tip above the chain are what a switch needs, and the first one starts with that tip. */
  lemma FetchedSwitchable(index: map<Id, Block>, hash: Id -> Block, chain: seq<Block>, first: seq<Block>,
                          second: seq<Block>, tip: Block)
    requires Indexed(index) && AllGenuine(hash, index) && Genuine(hash, tip) && Heights(chain) && Agree(index, chain) && |chain| < tip.id.num
    requires Linked(first) && Linked(second) && Known(index, first) && Known(index, second) && Meet(first, second)
    requires first[0].id == tip.id && second[0].id == HeadOf(chain)
    requires |first| - |second| == tip.id.num - HeadOf(chain).num
    ensures Switchable(index, chain, first, second) && first[0] == tip && Branches(index, first, second, tip.id, HeadOf(chain))
  {
    BranchesDescend(index, first);
    BranchesDescend(index, second);
    SecondBranch(index, chain, second);
    HeadHeight(chain);
    assert first[0] == index[first[0].id] && Genuine(hash, index[first[0].id]);
  }

  lemma SecondBranch(index: map<Id, Block>, chain: seq<Block>, branch: seq<Block>)
    requires Indexed(index) && Heights(chain) && Agree(index, chain) && branch != [] && Linked(branch) && Known(index, branch) && branch[0].id == HeadOf(chain)
    ensures Tail(chain, branch)
  {
    hide Indexed, Linked, Known, Heights, Agree;
    assert Branch(index, branch, HeadOf(chain));
    BranchIsTail(index, chain, branch, |branch| - 1);
    forall i | 0 <= i < |branch| ensures branch[i] == chain[|chain| - 1 - i] {
      BranchIsTail(index, chain, branch, i);
    }
  }

  // ----- any run of pushed blocks -----

  /** Only a stuck switch shortens the chain. */
  lemma PushKeepsLength<S(!new)>(step: (S, Block) -> Outcome<S>, v: View<S>, u: View<S>, b: Block, r: PushResult)
    requires PushOutcome(step, v, u, b, r) && r != Forked(Stuck)
    ensures |v.chain| <= |u.chain|
  {
    hide Replay, Shrunk, Narrowed, Trim, WayBack, Above, Down, Meeting, Accepted, ForkState, Branches;
    if r.Forked? {
      var first, second :| SwitchOutcome(step, v, u, first, second, r.switch);
      ReversedEach(first);
    }
  }

  /**
   Any sequence of pushed blocks, on any branches and in any order: the node stays sound, its state is
   what applying its chain from the beginning gives, unless a block is rejected after committing itself,
   and its chain never gets shorter unless a switch gets stuck.
   */
  method Run<S(!new)>(forks: ForkDatabase, node: Node<S>, blocks: seq<Block>) returns (results: seq<PushResult>)
    requires forks.Valid() && node.Valid() && node.hash == forks.hash
    requires forall i :: 0 <= i < |blocks| ==> Numbered(blocks[i]) && Genuine(forks.hash, blocks[i])
    modifies forks`index, forks`head, forks`maxSize, node`chain, node`state, node`stack
    ensures node.Valid() && forks.Valid() && |results| == |blocks|
    ensures Careful(node.step) ==> Replay(node.step, node.genesis, node.chain) == Some(node.state)
    ensures Forked(Stuck) !in results ==> |old(node.chain)| <= |node.chain|
  {
    hide *;
    results := [];
    for i := 0 to |blocks|
      invariant node.Valid() && forks.Valid() && |results| == i
      invariant Forked(Stuck) !in results ==> |old(node.chain)| <= |node.chain|
    {
      ghost var v := ViewOf(node, forks);
      ViewParts(node, forks);
      var r := PushBlock(forks, node, blocks[i]);
      ViewParts(node, forks);
      LengthStep(node.step, v, ViewOf(node, forks), blocks[i], r);
      results := results + [r];
    }
    node.ValidParts();
    ghost var careful := Careful(node.step);
    if careful {
      RootedState(node.step, node.genesis, node.chain, node.state, node.stack);
    }
  }

  lemma LengthStep<S(!new)>(step: (S, Block) -> Outcome<S>, v: View<S>, u: View<S>, b: Block, r: PushResult)
    ensures (u == v || PushOutcome(step, Pushed(v, b), u, b, r)) && r != Forked(Stuck) ==> |v.chain| <= |u.chain|
  {
    hide PushOutcome;
    if u != v && PushOutcome(step, Pushed(v, b), u, b, r) && r != Forked(Stuck) {
      PushKeepsLength(step, Pushed(v, b), u, b, r);
    }
  }

  // ----- the rule before voting takes over -----

  /** update_last_irreversible_block below the first voting block: twenty-one blocks behind the head. */
  function EarlyLib(num: nat): nat
  {
    if MAX_WITNESSES < num then num - MAX_WITNESSES else 0
  }

  ghost predicate EarlyRule<S(!new)>(step: (S, Block) -> Outcome<S>)
  {
    forall s: S, b: Block :: step(s, b).Commit().Some? ==> step(s, b).Commit().value == EarlyLib(b.id.num)
  }

  /** How many blocks of a branch get as far as committing: the accepted ones and perhaps the rejected one. */
  ghost function Committing<S(!new)>(step: (S, Block) -> Outcome<S>, s: S, blocks: seq<Block>): nat
  {
    var a := Accepted(step, s, blocks);
    if a < |blocks| && Replay(step, s, blocks[..a]).Some? && step(Replay(step, s, blocks[..a]).value, blocks[a]).Commit().Some? then a + 1 else a
  }

  lemma {:induction false} AcceptedIs<S(!new)>(step: (S, Block) -> Outcome<S>, s: S, blocks: seq<Block>)
    ensures var a := Accepted(step, s, blocks);
      a <= |blocks| && Replay(step, s, blocks[..a]).Some? && (a < |blocks| ==> Replay(step, s, blocks[..a + 1]).None?)
    decreases |blocks|
  {
    if Replay(step, s, blocks).Some? {
      assert blocks[..|blocks|] == blocks;
    } else {
      var rest := blocks[..|blocks| - 1];
      AcceptedIs(step, s, rest);
      var a := Accepted(step, s, rest);
      assert rest[..a] == blocks[..a];
      if a < |rest| {
        assert rest[..a + 1] == blocks[..a + 1];
      } else {
        assert blocks[..a + 1] == blocks;
      }
    }
  }

  lemma {:induction false} ReplayPrefix<S(!new)>(step: (S, Block) -> Outcome<S>, s: S, blocks: seq<Block>, i: nat)
    requires i <= |blocks| && Replay(step, s, blocks).Some?
    ensures Replay(step, s, blocks[..i]).Some?
    decreases |blocks|
  {
    if i == |blocks| {
      assert blocks[..i] == blocks;
    } else {
      ReplayPrefix(step, s, blocks[..|blocks| - 1], i);
      assert blocks[..|blocks| - 1][..i] == blocks[..i];
    }
  }

  lemma {:induction false} EarlyPrefix<S(!new)>(step: (S, Block) -> Outcome<S>, s: S, blocks: seq<Block>, f: nat, i: nat)
    requires EarlyRule(step) && i <= |blocks| && Replay(step, s, blocks[..i]).Some? && forall k :: 0 <= k < |blocks| ==> blocks[k].id.num == f + 1 + k
    ensures Committed(step, s, blocks[..i]) == if i == 0 then 0 else EarlyLib(f + i)
  {
    if 0 < i {
      ReplayPrefix(step, s, blocks[..i], i - 1);
      assert blocks[..i][..i - 1] == blocks[..i - 1];
      EarlyPrefix(step, s, blocks, f, i - 1);
      OnePlayed(step, s, blocks, i - 1);
    }
  }

  /**
   Under the early rule a branch commits something above its fork point f, and so closes the way back,
   exactly when more than twenty-one of its blocks get as far as committing.
   */
  lemma EarlyCommitted<S(!new)>(step: (S, Block) -> Outcome<S>, s: S, blocks: seq<Block>, f: nat)
    requires EarlyRule(step) && forall k :: 0 <= k < |blocks| ==> blocks[k].id.num == f + 1 + k
    ensures Committed(step, s, blocks) <= f <==> Committing(step, s, blocks) <= MAX_WITNESSES
  {
    hide Replay, Committed, Accepted;
    var a := Accepted(step, s, blocks);
    AcceptedIs(step, s, blocks);
    EarlyPrefix(step, s, blocks, f, a);
    if a < |blocks| {
      FirstRejection(step, s, blocks, a, 0, Window(0, 0));
      OnePlayed(step, s, blocks, a);
    } else {
      assert blocks[..a] == blocks;
    }
  }

  /**
   A switch under the early rule whose rejected block is at least the twenty-second to commit never
   brings the original chain back.
   */
  lemma LateRejectionSticks<S(!new)>(step: (S, Block) -> Outcome<S>, v: View<S>, u: View<S>, first: seq<Block>, second: seq<Block>, r: Result)
    requires EarlyRule(step) && Downwards(first) && SwitchOutcome(step, v, u, first, second, r)
    requires first[|first| - 1].previous.num == |v.chain| - |second|
    requires var s := ForkState(v.stack, v.state, second);
      Replay(step, s, Reversed(first)).None? && MAX_WITNESSES < Committing(step, s, Reversed(first))
    ensures r == Stuck
  {
    ReversedEach(first);
    hide Reversed, Replay, Committed, Accepted, Shrunk, Committing, ForkState, Down;
    var f := |v.chain| - |second|;
    forall k | 0 <= k < |first| ensures Reversed(first)[k].id.num == f + 1 + k {
      DownwardsNumber(first, |first| - 1 - k);
    }
    EarlyCommitted(step, ForkState(v.stack, v.state, second), Reversed(first), f);
  }
}
