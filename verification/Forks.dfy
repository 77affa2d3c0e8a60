/** The tree of recent blocks and the two branches a fork switch works with. */
module Forks {
  import opened Basics
  import opened Sums

  /** A block id carries its block number in its leading bytes. */
  datatype Id = Id(num: nat, hash: int)

  /** The id of no block, which the first block names as its predecessor. */
  const ZERO: Id := Id(0, 0)

  datatype Block = Block(id: Id, previous: Id, payload: int)

  /** block_num is one more than the number in the previous id. */
  ghost predicate Numbered(b: Block)
  {
    b.id.num == b.previous.num + 1
  }

  /** Each block's predecessor is the next one: a branch is listed from its tip downwards. */
  ghost predicate Linked(branch: seq<Block>)
  {
    forall i {:trigger branch[i]} :: 0 <= i < |branch| - 1 ==> branch[i].previous == branch[i + 1].id
  }

  /** The way from the head down to a height, through blocks the database still knows. */
  ghost predicate Walk(index: map<Id, Block>, head: Block, path: seq<Block>, num: int)
  {
    path != [] && path[0] == head && Linked(path) && Known(index, path[1..]) && path[|path| - 1].id.num == num
  }

  lemma {:induction false} WalkHeight(index: map<Id, Block>, head: Block, path: seq<Block>, num: int, i: nat)
    requires Walk(index, head, path, num) && i < |path| && Numbered(head) && forall x :: x in index ==> Numbered(index[x])
    ensures path[i].id.num == head.id.num - i && Numbered(path[i])
  {
    if i > 0 {
      WalkHeight(index, head, path, num, i - 1);
      assert path[1..][i - 1] == path[i];
    }
  }

  lemma {:induction false} WalksAgree(index: map<Id, Block>, head: Block, p: seq<Block>, m: int, q: seq<Block>, n: int,
                                      i: nat)
    requires Walk(index, head, p, m) && Walk(index, head, q, n) && i < |p| && i < |q|
    ensures p[i] == q[i]
  {
    if i > 0 {
      WalksAgree(index, head, p, m, q, n, i - 1);
      assert p[1..][i - 1] == p[i] && q[1..][i - 1] == q[i];
    }
  }

  /** A walk that another one outruns can be continued. */
  lemma WalkGoesOn(index: map<Id, Block>, head: Block, p: seq<Block>, m: int, q: seq<Block>, n: int)
    requires Walk(index, head, p, m) && Walk(index, head, q, n) && Numbered(head) && forall x :: x in index ==> Numbered(index[x])
    requires n < m
    ensures p[|p| - 1].previous in index
  {
    WalkHeight(index, head, p, m, |p| - 1);
    WalkHeight(index, head, q, n, |q| - 1);
    WalksAgree(index, head, p, m, q, n, |p| - 1);
    assert q[1..][|p| - 1] == q[|p|];
  }

  ghost predicate Known(index: map<Id, Block>, branch: seq<Block>)
  {
    forall i :: 0 <= i < |branch| ==> branch[i].id in index && index[branch[i].id] == branch[i]
  }

  /** Ids are hashes: the entry under an id is the block with that id. */
  ghost predicate Indexed(index: map<Id, Block>)
  {
    forall i :: i in index ==> index[i].id == i && Numbered(index[i])
  }

  /** Ids are hashes of blocks, so an id belongs to one block only. */
  ghost predicate Genuine(hash: Id -> Block, b: Block)
  {
    hash(b.id) == b
  }

  ghost predicate AllGenuine(hash: Id -> Block, index: map<Id, Block>)
  {
    forall i :: i in index ==> Genuine(hash, index[i])
  }

  /** The n-th parent of a block among known blocks. */
  ghost function Down(index: map<Id, Block>, b: Block, n: nat): Option<Block>
  {
    if n == 0 then Some(b) else
    var child := Down(index, b, n - 1);
    if child.Some? && child.value.previous in index then Some(index[child.value.previous]) else None
  }

  lemma {:induction false} DownEnds(index: map<Id, Block>, b: Block, n: nat, m: nat)
    requires n <= m && Down(index, b, n).None?
    ensures Down(index, b, m).None?
  {
    if n < m {
      DownEnds(index, b, n, m - 1);
    }
  }

  lemma {:induction false} DownHeight(index: map<Id, Block>, b: Block, n: nat)
    requires Indexed(index) && Numbered(b) && Down(index, b, n).Some?
    ensures Numbered(Down(index, b, n).value) && Down(index, b, n).value.id.num == b.id.num - n
  {
    if 0 < n {
      DownHeight(index, b, n - 1);
    }
  }

  /** Down a known branch, tip first. */
  lemma {:induction false} DownBranch(index: map<Id, Block>, branch: seq<Block>, n: nat)
    requires Linked(branch) && Known(index, branch) && n < |branch|
    ensures Down(index, branch[0], n) == Some(branch[n])
  {
    if 0 < n {
      DownBranch(index, branch, n - 1);
      assert branch[n - 1].previous == branch[n].id;
    }
  }

  /** The blocks that are left when everything below a height is forgotten. */
  function Above(index: map<Id, Block>, low: int): map<Id, Block>
  {
    index - Stale(index, low)
  }

  lemma AboveTwice(index: map<Id, Block>, a: int, b: int)
    ensures Above(Above(index, a), b) == Above(index, Max(a, b))
  {
  }

  lemma AboveAll(index: map<Id, Block>)
    ensures Above(index, 0) == index
  {
  }

  /** The entries of an index under the ids of a branch. */
  function Entries(index: map<Id, Block>, branch: seq<Block>): map<Id, Block>
  {
    var ids := Ids(branch);
    map i | i in index && i in ids :: index[i]
  }

  function Ids(branch: seq<Block>): set<Id>
  {
    set b | b in branch :: b.id
  }

  /** Two branches down to blocks that share their predecessor, which is the nearest such pair. */
  ghost predicate Meet(a: seq<Block>, b: seq<Block>)
  {
    && 0 < |a| && 0 < |b| && a[|a| - 1].previous == b[|b| - 1].previous
    && Apart(a[..|a| - 1], b[..|b| - 1])
  }

  class ForkDatabase {
    var index: map<Id, Block>
    var head: Option<Block>
    var maxSize: int
    ghost const hash: Id -> Block

    constructor (ghost h: Id -> Block)
      ensures Valid() && index == map[] && head == None && maxSize == 1024 && hash == h
    {
      index, head, maxSize, hash := map[], None, 1024, h;
    }

    ghost predicate Valid()
      reads this
    {
      Indexed(index) && AllGenuine(hash, index) && (head.Some? ==> Numbered(head.value) && Genuine(hash, head.value))
    }

    predicate TooOld(b: Block)
      reads this
    {
      head.Some? && b.id.num <= Max(0, head.value.id.num - maxSize)
    }

    /** push_block: refused when too old or not linked; the head moves only to a higher block. */
    method Push(b: Block) returns (ok: bool)
      requires Valid() && Numbered(b) && Genuine(hash, b)
      modifies this`index, this`head
      ensures Valid()
      ensures ok <==> !old(TooOld(b)) && (old(head).Some? && b.previous != ZERO ==> b.previous in old(index))
      ensures ok ==> index == if b.id in old(index) then old(index) else old(index)[b.id := b]
      ensures ok ==> head == if old(head).None? || old(head).value.id.num < b.id.num then Some(b) else old(head)
      ensures !ok ==> index == old(index) && head == old(head)
    {
      if head.Some? && b.id.num <= Max(0, head.value.id.num - maxSize) {
        return false;
      }
      if head.Some? && b.previous != ZERO && b.previous !in index {
        return false;
      }
      if b.id !in index {
        index := index[b.id := b];
      }
      if head.None? || head.value.id.num < b.id.num {
        head := Some(b);
      }
      return true;
    }

    /**
     pop_block: the head moves to its parent if that is still alive. Parents are weak pointers: blocks
     erased from the index live on while the caller holds them.
     */
    method Pop(held: map<Id, Block>) returns (ok: bool)
      requires Valid() && Indexed(held) && AllGenuine(hash, held)
      modifies this`head
      ensures Valid()
      ensures ok <==> old(head).Some? && Down(index + held, old(head).value, 1).Some?
      ensures head == if ok then Down(index + held, old(head).value, 1) else old(head)
    {
      ok := head.Some? && head.value.previous in index + held;
      if ok {
        ghost var was := head.value;
        head := Some((index + held)[head.value.previous]);
        assert Down(index + held, was, 0) == Some(was);
      } else {
        assert head.Some? ==> Down(index + held, head.value, 0) == head;
      }
    }

    method SetHead(b: Block)
      requires Valid() && Numbered(b) && Genuine(hash, b)
      modifies this`head
      ensures Valid() && head == Some(b)
    {
      head := Some(b);
    }

    method Remove(id: Id)
      requires Valid()
      modifies this`index
      ensures Valid() && index == old(index) - {id}
    {
      index := index - {id};
    }

    /** Removing a rejected block and everything above it on its branch. */
    method RemoveAll(branch: seq<Block>)
      requires Valid()
      modifies this`index
      ensures Valid() && index == old(index) - Ids(branch)
    {
      for i := |branch| downto 0
        invariant Valid() && index == old(index) - Ids(branch[i..])
      {
        DropOneMore(old(index), Ids(branch[i + 1..]), branch[i].id);
        assert Ids(branch[i..]) == Ids(branch[i + 1..]) + {branch[i].id};
        Remove(branch[i].id);
      }
      assert branch[0..] == branch;
    }

    /** set_max_size: exactly the blocks too far below the head are forgotten. */
    method SetMaxSize(s: int)
      requires Valid()
      modifies this`index, this`maxSize
      ensures Valid() && maxSize == s
      ensures head.None? ==> index == old(index)
      ensures head.Some? ==> index == Above(old(index), Max(0, head.value.id.num - s))
    {
      maxSize := s;
      if head.Some? {
        var low := Max(0, head.value.id.num - s);
        ghost var all := Stale(index, low);
        var left := Stale(index, low);
        assert all - left == {};
        while left != {}
          invariant left <= all && index == old(index) - (all - left) && maxSize == s
          decreases |left|
        {
          var i := Pick(left);
          DropOneMore(old(index), all - left, i);
          index := index - {i};
          assert all - (left - {i}) == all - left + {i};
          left := left - {i};
        }
        assert all - left == all;
      }
    }

    /** fetch_branch_from: false when a block or one of its needed ancestors is not in the index. */
    method FetchBranches(first: Id, second: Id) returns (ok: bool, a: seq<Block>, b: seq<Block>)
      requires Valid()
      ensures ok ==> Linked(a) && Linked(b) && Known(index, a) && Known(index, b) && Meet(a, b)
      ensures ok ==> a[0].id == first && b[0].id == second
      ensures ok ==> a[|a| - 1].id.num == b[|b| - 1].id.num && |a| - |b| == first.num - second.num
      ensures ok <==> exists p, q :: Meeting(index, p, q, first, second)
    {
      hide Trail, Apart, Linked, Known;
      a, b := [], [];
      if first !in index || second !in index {
        NeedsTips(index, first, second);
        return false, a, b;
      }
      var x, y := index[first], index[second];
      TrailStart(index, first);
      TrailStart(index, second);
      while y.id.num < x.id.num
        invariant x.id in index && index[x.id] == x && b == [] && y == index[second]
        invariant Trail(index, a, first, x) && Trail(index, b, second, y)
        invariant x.id.num < y.id.num ==> a == [] && x.id == first
        decreases x.id.num
      {
        if x.previous !in index {
          LowEnd(index, a, first, x, second);
          return false, a, b;
        }
        TrailStep(index, a, first, x);
        a := a + [x];
        x := index[x.previous];
      }
      while x.id.num < y.id.num
        invariant x.id in index && index[x.id] == x && y.id in index && index[y.id] == y
        invariant Trail(index, a, first, x) && Trail(index, b, second, y)
        invariant x.id.num <= y.id.num && (a == [] || b == []) && (x.id.num < y.id.num ==> x.id == first)
        decreases y.id.num
      {
        if y.previous !in index {
          LowEnd(index, b, second, y, first);
          return false, a, b;
        }
        TrailStep(index, b, second, y);
        b := b + [y];
        y := index[y.previous];
      }
      TrailLength(index, a, first, x);
      TrailLength(index, b, second, y);
      NothingMet(a, b);
      while x.previous != y.previous
        invariant x.id in index && index[x.id] == x && y.id in index && index[y.id] == y
        invariant Trail(index, a, first, x) && Trail(index, b, second, y)
        invariant x.id.num == y.id.num && |a| - |b| == first.num - second.num
        invariant Apart(a, b)
        decreases x.id.num
      {
        if x.previous !in index || y.previous !in index {
          ApartEnd(index, a, first, x, b, second, y);
          return false, a, b;
        }
        TrailStep(index, a, first, x);
        TrailStep(index, b, second, y);
        StillApart(a, b, x, y);
        a, b := a + [x], b + [y];
        x, y := index[x.previous], index[y.previous];
      }
      TrailDone(index, a, first, x);
      TrailDone(index, b, second, y);
      assert (a + [x])[..|a|] == a && (b + [y])[..|b|] == b;
      a, b := a + [x], b + [y];
      assert Meeting(index, a, b, first, second);
      ok := true;
    }

    /** walk_main_branch_to_num: the head's ancestor with the given number, if the walk stays inside the index. */
    method WalkMainBranch(num: nat) returns (r: Option<Block>)
      requires Valid() && head.Some?
      ensures r.Some? ==> exists path :: Walk(index, head.value, path, num) && path[|path| - 1] == r.value
      ensures r.None? ==> forall path :: !Walk(index, head.value, path, num)
    {
      if head.value.id.num < num {
        forall path | Walk(index, head.value, path, num) ensures false {
          WalkHeight(index, head.value, path, num, |path| - 1);
        }
        return None;
      }
      var next := head.value;
      ghost var path := [next];
      while num < next.id.num
        invariant Walk(index, head.value, path, next.id.num) && path[|path| - 1] == next && num <= next.id.num && Numbered(next)
        decreases next.id.num
      {
        if next.previous !in index {
          forall other | Walk(index, head.value, other, num) ensures false {
            WalkGoesOn(index, head.value, path, next.id.num, other, num);
          }
          return None;
        }
        next := index[next.previous];
        assert (path + [next])[1..] == path[1..] + [next];
        path := path + [next];
      }
      return Some(next);
    }
  }

  function Stale(index: map<Id, Block>, low: int): set<Id>
  {
    set i | i in index && i.num < low
  }

  /** A finished stretch of a walk from `tip` whose next block is x. */
  ghost predicate Trail(index: map<Id, Block>, a: seq<Block>, tip: Id, x: Block)
  {
    && Linked(a + [x]) && Known(index, a + [x]) && (a + [x])[0].id == tip && |a| == tip.num - x.id.num
  }

  lemma TrailStart(index: map<Id, Block>, tip: Id)
    requires tip in index && Indexed(index)
    ensures Trail(index, [], tip, index[tip])
  {
  }

  lemma TrailStep(index: map<Id, Block>, a: seq<Block>, tip: Id, x: Block)
    requires Trail(index, a, tip, x) && Indexed(index) && x.previous in index
    ensures Trail(index, a + [x], tip, index[x.previous]) && index[x.previous].id.num == x.id.num - 1
  {
    var p := index[x.previous];
    var long := a + [x] + [p];
    assert index[x.id] == x by { assert (a + [x])[|a|] == x; }
    assert Numbered(x);
    forall i | 0 <= i < |long| - 1 ensures long[i].previous == long[i + 1].id {
      if i < |a| {
        assert long[i] == (a + [x])[i] && long[i + 1] == (a + [x])[i + 1];
      }
    }
    forall i | 0 <= i < |long| ensures long[i].id in index && index[long[i].id] == long[i] {
      if i <= |a| {
        assert long[i] == (a + [x])[i];
      }
    }
  }

  lemma TrailLength(index: map<Id, Block>, a: seq<Block>, tip: Id, x: Block)
    requires Trail(index, a, tip, x)
    ensures |a| == tip.num - x.id.num
  {
  }

  lemma TrailDone(index: map<Id, Block>, a: seq<Block>, tip: Id, x: Block)
    requires Trail(index, a, tip, x)
    ensures Linked(a + [x]) && Known(index, a + [x]) && (a + [x])[0].id == tip && |a| == tip.num - x.id.num
  {
  }

  /** Any two branches of the index from the given tips to blocks with one predecessor. */
  ghost predicate Meeting(index: map<Id, Block>, p: seq<Block>, q: seq<Block>, first: Id, second: Id)
  {
    && Branch(index, p, first) && Branch(index, q, second) && p[|p| - 1].previous == q[|q| - 1].previous
  }

  ghost predicate Branch(index: map<Id, Block>, p: seq<Block>, tip: Id)
  {
    p != [] && Linked(p) && Known(index, p) && p[0].id == tip
  }

  lemma {:induction false} SameWalk(index: map<Id, Block>, p: seq<Block>, a: seq<Block>, tip: Id, x: Block, i: nat)
    requires Indexed(index) && Branch(index, p, tip) && Trail(index, a, tip, x) && i < |p| && i <= |a|
    ensures p[i] == (a + [x])[i] && p[i].id.num == tip.num - i
  {
    var long := a + [x];
    assert index[p[i].id] == p[i] && index[long[i].id] == long[i] && Numbered(p[i]);
    if 0 < i {
      SameWalk(index, p, a, tip, x, i - 1);
      assert p[i - 1].previous == p[i].id && long[i - 1].previous == long[i].id;
      assert index[p[i - 1].id] == p[i - 1] && Numbered(p[i - 1]);
    }
  }

  /** A branch cannot go below a block whose parent is unknown. */
  lemma DeadEnd(index: map<Id, Block>, p: seq<Block>, a: seq<Block>, tip: Id, x: Block)
    requires Indexed(index) && Branch(index, p, tip) && Trail(index, a, tip, x) && x.previous !in index
    ensures |p| <= |a| + 1
  {
    if |a| < |p| {
      SameWalk(index, p, a, tip, x, |a|);
    }
  }

  lemma {:induction false} BranchNumber(index: map<Id, Block>, p: seq<Block>, tip: Id, i: nat)
    requires Indexed(index) && Branch(index, p, tip) && i < |p|
    ensures p[i].id.num == tip.num - i && Numbered(p[i])
  {
    assert index[p[i].id] == p[i];
    if 0 < i {
      BranchNumber(index, p, tip, i - 1);
      assert p[i - 1].previous == p[i].id;
    }
  }

  lemma NeedsTips(index: map<Id, Block>, first: Id, second: Id)
    requires first !in index || second !in index
    ensures !exists p, q :: Meeting(index, p, q, first, second)
  {
    forall p: seq<Block>, q: seq<Block> | Meeting(index, p, q, first, second) ensures p[0].id in index && q[0].id in index {
    }
  }

  lemma LowBranches(index: map<Id, Block>, a: seq<Block>, tip: Id, x: Block, other: Id, p: seq<Block>, q: seq<Block>)
    requires Indexed(index) && Trail(index, a, tip, x) && x.previous !in index && other.num < x.id.num
    requires Branch(index, p, tip) && Branch(index, q, other)
    ensures p[|p| - 1].previous != q[|q| - 1].previous
  {
    DeadEnd(index, p, a, tip, x);
    BranchNumber(index, p, tip, |p| - 1);
    BranchNumber(index, q, other, |q| - 1);
  }

  /** The walk on the higher branch ended above the other tip. */
  lemma LowEnd(index: map<Id, Block>, a: seq<Block>, tip: Id, x: Block, other: Id)
    requires Indexed(index) && Trail(index, a, tip, x) && x.previous !in index && other.num < x.id.num
    ensures !exists p, q :: Meeting(index, p, q, tip, other)
    ensures !exists p, q :: Meeting(index, p, q, other, tip)
  {
    forall p: seq<Block>, q: seq<Block> | Branch(index, p, tip) && Branch(index, q, other) ensures p[|p| - 1].previous != q[|q| - 1].previous {
      LowBranches(index, a, tip, x, other, p, q);
    }
  }

  lemma ApartBranches(index: map<Id, Block>, a: seq<Block>, first: Id, x: Block, b: seq<Block>, second: Id, y: Block,
                      p: seq<Block>, q: seq<Block>)
    requires Indexed(index) && Trail(index, a, first, x) && Trail(index, b, second, y) && x.id.num == y.id.num
    requires Apart(a, b) && x.previous != y.previous && (x.previous !in index || y.previous !in index)
    requires Branch(index, p, first) && Branch(index, q, second)
    ensures p[|p| - 1].previous != q[|q| - 1].previous
  {
    hide Indexed, Trail, Branch, Known, Linked;
    BranchNonempty(index, p, first);
    BranchNonempty(index, q, second);
    TrailLength(index, a, first, x);
    TrailLength(index, b, second, y);
    BranchNumber(index, p, first, |p| - 1);
    BranchNumber(index, q, second, |q| - 1);
    if x.previous !in index {
      DeadEnd(index, p, a, first, x);
    } else {
      DeadEnd(index, q, b, second, y);
    }
    if |p| <= |a| + 1 && |q| <= |b| + 1 {
      SameWalk(index, p, a, first, x, |p| - 1);
      SameWalk(index, q, b, second, y, |q| - 1);
    }
  }

  lemma BranchNonempty(index: map<Id, Block>, p: seq<Block>, tip: Id)
    requires Branch(index, p, tip)
    ensures p != []
  {
  }

  /** Both walks are level and apart, and one of them ended. */
  lemma ApartEnd(index: map<Id, Block>, a: seq<Block>, first: Id, x: Block, b: seq<Block>, second: Id, y: Block)
    requires Indexed(index) && Trail(index, a, first, x) && Trail(index, b, second, y) && x.id.num == y.id.num
    requires Apart(a, b) && x.previous != y.previous && (x.previous !in index || y.previous !in index)
    ensures !exists p, q :: Meeting(index, p, q, first, second)
  {
    forall p: seq<Block>, q: seq<Block> | Branch(index, p, first) && Branch(index, q, second) ensures p[|p| - 1].previous != q[|q| - 1].previous {
      ApartBranches(index, a, first, x, b, second, y, p, q);
    }
  }

  lemma NothingMet(a: seq<Block>, b: seq<Block>)
    requires a == [] || b == []
    ensures Apart(a, b)
  {
  }

  lemma StillApart(a: seq<Block>, b: seq<Block>, x: Block, y: Block)
    requires Apart(a, b) && x.previous != y.previous
    ensures Apart(a + [x], b + [y])
  {
  }

  /** Level by level from below, the branches have different predecessors so far. */
  ghost predicate Apart(a: seq<Block>, b: seq<Block>)
  {
    forall i, j :: 0 <= i < |a| && 0 <= j < |b| && |a| - i == |b| - j ==> a[i].previous != b[j].previous
  }
}
