/** A reorganization that the node cannot take back, from an empty node and pushed blocks only. */
module ForkExample {
  import opened Basics
  import opened Forks
  import opened Switching

  /** Block n of a branch; block 22 of branch 2 is rejected after its commitment. */
  function Made(branch: int, n: nat): Block
  {
    Block(Id(n, branch), if n <= 1 then ZERO else Id(n - 1, branch), if branch == 2 && n == 22 then 0 else 1)
  }

  function Step(s: int, b: Block): Outcome<int>
  {
    if b.payload == 0 then Rejected(Some(EarlyLib(b.id.num)), s) else Applied(s + 1, EarlyLib(b.id.num))
  }

  ghost function Hash(): Id -> Block { (i: Id) => Made(i.hash, i.num) }

  function OldChain(n: nat): seq<Block>
  {
    seq(n, k requires 0 <= k < n => Made(1, k + 1))
  }

  lemma MadeWell(branch: int, n: nat)
    requires 0 < n
    ensures Numbered(Made(branch, n)) && Genuine(Hash(), Made(branch, n))
  {
  }

  /** Blocks 1 to n of a branch are known. */
  ghost predicate Has(index: map<Id, Block>, branch: int, n: nat)
  {
    forall k :: 1 <= k <= n ==> Id(k, branch) in index
  }

  /** The node on n blocks of branch 1. */
  ghost predicate Grown(forks: ForkDatabase, node: Node<int>, n: nat)
    reads forks, node
  {
    && forks.Valid() && node.Valid() && node.hash == forks.hash == Hash() && node.step == Step
    && node.chain == OldChain(n) && Has(forks.index, 1, n)
    && forks.head == (if n == 0 then None else Some(Made(1, n))) && forks.maxSize == if n == 0 then 1024 else n + 1
  }

  lemma OldHead(n: nat)
    ensures HeadOf(OldChain(n)) == (if n == 0 then ZERO else Id(n, 1)) && OldChain(n) + [Made(1, n + 1)] == OldChain(n + 1)
  {
  }

  method Grow(forks: ForkDatabase, node: Node<int>, n: nat)
    requires Grown(forks, node, n) && n < MAX_WITNESSES
    modifies forks, node
    ensures Grown(forks, node, n + 1)
  {
    hide Node.Valid, ForkDatabase.Valid, SwitchOutcome, Meeting, Branches, Trim;
    var b := Made(1, n + 1);
    MadeWell(1, n + 1);
    OldHead(n);
    ghost var v := Pushed(ViewOf(node, forks), b);
    assert Linkable(forks, b);
    var r := PushBlock(forks, node, b);
    assert v.head == Some(b);
    AboveAll(v.index);
    assert forks.index == v.index by {
      assert v.index - {} == v.index;
    }
  }

  /** The other branch waits while it is not higher. */
  ghost predicate Waits(forks: ForkDatabase, node: Node<int>, n: nat)
    reads forks, node
  {
    Grown(forks, node, MAX_WITNESSES) && Has(forks.index, 2, n)
  }

  method Wait(forks: ForkDatabase, node: Node<int>, n: nat)
    requires Waits(forks, node, n) && n < MAX_WITNESSES
    modifies forks, node
    ensures Waits(forks, node, n + 1)
  {
    hide Node.Valid, ForkDatabase.Valid, SwitchOutcome, Meeting, Branches, Trim;
    var b := Made(2, n + 1);
    MadeWell(2, n + 1);
    OldHead(MAX_WITNESSES);
    assert Linkable(forks, b);
    var r := PushBlock(forks, node, b);
  }

  /** A branch from its block n down. */
  ghost function Downward(branch: int, n: nat): seq<Block>
  {
    seq(n, k requires 0 <= k < n => Made(branch, n - k))
  }

  lemma KnownDownward(index: map<Id, Block>, branch: int, n: nat)
    requires 0 < n && Has(index, branch, n) && Indexed(index) && AllGenuine(Hash(), index)
    ensures Branch(index, Downward(branch, n), Id(n, branch)) && |Downward(branch, n)| == n && Downward(branch, n)[n - 1].previous == ZERO
  {
    var p := Downward(branch, n);
    DownwardAt(branch, n);
    hide Downward;
    forall k | 0 <= k < n ensures p[k].id in index && index[p[k].id] == p[k] {
      assert p[k].id == Id(n - k, branch) && Id(n - k, branch) in index && Genuine(Hash(), index[Id(n - k, branch)]);
    }
    forall k | 0 <= k < n - 1 ensures p[k].previous == p[k + 1].id {
      assert p[k] == Made(branch, n - k) && p[k + 1] == Made(branch, n - (k + 1));
    }
  }

  lemma DownwardAt(branch: int, n: nat)
    ensures |Downward(branch, n)| == n && forall k :: 0 <= k < n ==> Downward(branch, n)[k] == Made(branch, n - k)
  {
  }

  /** Any known branch from block n is a part of that way down. */
  lemma {:induction false} OnlyDownward(index: map<Id, Block>, p: seq<Block>, branch: int, n: nat, k: nat)
    requires 0 < n && Indexed(index) && AllGenuine(Hash(), index) && Linked(p) && Known(index, p) && p != []
    requires p[0].id == Id(n, branch) && k < |p|
    ensures k < n && p[k] == Made(branch, n - k)
  {
    assert index[p[k].id] == p[k] && Genuine(Hash(), index[p[k].id]) && Numbered(index[p[k].id]);
    if 0 < k {
      OnlyDownward(index, p, branch, n, k - 1);
      assert p[k - 1].previous == p[k].id;
    }
  }

  lemma {:induction false} GoodPrefix(s: int, blocks: seq<Block>, i: nat)
    requires i <= |blocks| && forall k :: 0 <= k < i ==> blocks[k].payload == 1
    ensures Replay(Step, s, blocks[..i]).Some?
  {
    if 0 < i {
      GoodPrefix(s, blocks, i - 1);
      OnePlayed(Step, s, blocks, i - 1);
    }
  }

  lemma LastRejected(s: int)
    ensures var up := Reversed(Downward(2, 22)); Replay(Step, s, up).None? && Committing(Step, s, up) == 22
  {
    var up := Reversed(Downward(2, 22));
    ReversedEach(Downward(2, 22));
    DownwardAt(2, 22);
    hide Reversed, Downward, Replay, Accepted;
    forall k | 0 <= k < 22 ensures up[k] == Made(2, k + 1) {
      assert up[k] == Downward(2, 22)[21 - k];
    }
    GoodPrefix(s, up, 21);
    OnePlayed(Step, s, up, 21);
    assert up[..22] == up;
    FirstRejection(Step, s, up, 21, 0, Window(0, 0));
  }

  lemma RuleHolds()
    ensures EarlyRule(Step)
  {
  }

  lemma Apart12(m: nat, n: nat)
    requires 0 < m && 0 < n && Made(2, m).previous == Made(1, n).previous
    ensures m == n == 1
  {
  }

  lemma AllDownward(index: map<Id, Block>, p: seq<Block>, branch: int, n: nat)
    requires 0 < n && Indexed(index) && AllGenuine(Hash(), index) && Linked(p) && Known(index, p) && |p| == n
    requires p[0].id == Id(n, branch)
    ensures p == Downward(branch, n)
  {
    hide Indexed, AllGenuine, Linked, Known, Downward, Made;
    DownwardAt(branch, n);
    forall k | 0 <= k < n ensures p[k] == Downward(branch, n)[k] {
      OnlyDownward(index, p, branch, n, k);
    }
  }

  /** The two branches can only be the whole ones. */
  lemma WholeBranches(index: map<Id, Block>, first: seq<Block>, second: seq<Block>)
    requires Indexed(index) && AllGenuine(Hash(), index) && Branches(index, first, second, Id(22, 2), Id(21, 1))
    ensures first == Downward(2, 22) && |second| == 21
  {
    hide Indexed, AllGenuine, Downward, Apart, Made;
    OnlyDownward(index, first, 2, 22, |first| - 1);
    OnlyDownward(index, second, 1, 21, |second| - 1);
    Apart12(23 - |first|, 22 - |second|);
    assert |first| == 22;
    AllDownward(index, first, 2, 22);
  }

  lemma TheyMeet(index: map<Id, Block>)
    requires Indexed(index) && AllGenuine(Hash(), index) && Has(index, 2, 22) && Has(index, 1, 21)
    ensures exists p, q :: Meeting(index, p, q, Id(22, 2), Id(21, 1))
  {
    hide Indexed, AllGenuine, Has, Downward, Branch, Made;
    KnownDownward(index, 2, 22);
    KnownDownward(index, 1, 21);
    Together(index, Downward(2, 22), Downward(1, 21), Id(22, 2), Id(21, 1));
  }

  lemma Together(index: map<Id, Block>, p: seq<Block>, q: seq<Block>, first: Id, second: Id)
    requires Branch(index, p, first) && Branch(index, q, second) && p[|p| - 1].previous == q[|q| - 1].previous
    ensures exists a, b :: Meeting(index, a, b, first, second)
  {
    assert Meeting(index, p, q, first, second);
  }

  lemma SwitchSticks(v: View<int>, u: View<int>, first: seq<Block>, second: seq<Block>, r: Result)
    requires Indexed(v.index) && AllGenuine(Hash(), v.index) && |v.chain| == 21
    requires Branches(v.index, first, second, Id(22, 2), Id(21, 1)) && SwitchOutcome(Step, v, u, first, second, r)
    ensures r == Stuck
  {
    WholeBranches(v.index, first, second);
    BranchesDescend(v.index, first);
    DownwardAt(2, 22);
    hide SwitchOutcome, Downward, Reversed, Branches;
    LastRejected(ForkState(v.stack, v.state, second));
    RuleHolds();
    LateRejectionSticks(Step, v, u, first, second, r);
  }

  lemma Sticks(v: View<int>, u: View<int>, r: PushResult)
    requires PushOutcome(Step, v, u, Made(2, 22), r) && v.chain == OldChain(21) && v.head == Some(Made(2, 22))
    requires Indexed(v.index) && AllGenuine(Hash(), v.index) && Has(v.index, 2, 22) && Has(v.index, 1, 21)
    ensures r == Forked(Stuck)
  {
    hide SwitchOutcome, OldChain, Indexed, AllGenuine, Has, Branches, Meeting, HeadOf;
    OldHead(21);
    OldLength(21);
    TheyMeet(v.index);
    var first, second :| Branches(v.index, first, second, Id(22, 2), Id(21, 1)) && SwitchOutcome(Step, v, u, first, second, r.switch);
    SwitchSticks(v, u, first, second, r.switch);
  }

  lemma OldLength(n: nat)
    ensures |OldChain(n)| == n
  {
  }

  /**
   Twenty-one blocks of one branch are applied and twenty-two of another arrive. The switch applies
   twenty-one of them; the last one commits block 1 and is rejected. The original chain does not come back.
   */
  method CommitAboveForkExample() returns (r: PushResult)
    ensures r == Forked(Stuck)
  {
    hide Node.Valid, ForkDatabase.Valid, PushOutcome, Made, OldChain;
    var forks := new ForkDatabase(Hash());
    var node := new Node<int>(0, Step, Hash());
    Empty(forks, node);
    for n := 0 to MAX_WITNESSES
      invariant Grown(forks, node, n)
    {
      Grow(forks, node, n);
    }
    for n := 0 to MAX_WITNESSES
      invariant Waits(forks, node, n)
    {
      Wait(forks, node, n);
    }
    ghost var v := Pushed(ViewOf(node, forks), Made(2, 22));
    LastPush(forks, node);
    MadeWell(2, 22);
    r := PushBlock(forks, node, Made(2, 22));
    Sticks(v, ViewOf(node, forks), r);
  }

  lemma Empty(forks: ForkDatabase, node: Node<int>)
    requires forks.Valid() && node.Valid() && node.hash == forks.hash == Hash() && node.step == Step
    requires node.chain == [] && forks.index == map[] && forks.head == None && forks.maxSize == 1024
    ensures Grown(forks, node, 0)
  {
  }

  lemma LastPush(forks: ForkDatabase, node: Node<int>)
    requires Waits(forks, node, 21)
    ensures Linkable(forks, Made(2, 22))
    ensures var v := Pushed(ViewOf(node, forks), Made(2, 22));
      v.chain == OldChain(21) && v.head == Some(Made(2, 22)) && Indexed(v.index) && AllGenuine(Hash(), v.index) && Has(v.index, 2, 22) && Has(v.index, 1, 21)
  {
    MadeWell(2, 22);
    forall k | 1 <= k <= 22 ensures Id(k, 2) in Pushed(ViewOf(node, forks), Made(2, 22)).index {
    }
  }
}
