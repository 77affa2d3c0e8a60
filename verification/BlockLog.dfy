/** The append-only block file with its position index, over any self-delimiting block encoding. */
module BlockLog {
  import opened Basics
  import opened Words

  datatype Block = Block(num: nat, body: int)

  /** What unpacking a stream gives: a block and the number of bytes it took. */
  datatype Parsed = Garbage | Parsed(block: Block, length: int)

  /** Unpacking finds a packed block again whatever follows it, and knows its length. */
  ghost predicate SelfDelimiting(pack: Block -> Bytes, unpack: Bytes -> Parsed)
  {
    forall b, rest :: unpack(pack(b) + rest) == Parsed(b, |pack(b)|)
  }

  // ----- stored positions -----

  const WORD: nat := 8

  // ----- layout -----

  /** The block file: each block followed by its own position. */
  ghost function Stream(pack: Block -> Bytes, blocks: seq<Block>): Bytes
  {
    if blocks == [] then [] else
    var before := Stream(pack, blocks[..|blocks| - 1]);
    before + pack(blocks[|blocks| - 1]) + Little(|before|, WORD)
  }

  /** Where block i starts. */
  ghost function Start(pack: Block -> Bytes, blocks: seq<Block>, i: nat): nat
    requires i <= |blocks|
  {
    |Stream(pack, blocks[..i])|
  }

  /** The index file: all positions in order. */
  ghost function Index(pack: Block -> Bytes, blocks: seq<Block>, n: nat): Bytes
    requires n <= |blocks|
  {
    if n == 0 then [] else Index(pack, blocks, n - 1) + Little(Start(pack, blocks, n - 1), WORD)
  }

  lemma {:induction false} IndexLength(pack: Block -> Bytes, blocks: seq<Block>, n: nat)
    requires n <= |blocks|
    ensures |Index(pack, blocks, n)| == WORD * n
  {
    if n != 0 {
      IndexLength(pack, blocks, n - 1);
    }
  }

  /** The i-th word of the index is the position of block i. */
  lemma {:induction false} IndexAt(pack: Block -> Bytes, blocks: seq<Block>, n: nat, i: nat)
    requires i < n <= |blocks|
    ensures |Index(pack, blocks, n)| == WORD * n
    ensures Index(pack, blocks, n)[WORD * i..WORD * i + WORD] == Little(Start(pack, blocks, i), WORD)
  {
    IndexLength(pack, blocks, n);
    IndexLength(pack, blocks, n - 1);
    var prefix := Index(pack, blocks, n - 1);
    if i < n - 1 {
      IndexAt(pack, blocks, n - 1, i);
      assert Index(pack, blocks, n)[WORD * i..WORD * i + WORD] == prefix[WORD * i..WORD * i + WORD];
    }
  }

  /** Block i, its position word and everything after it, as they lie in the file. */
  lemma {:induction false} StreamFrom(pack: Block -> Bytes, blocks: seq<Block>, i: nat) returns (rest: Bytes)
    requires i < |blocks|
    ensures var s, p := Stream(pack, blocks), Start(pack, blocks, i);
      && p + |pack(blocks[i])| + WORD <= |s| && s[p..] == pack(blocks[i]) + Little(p, WORD) + rest
      && Start(pack, blocks, i + 1) == p + |pack(blocks[i])| + WORD
    decreases |blocks|
  {
    var last := |blocks| - 1;
    NextStart(pack, blocks, i);
    LastPart(pack, blocks);
    var before, tail := Stream(pack, blocks[..last]), pack(blocks[last]) + Little(|Stream(pack, blocks[..last])|, WORD);
    if i == last {
      rest := [];
    } else {
      assert
        && blocks[..last][..i] == blocks[..i] && blocks[..last][..i + 1] == blocks[..i + 1]
        && blocks[..last][i] == blocks[i];
      var inner := StreamFrom(pack, blocks[..last], i);
      hide Stream, Little;
      rest := inner + tail;
      SuffixOfJoin(before, tail, Start(pack, blocks, i));
    }
  }

  lemma LastPart(pack: Block -> Bytes, blocks: seq<Block>)
    requires blocks != []
    ensures var before := Stream(pack, blocks[..|blocks| - 1]); var tail := pack(blocks[|blocks| - 1]) + Little(|before|, WORD);
      Stream(pack, blocks) == before + tail && Stream(pack, blocks)[|before|..] == tail + []
  {
    var before := Stream(pack, blocks[..|blocks| - 1]);
    assert Stream(pack, blocks) == before + pack(blocks[|blocks| - 1]) + Little(|before|, WORD);
    hide *;
    JoinThree(before, pack(blocks[|blocks| - 1]), Little(|before|, WORD));
  }

  lemma JoinThree(a: Bytes, b: Bytes, c: Bytes)
    ensures a + b + c == a + (b + c) && (a + b + c)[|a|..] == b + c + []
  {
  }

  lemma SuffixOfJoin(a: Bytes, b: Bytes, p: nat)
    requires p <= |a|
    ensures (a + b)[p..] == a[p..] + b
  {
  }

  lemma NextStart(pack: Block -> Bytes, blocks: seq<Block>, i: nat)
    requires i < |blocks|
    ensures Start(pack, blocks, i + 1) == Start(pack, blocks, i) + |pack(blocks[i])| + WORD
  {
    assert blocks[..i + 1][..i] == blocks[..i];
  }

  class Log {
    const pack: Block -> Bytes
    const unpack: Bytes -> Parsed
    var data: Bytes
    var index: Bytes
    var head: Option<Block>
    ghost var blocks: seq<Block>      // everything appended so far

    constructor (p: Block -> Bytes, u: Bytes -> Parsed)
      requires SelfDelimiting(p, u)
      ensures Valid() && blocks == [] && pack == p && unpack == u
    {
      pack, unpack, data, index, head, blocks := p, u, [], [], None, [];
    }

    /** Both files are exactly what the appended blocks determine, and stay below 2^64 bytes. */
    ghost predicate Valid()
      reads this
    {
      && Stored() && index == Index(pack, blocks, |blocks|)
    }

    /** The same without the index file. */
    ghost predicate Stored()
      reads this
    {
      Written() && head == if blocks == [] then None else Some(blocks[|blocks| - 1])
    }

    /** What the block file alone holds. */
    ghost predicate Written()
      reads this
    {
      && SelfDelimiting(pack, unpack) && data == Stream(pack, blocks) && |data| < Power(WORD)
      && (forall i :: 0 <= i < |blocks| ==> blocks[i].num == i + 1)
    }

    /** The index ends exactly where the entry of this block belongs. */
    predicate Fits(num: nat)
      reads this
    {
      |index| == WORD * (num - 1)
    }

    /** append: refused unless the index ends exactly where the block's entry belongs. */
    method Append(b: Block) returns (ok: bool, pos: nat)
      requires Stored() && |data| + |pack(b)| + WORD < Power(WORD)
      modifies this
      ensures ok == old(Fits(b.num)) && blocks == (if ok then old(blocks) + [b] else old(blocks)) && (!ok ==> unchanged(this))
      ensures ok ==>
        && pos == |old(data)| && data == old(data) + pack(b) + Little(pos, WORD)
        && index == old(index) + Little(pos, WORD) && head == Some(b)
      ensures old(Valid()) ==> Valid() && ok == (b.num == |old(blocks)| + 1) && (ok ==> pos == Start(pack, blocks, |blocks| - 1))
    {
      pos := |data|;
      IndexLength(pack, blocks, |blocks|);
      if !Fits(b.num) {
        return false, pos;
      }
      ghost var was := blocks;
      blocks := blocks + [b];
      assert blocks[..|was|] == was;
      IndexOfPrefix(pack, was, blocks, |was|);
      data := data + pack(b) + Little(pos, WORD);
      index := index + Little(pos, WORD);
      head := Some(b);
      ok := true;
    }

    /** read_block at the start of block i: that block, and the start of the next one. */
    method ReadBlock(pos: nat, ghost i: nat) returns (b: Block, next: nat)
      requires Written() && i < |blocks| && pos == Start(pack, blocks, i)
      ensures b == blocks[i] && next == Start(pack, blocks, i + 1)
    {
      hide Stream, Index, Little, Power, Value, SelfDelimiting;
      ghost var rest := StreamFrom(pack, blocks, i);
      assert data[pos..] == pack(blocks[i]) + (Little(pos, WORD) + rest);
      Unpacks(pack, unpack, blocks[i], Little(pos, WORD) + rest);
      var found := unpack(data[pos..]);
      b := found.block;
      next := pos + found.length + WORD;
    }

    /** get_block_pos, with None for npos. */
    method GetBlockPos(num: nat) returns (pos: Option<nat>)
      requires Valid()
      ensures pos == if 1 <= num <= |blocks| then Some(Start(pack, blocks, num - 1)) else None
    {
      hide Stream, Index, Little, Power, Value, SelfDelimiting;
      if head.None? || head.value.num < num || num == 0 {
        return None;
      }
      IndexAt(pack, blocks, |blocks|, num - 1);
      StartFits(pack, blocks, num - 1);
      ValueOfLittle(Start(pack, blocks, num - 1), WORD);
      var word := index[WORD * (num - 1)..WORD * (num - 1) + WORD];
      return Some(Value(word));
    }

    /** read_block_by_num: exactly the n-th appended block. */
    method ReadBlockByNum(num: nat) returns (b: Option<Block>)
      requires Valid()
      ensures b == if 1 <= num <= |blocks| then Some(blocks[num - 1]) else None
    {
      hide Stream, Index, Little, Power, Value, SelfDelimiting;
      var pos := GetBlockPos(num);
      if pos.None? {
        return None;
      }
      var found, next := ReadBlock(pos.value, num - 1);
      return Some(found);
    }

    /** The position word at the end of the file, which is the start of the last block. */
    method LastPosition() returns (pos: nat)
      requires Written() && blocks != []
      ensures pos == Start(pack, blocks, |blocks| - 1)
    {
      ghost var last := |blocks| - 1;
      ghost var before := Stream(pack, blocks[..last]);
      assert data == before + pack(blocks[last]) + Little(|before|, WORD);
      StartFits(pack, blocks, last);
      ValueOfLittle(|before|, WORD);
      assert data[|data| - WORD..] == Little(|before|, WORD);
      pos := Value(data[|data| - WORD..]);
    }

    method ReadHead() returns (b: Block)
      requires Written() && blocks != []
      ensures b == blocks[|blocks| - 1]
    {
      var pos := LastPosition();
      var next;
      b, next := ReadBlock(pos, |blocks| - 1);
    }

    /** Reading forward by returned positions visits every block in order. */
    method ReadAll() returns (all: seq<Block>)
      requires Stored() && blocks != []
      ensures all == blocks
    {
      FirstStart(pack, blocks);
      hide Stream, Index, Little, Power, Value, SelfDelimiting, Start;
      var b, next := ReadBlock(0, 0);
      all := [b];
      while b.num != head.value.num
        invariant
          && 1 <= |all| <= |blocks| && all == blocks[..|all|] && b == all[|all| - 1]
          && next == Start(pack, blocks, |all|)
        decreases |blocks| - |all|
      {
        b, next := ReadBlock(next, |all|);
        all := all + [b];
      }
    }

    /**
     open: an index without a log is dropped; a missing index, or one whose last entry is not the log's
     last position, is rebuilt; one with the right last entry is trusted.
     */
    method Open()
      requires Written() && (|index| == 0 || WORD <= |index|)
      modifies this`index, this`head
      ensures Stored()
      ensures blocks == [] ==> Valid()
      ensures blocks != [] ==>
        index == if Trusted(old(index)) then old(index) else if |blocks| == 1 then [] else Index(pack, blocks, |blocks|)
      ensures blocks != [] ==>
        (Valid() <==> if Trusted(old(index)) then old(index) == Index(pack, blocks, |blocks|) else 2 <= |blocks|)
    {
      hide Stream, Index, Little, Power, Value, SelfDelimiting, Start;
      NoBytes(pack, blocks);
      if |data| == 0 {
        head, index := None, [];
        NoIndex(pack, blocks);
        return;
      }
      var b := ReadHead();
      head := Some(b);
      var end := LastPosition();
      if |index| == 0 || Value(index[|index| - WORD..]) != end {
        ConstructIndex();
      }
    }

    /** The last entry of an index file is the position of the last block. */
    ghost predicate Trusted(file: Bytes)
      reads this
    {
      blocks != [] && WORD <= |file| && Value(file[|file| - WORD..]) == Start(pack, blocks, |blocks| - 1)
    }

    /**
     construct_index: rebuilt from the block file, the index is the one the appends wrote, except that a
     file with a single block gets no entry at all.
     */
    method ConstructIndex()
      requires Stored() && blocks != []
      modifies this`index
      ensures index == if |blocks| == 1 then [] else Index(pack, blocks, |blocks|)
      ensures Valid() <==> 2 <= |blocks|
      ensures Fits(|blocks| + 1) <==> 2 <= |blocks|
    {
      FirstStart(pack, blocks);
      NoIndex(pack, blocks);
      hide Stream, Index, Little, Power, Value, SelfDelimiting, Start;
      var end := LastPosition();
      index := [];
      var pos, at := 0, 0;
      ghost var n := 0;
      StartsGrow(pack, blocks, 0, |blocks| - 1);
      while pos < end
        invariant 0 <= n <= |blocks| && index == Index(pack, blocks, n) && at == Start(pack, blocks, n)
        invariant n == 0 ==> pos == 0
        invariant 0 < n ==> pos == Start(pack, blocks, n - 1) && 0 < end
        decreases |blocks| - n
      {
        if n == |blocks| {
          assert false;
        }
        StartFits(pack, blocks, n);
        var b, next := ReadBlock(at, n);
        PositionWord(pack, blocks, n);
        ValueOfLittle(at, WORD);
        IndexGrows(pack, blocks, n);
        pos := Value(data[next - WORD..next]);
        index := index + data[next - WORD..next];
        at := next;
        n := n + 1;
      }
      if 0 < n {
        StartsGrow(pack, blocks, n - 1, |blocks| - 1);
      }
      IndexLength(pack, blocks, |blocks|);
    }
  }

  lemma Unpacks(pack: Block -> Bytes, unpack: Bytes -> Parsed, b: Block, rest: Bytes)
    requires SelfDelimiting(pack, unpack)
    ensures unpack(pack(b) + rest) == Parsed(b, |pack(b)|)
  {
  }

  lemma FirstStart(pack: Block -> Bytes, blocks: seq<Block>)
    ensures Start(pack, blocks, 0) == 0
  {
  }

  lemma NoBytes(pack: Block -> Bytes, blocks: seq<Block>)
    ensures Stream(pack, blocks) == [] <==> blocks == []
  {
  }

  lemma NoIndex(pack: Block -> Bytes, blocks: seq<Block>)
    ensures Index(pack, blocks, 0) == []
  {
  }

  lemma IndexGrows(pack: Block -> Bytes, blocks: seq<Block>, n: nat)
    requires n < |blocks|
    ensures Index(pack, blocks, n + 1) == Index(pack, blocks, n) + Little(Start(pack, blocks, n), WORD)
  {
  }

  /** The eight bytes before the next block are this block's position. */
  lemma PositionWord(pack: Block -> Bytes, blocks: seq<Block>, i: nat)
    requires i < |blocks|
    ensures WORD <= Start(pack, blocks, i + 1) <= |Stream(pack, blocks)|
    ensures Stream(pack, blocks)[Start(pack, blocks, i + 1) - WORD..Start(pack, blocks, i + 1)] == Little(Start(pack, blocks, i), WORD)
  {
    hide Stream, Little;
    var rest := StreamFrom(pack, blocks, i);
    var s, p, n := Stream(pack, blocks), Start(pack, blocks, i), |pack(blocks[i])|;
    assert s[p + n..p + n + WORD] == s[p..][n..n + WORD];
  }

  lemma {:induction false} IndexOfPrefix(pack: Block -> Bytes, short: seq<Block>, long: seq<Block>, n: nat)
    requires n <= |short| <= |long| && long[..|short|] == short
    ensures Index(pack, short, n) == Index(pack, long, n)
  {
    if n != 0 {
      IndexOfPrefix(pack, short, long, n - 1);
      assert short[..n - 1] == long[..n - 1];
    }
  }

  lemma StartFits(pack: Block -> Bytes, blocks: seq<Block>, i: nat)
    requires i < |blocks|
    ensures Start(pack, blocks, i) <= |Stream(pack, blocks)|
  {
    var rest := StreamFrom(pack, blocks, i);
  }

  lemma {:induction false} StartsGrow(pack: Block -> Bytes, blocks: seq<Block>, i: nat, j: nat)
    requires i <= j < |blocks|
    ensures Start(pack, blocks, i) <= Start(pack, blocks, j) && (i < j ==> Start(pack, blocks, i) < Start(pack, blocks, j))
    decreases j - i
  {
    if i < j {
      NextStart(pack, blocks, i);
      StartsGrow(pack, blocks, i + 1, j);
    }
  }
}
