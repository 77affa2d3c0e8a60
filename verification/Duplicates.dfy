/** The list of recent transaction ids that keeps any transaction from being executed twice. */
module Duplicates {
  import opened Sums

  /** STEEMIT_MAX_TIME_UNTIL_EXPIRATION */
  const MAX_TIME_UNTIL_EXPIRATION: int := 60 * 60

  type Id = int

  datatype Transaction = Transaction(id: Id, expiration: int)
  datatype Block = Block(timestamp: int, transactions: seq<Transaction>)

  /** The id is a hash of the transaction, so it fixes the expiration. */
  ghost predicate Hashed(t: Transaction, expirationOf: Id -> int)
  {
    t.expiration == expirationOf(t.id)
  }

  /** The dedupe entries once all of these have been accepted. */
  function Entered(entries: map<Id, int>, ts: seq<Transaction>): map<Id, int>
  {
    if ts == [] then entries else Entered(entries, ts[..|ts| - 1])[ts[|ts| - 1].id := ts[|ts| - 1].expiration]
  }

  lemma NothingEntered(entries: map<Id, int>, ts: seq<Transaction>)
    ensures Entered(entries, ts[..0]) == entries && Ids(ts[..0]) == []
  {
  }

  lemma EnteredOneMore(entries: map<Id, int>, ts: seq<Transaction>, i: nat)
    requires i < |ts|
    ensures Entered(entries, ts[..i + 1]) == Entered(entries, ts[..i])[ts[i].id := ts[i].expiration]
    ensures Ids(ts[..i + 1]) == Ids(ts[..i]) + [ts[i].id]
  {
    assert ts[..i + 1][..i] == ts[..i];
  }

  /** Every transaction is acceptable after the ones before it. */
  predicate AllAcceptable(ts: seq<Transaction>, entries: map<Id, int>, head: nat, now: int)
  {
    forall i :: 0 <= i < |ts| ==> Acceptable(ts[i], Entered(entries, ts[..i]), head, now)
  }

  /** The checks of _apply_transaction; the expiration is not looked at in block 1. */
  predicate Acceptable(t: Transaction, entries: map<Id, int>, head: nat, now: int)
  {
    t.id !in entries && (0 < head ==> t.expiration <= now + MAX_TIME_UNTIL_EXPIRATION && now < t.expiration)
  }

  function ExpiredBy(entries: map<Id, int>, now: int): set<Id>
  {
    set i | i in entries && entries[i] < now
  }

  method FindExpired(entries: map<Id, int>, now: int) returns (due: set<Id>)
    ensures due == ExpiredBy(entries, now)
  {
    due := set i | i in entries && entries[i] < now;
  }

  /** Whatever was executed is still listed, or so old that its expiration alone keeps it out. */
  ghost predicate Remembered(executed: seq<Id>, entries: map<Id, int>, expirationOf: Id -> int, head: nat, now: int)
  {
    forall i :: 0 <= i < |executed| ==> executed[i] in entries || (0 < head && expirationOf(executed[i]) < now)
  }

  ghost predicate NoRepeats(executed: seq<Id>)
  {
    forall i, j :: 0 <= i < j < |executed| ==> executed[i] != executed[j]
  }

  class History {
    ghost const expirationOf: Id -> int
    var head: nat
    var now: int
    var entries: map<Id, int>
    var executed: seq<Id>      // every transaction executed on this chain, in order

    constructor (genesis: int, ghost hash: Id -> int)
      ensures Valid() && head == 0 && now == genesis && entries == map[] && executed == [] && expirationOf == hash
    {
      expirationOf, head, now, entries, executed := hash, 0, genesis, map[], [];
    }

    ghost predicate Valid()
      reads this
    {
      && NoRepeats(executed) && Remembered(executed, entries, expirationOf, head, now)
      && forall i :: i in entries ==> entries[i] == expirationOf(i) && i in executed
    }

    /** _apply_transaction up to the execution of the operations. */
    method Apply(t: Transaction) returns (ok: bool)
      requires Valid() && Hashed(t, expirationOf)
      modifies this`entries, this`executed
      ensures Valid() && ok == Acceptable(t, old(entries), head, now)
      ensures ok ==>
        && t.id !in old(executed) && executed == old(executed) + [t.id] && entries == old(entries)[t.id := t.expiration]
      ensures !ok ==> executed == old(executed) && entries == old(entries)
    {
      ok := t.id !in entries && (head == 0 || (now < t.expiration && t.expiration <= now + MAX_TIME_UNTIL_EXPIRATION));
      if ok {
        entries := entries[t.id := t.expiration];
        executed := executed + [t.id];
      }
    }

    /** The block's time takes effect and clear_expired_transactions runs. */
    method Finish(timestamp: int)
      requires Valid() && now < timestamp
      modifies this`head, this`now, this`entries
      ensures Valid() && head == old(head) + 1 && now == timestamp
      ensures entries == old(entries) - ExpiredBy(old(entries), timestamp)
    {
      head, now := head + 1, timestamp;
      ghost var all := ExpiredBy(entries, now);
      var due := FindExpired(entries, now);
      assert all - due == {};
      while due != {}
        invariant due <= all && entries == old(entries) - (all - due) && head == old(head) + 1 && now == timestamp
        decreases |due|
      {
        var i := Pick(due);
        DropOneMore(old(entries), all - due, i);
        entries := entries - {i};
        assert all - (due - {i}) == all - due + {i};
        due := due - {i};
      }
      assert all - due == all;
      ClearingForgetsNothing(executed, old(entries), expirationOf, old(head), old(now), timestamp);
    }

    /** A block with all its transactions, or nothing of it. */
    method ApplyBlock(b: Block) returns (ok: bool)
      requires Valid() && forall i :: 0 <= i < |b.transactions| ==> Hashed(b.transactions[i], expirationOf)
      modifies this`head, this`now, this`entries, this`executed
      ensures Valid()
      ensures ok <==> old(now) < b.timestamp && AllAcceptable(b.transactions, old(entries), old(head), old(now))
      ensures ok ==> head == old(head) + 1 && now == b.timestamp && executed == old(executed) + Ids(b.transactions)
      ensures ok ==>
        var entered := Entered(old(entries), b.transactions); entries == entered - ExpiredBy(entered, b.timestamp)
      ensures !ok ==> head == old(head) && now == old(now) && entries == old(entries) && executed == old(executed)
      ensures ok ==> forall i :: 0 <= i < |b.transactions| ==> b.transactions[i].id !in old(executed)
    {
      hide AllAcceptable, Entered, Ids, ExpiredBy;
      var before, ran := entries, executed;
      if b.timestamp <= now {
        return false;
      }
      ok := ApplyAll(b.transactions);
      if ok {
        Finish(b.timestamp);
      } else {
        entries, executed := before, ran;
      }
    }

    /** The transactions of a block in order, up to the first one that is refused. */
    method ApplyAll(ts: seq<Transaction>) returns (ok: bool)
      requires Valid() && forall i :: 0 <= i < |ts| ==> Hashed(ts[i], expirationOf)
      modifies this`entries, this`executed
      ensures Valid() && (ok <==> AllAcceptable(ts, old(entries), head, now))
      ensures ok ==> entries == Entered(old(entries), ts) && executed == old(executed) + Ids(ts)
      ensures ok ==> forall i :: 0 <= i < |ts| ==> ts[i].id !in old(executed)
    {
      hide Acceptable, Entered, Ids, ExpiredBy, History.Valid;
      NothingEntered(entries, ts);
      for i := 0 to |ts|
        invariant Valid() && executed == old(executed) + Ids(ts[..i]) && entries == Entered(old(entries), ts[..i])
        invariant forall j :: 0 <= j < i ==> ts[j].id !in old(executed)
        invariant forall j :: 0 <= j < i ==> Acceptable(ts[j], Entered(old(entries), ts[..j]), head, now)
      {
        EnteredOneMore(old(entries), ts, i);
        ok := Apply(ts[i]);
        if !ok {
          return;
        }
      }
      assert ts[..|ts|] == ts;
      ok := true;
    }

    /** Over any run of blocks, accepted or refused, no transaction is executed twice. */
    method Run(blocks: seq<Block>)
      requires Valid() && forall k, i :: 0 <= k < |blocks| && 0 <= i < |blocks[k].transactions| ==> Hashed(blocks[k].transactions[i], expirationOf)
      modifies this`head, this`now, this`entries, this`executed
      ensures Valid() && NoRepeats(executed) && old(executed) <= executed
    {
      for k := 0 to |blocks|
        invariant Valid() && old(executed) <= executed
      {
        var ok := ApplyBlock(blocks[k]);
      }
    }
  }

  /** Dropping what expired before a later time keeps everything executed remembered. */
  lemma ClearingForgetsNothing(executed: seq<Id>, entries: map<Id, int>, expirationOf: Id -> int, head: nat, now: int,
                               later: int)
    requires Remembered(executed, entries, expirationOf, head, now) && now < later && forall i :: i in entries ==> entries[i] == expirationOf(i)
    ensures Remembered(executed, entries - ExpiredBy(entries, later), expirationOf, head + 1, later)
  {
    var kept := entries - ExpiredBy(entries, later);
    forall i | 0 <= i < |executed| ensures executed[i] in kept || expirationOf(executed[i]) < later {
      var id := executed[i];
      assert id in entries ==> entries[id] == expirationOf(id);
      assert id in entries && id !in ExpiredBy(entries, later) ==> id in kept;
    }
  }

  function Ids(ts: seq<Transaction>): seq<Id>
  {
    seq(|ts|, i requires 0 <= i < |ts| => ts[i].id)
  }

  /** An executed transaction is refused at every later time on the chain: by the list or by its expiration. */
  lemma ExecutedIsRefused(executed: seq<Id>, entries: map<Id, int>, expirationOf: Id -> int, head: nat, now: int,
                          t: Transaction)
    requires Remembered(executed, entries, expirationOf, head, now) && Hashed(t, expirationOf) && t.id in executed
    ensures !Acceptable(t, entries, head, now)
  {
    var i :| 0 <= i < |executed| && executed[i] == t.id;
  }
}
