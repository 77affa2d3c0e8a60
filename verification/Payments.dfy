/** Payments made one by one at the same time, and what they come to for every account. */
module Payments {
  import opened Basics
  import opened Sums
  import opened Assets
  import opened Ledger

  /**
   What one payment does: `to` receives STEEM and, if SBD moves at all, SBD, and `from` has so many more
   open savings requests.
   */
  datatype Bill = Bill(to: Account, steem: int, sbd: int, moves: bool, from: Account, requests: int)

  /** A payment of one amount. */
  function Amount(to: Account, x: Asset): Bill
  {
    Bill(to, if x.symbol == STEEM then x.amount else 0, if x.symbol == SBD then x.amount else 0, x.symbol == SBD, to, 0)
  }

  /** A purse after payments: an SBD movement also settles the interest, once. */
  function Received(p: Purse, steem: int, sbd: int, moves: bool, requests: int, now: int, rate: int): Purse
  {
    p.(steem := p.steem + steem, savingsRequests := p.savingsRequests + requests,
       sbd := if moves then Moved(p.sbd, sbd, now, rate) else p.sbd)
  }

  function PayBill(purses: map<Account, Purse>, b: Bill, now: int, rate: int): map<Account, Purse>
    requires b.to in purses && b.from in purses
  {
    var p := purses[b.to := Received(purses[b.to], b.steem, b.sbd, b.moves, 0, now, rate)];
    p[b.from := Received(p[b.from], 0, 0, false, b.requests, now, rate)]
  }

  ghost function SteemTo<K>(bills: map<K, Bill>, a: Account): int { SumMap(bills, (b: Bill) => if b.to == a then b.steem else 0) }
  ghost function SbdTo<K>(bills: map<K, Bill>, a: Account): int { SumMap(bills, (b: Bill) => if b.to == a then b.sbd else 0) }
  ghost function RequestsOf<K>(bills: map<K, Bill>, a: Account): int { SumMap(bills, (b: Bill) => if b.from == a then b.requests else 0) }
  ghost predicate MovesSbd<K(!new)>(bills: map<K, Bill>, a: Account) { exists k :: k in bills && bills[k].to == a && bills[k].moves }

  /** Payments move supplies and nothing else: the terms they are made on stay. */
  ghost predicate SameTerms(was: Props, now: Props)
  {
    now == was.(sbdSupply := now.sbdSupply, virtualSupply := now.virtualSupply)
  }

  /** Every account has received exactly what the bills say, and nobody anything else. */
  ghost predicate AllSettled<K(!new)>(was: map<Account, Purse>, now: map<Account, Purse>, bills: map<K, Bill>, time: int, rate: int)
  {
    && now.Keys == was.Keys
    && forall a :: a in was ==>
         now[a] == Received(was[a], SteemTo(bills, a), SbdTo(bills, a), MovesSbd(bills, a), RequestsOf(bills, a), time, rate)
  }

  /** Two movements at one time are one: interest is settled by the first and not earned in between. */
  lemma MovedTwice(h: Holding, x: int, y: int, now: int, rate: int)
    ensures Moved(Moved(h, x, now, rate), y, now, rate) == Moved(h, x + y, now, rate)
  {
  }

  lemma SettledTwice(p: Purse, s: int, t: int, x: int, y: int, m: bool, n: bool, q: int, r: int, now: int, rate: int)
    requires (!m ==> x == 0) && (!n ==> y == 0)
    ensures Received(Received(p, s, x, m, q, now, rate), t, y, n, r, now, rate) == Received(p, s + t, x + y, m || n, q + r, now, rate)
  {
    hide Moved;
    MovedTwice(p.sbd, x, y, now, rate);
  }

  lemma NothingSettled<K(!new)>(purses: map<Account, Purse>, time: int, rate: int)
    ensures AllSettled<K>(purses, purses, map[], time, rate)
  {
  }

  /** No SBD without a movement. */
  ghost predicate Plain<K(!new)>(bills: map<K, Bill>)
  {
    forall k :: k in bills && !bills[k].moves ==> bills[k].sbd == 0
  }

  lemma UnmovedIsZero<K(!new)>(bills: map<K, Bill>, a: Account)
    requires Plain(bills) && !MovesSbd(bills, a)
    ensures SbdTo(bills, a) == 0
  {
    SumMapZero(bills, (b: Bill) => if b.to == a then b.sbd else 0);
  }

  /** One more bill paid. */
  lemma OneMoreBill<K(!new)>(was: map<Account, Purse>, mid: map<Account, Purse>, now: map<Account, Purse>,
                            bills: map<K, Bill>, k: K, b: Bill, time: int, rate: int)
    requires AllSettled(was, mid, bills, time, rate) && Plain(bills) && k !in bills && (!b.moves ==> b.sbd == 0)
    requires b.to in mid && b.from in mid && now == PayBill(mid, b, time, rate)
    ensures AllSettled(was, now, bills[k := b], time, rate) && Plain(bills[k := b])
  {
    hide SumMap, Moved;
    forall a | a in was
      ensures now[a] == Received(was[a], SteemTo(bills[k := b], a), SbdTo(bills[k := b], a), MovesSbd(bills[k := b], a),
                                RequestsOf(bills[k := b], a), time, rate) {
      OneMoreFor(was, mid, now, bills, k, b, time, rate, a);
    }
  }

  lemma OneMoreFor<K(!new)>(was: map<Account, Purse>, mid: map<Account, Purse>, now: map<Account, Purse>,
                           bills: map<K, Bill>, k: K, b: Bill, time: int, rate: int, a: Account)
    requires AllSettled(was, mid, bills, time, rate) && Plain(bills) && k !in bills && (!b.moves ==> b.sbd == 0)
    requires b.to in mid && b.from in mid && now == PayBill(mid, b, time, rate) && a in was
    ensures now[a] == Received(was[a], SteemTo(bills[k := b], a), SbdTo(bills[k := b], a), MovesSbd(bills[k := b], a),
                              RequestsOf(bills[k := b], a), time, rate)
  {
    hide SumMap;
    var more := bills[k := b];
    SumMapInsert(bills, k, b, (x: Bill) => if x.to == a then x.steem else 0);
    SumMapInsert(bills, k, b, (x: Bill) => if x.to == a then x.sbd else 0);
    SumMapInsert(bills, k, b, (x: Bill) => if x.from == a then x.requests else 0);
    var s, t, x, y := SteemTo(bills, a), if b.to == a then b.steem else 0, SbdTo(bills, a), if b.to == a then b.sbd else 0;
    var m, n, q, r := MovesSbd(bills, a), b.to == a && b.moves, RequestsOf(bills, a), if b.from == a then b.requests else 0;
    assert MovesSbd(more, a) == (m || n) by { MovesMore(bills, k, b, a); }
    if !m {
      UnmovedIsZero(bills, a);
    }
    hide Moved;
    assert now[a] == Received(mid[a], t, y, n, r, time, rate);
    SettledTwice(was[a], s, t, x, y, m, n, q, r, time, rate);
  }

  lemma MovesMore<K(!new)>(bills: map<K, Bill>, k: K, b: Bill, a: Account)
    requires k !in bills
    ensures MovesSbd(bills[k := b], a) == (MovesSbd(bills, a) || (b.to == a && b.moves))
  {
    var more := bills[k := b];
    if MovesSbd(bills, a) {
      var j :| j in bills && bills[j].to == a && bills[j].moves;
      assert j in more && more[j] == bills[j];
    }
    if b.to == a && b.moves {
      assert k in more && more[k] == b;
    }
  }
}
