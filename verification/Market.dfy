/** The internal STEEM:SBD market: matching, filling and cancelling limit orders. */
module Market {
  import opened Basics
  import opened Sums
  import opened Assets
  import opened Ledger
  import opened Payments

  /** STEEMIT_MAX_SHARE_SUPPLY: the scan for counter-orders starts at the price of so many for one. */
  const MAX_SHARE_SUPPLY: int := 1000000000000000

  // ----- one match -----

  ghost predicate Priced(o: Order)
  {
    0 < o.base && 0 < o.quote
  }

  /** amount_to_receive: what the order asks for all it still has for sale, rounded down. */
  function Asks(o: Order): int
    requires 0 < o.base
  {
    MulDiv(o.forSale, o.quote, o.base)
  }

  /** What the new order pays and receives when matched at the old order's price. */
  function MatchAmounts(n: Order, o: Order): (int, int)
    requires 0 < o.base && 0 < o.quote
  {
    if n.forSale <= Asks(o) then (n.forSale, MulDiv(n.forSale, o.base, o.quote)) else (Asks(o), o.forSale)
  }

  /** The old order's price is at least what the new one asks. */
  predicate Crosses(n: Order, o: Order)
  {
    n.quote * o.quote <= o.base * n.base
  }

  /**
   A match between crossing orders: both sides trade something, neither more than it has for sale,
   one of them sells out, and each gets at least its own limit price for what it gives, rounded down.
   */
  lemma MatchIsFair(n: Order, o: Order)
    requires Priced(n) && Priced(o) && 0 < n.forSale && 0 < o.forSale && 0 < Asks(n) && 0 < Asks(o) && Crosses(n, o)
    ensures var (pays, receives) := MatchAmounts(n, o);
      && 0 < pays <= n.forSale && 0 < receives <= o.forSale
      && (pays == n.forSale || receives == o.forSale)
      && MulDiv(pays, n.quote, n.base) <= receives
      && MulDiv(receives, o.quote, o.base) <= pays
  {
    var (pays, receives) := MatchAmounts(n, o);
    assert n.quote * o.quote <= o.base * n.base;
    if n.forSale <= Asks(o) {
      BetterRatioGivesMore(n.forSale, o.base, o.quote, n.quote, n.base);
      MulDivBounds(n.forSale, o.base, o.quote);
      MulDivAtLeast(o.forSale, o.quote, o.base, n.forSale);
      MulDivAtLeast(n.forSale, o.base, o.quote, o.forSale + 1);
      assert n.forSale * o.base <= o.forSale * o.quote < (o.forSale + 1) * o.quote;
      MulDivBounds(receives, o.quote, o.base);
      MulDivAtLeast(receives, o.quote, o.base, n.forSale + 1);
      assert receives * o.quote <= n.forSale * o.base < (n.forSale + 1) * o.base;
    } else {
      FloorRoundTrip(o.forSale, o.quote, o.base, n.quote, n.base);
    }
  }

  // ----- the book -----

  /** Reached by the scan for counter-orders. */
  predicate Scannable(o: Order)
  {
    o.base <= MAX_SHARE_SUPPLY * o.quote
  }

  /** Order of the price index: better price first, then the older order. */
  predicate Before(i: int, a: Order, j: int, b: Order)
  {
    b.base * a.quote < a.base * b.quote || (b.base * a.quote == a.base * b.quote && i <= j)
  }

  /** Every resting order still asks for something: dust is refunded rather than kept. */
  ghost predicate OrderLive(o: Order)
  {
    0 < o.forSale && Priced(o) && 0 < Asks(o)
  }

  ghost predicate Live(orders: map<int, Order>)
  {
    forall k :: k in orders ==> OrderLive(orders[k])
  }

  /** The key of the by_account index. */
  ghost predicate Distinct(orders: map<int, Order>)
  {
    forall i, j :: i in orders && j in orders && i != j ==> orders[i].seller != orders[j].seller || orders[i].orderid != orders[j].orderid
  }

  ghost predicate Opposite(a: Order, b: Order)
  {
    a.sellsSteem != b.sellsSteem
  }

  /** No two resting orders could trade with each other. */
  ghost predicate Uncrossed(orders: map<int, Order>)
  {
    forall i, j :: i in orders && j in orders && Opposite(orders[i], orders[j]) && Scannable(orders[i]) && Scannable(orders[j])
      ==> orders[j].base * orders[i].base < orders[i].quote * orders[j].quote
  }

  ghost predicate Book(orders: map<int, Order>)
  {
    Live(orders) && Distinct(orders) && Uncrossed(orders)
  }

  /** While no one sells more than the share supply allows, the scan misses nothing. */
  lemma LiveOrdersAreScannable(o: Order)
    requires OrderLive(o) && o.forSale <= MAX_SHARE_SUPPLY
    ensures Scannable(o)
  {
    MulDivAtLeast(o.forSale, o.quote, o.base, 1);
    assert o.forSale * o.quote <= MAX_SHARE_SUPPLY * o.quote;
  }

  /** The book seen past order n: what was there before, some of it partly or wholly sold. */
  ghost predicate Thinned(now: map<int, Order>, was: map<int, Order>)
  {
    forall k :: k in now ==> k in was && now[k] == was[k].(forSale := now[k].forSale) && now[k].forSale <= was[k].forSale
  }

  lemma ThinnedKeepsBook(now: map<int, Order>, was: map<int, Order>)
    requires Thinned(now, was) && Live(now) && Book(was)
    ensures Book(now)
  {
  }

  /** What a fill leaves of an order: nothing if it sold out or if the rest is too small to ask for anything. */
  function Remainder(o: Order, pays: int): Order
  {
    o.(forSale := o.forSale - pays)
  }

  predicate Filled(o: Order, pays: int)
    requires 0 < o.base
  {
    pays == o.forSale || Asks(Remainder(o, pays)) == 0
  }

  function SoldSymbol(o: Order): Symbol { if o.sellsSteem then STEEM else SBD }
  function BoughtSymbol(o: Order): Symbol { if o.sellsSteem then SBD else STEEM }

  /** The purses after a fill: the seller is credited the proceeds, and what is left of an order too small to stay. */
  function Paid(purses: map<Account, Purse>, o: Order, pays: int, receives: int, now: int, rate: int): map<Account, Purse>
    requires o.seller in purses && 0 < o.base
  {
    var p := Credited(purses[o.seller], Asset(receives, BoughtSymbol(o)), now, rate);
    if pays < o.forSale && Filled(o, pays) then purses[o.seller := Credited(p, Asset(o.forSale - pays, SoldSymbol(o)), now, rate)]
    else purses[o.seller := p]
  }

  /** Both sellers are paid for the match: each receives what the other pays. */
  predicate BothPaid(after: map<Account, Purse>, purses: map<Account, Purse>, a: Order, b: Order, now: int, rate: int)
    requires Priced(a) && Priced(b) && Crosses(a, b)
  {
    var (pays, receives) := MatchAmounts(a, b);
    && a.seller in purses && b.seller in purses
    && after == Paid(Paid(purses, a, pays, receives, now, rate), b, receives, pays, now, rate)
  }

  /** Accounts that sell nothing in a changed order and are not the new seller keep their purses. */
  ghost predicate BystandersKept(orders: map<int, Order>, now: map<int, Order>, seller: Account,
                                 purses: map<Account, Purse>, after: map<Account, Purse>)
  {
    && after.Keys == purses.Keys
    && forall a :: a in purses && a != seller && after[a] != purses[a] ==> exists k :: k in orders && orders[k].seller == a && !(k in now && now[k] == orders[k])
  }

  lemma MatchKeepsBystanders(orders: map<int, Order>, after: map<int, Order>, n: int, o: int,
                             purses: map<Account, Purse>, paid: map<Account, Purse>, now: int, rate: int)
    requires n in orders && o in orders && OrderLive(orders[n]) && OrderLive(orders[o]) && Crosses(orders[n], orders[o])
    requires BothPaid(paid, purses, orders[n], orders[o], now, rate)
    requires o in after ==> after[o] == Remainder(orders[o], MatchAmounts(orders[n], orders[o]).1)
    ensures BystandersKept(orders, after, orders[n].seller, purses, paid)
  {
    hide MatchAmounts, Credited, Filled, Crosses;
    MatchIsFair(orders[n], orders[o]);
  }

  lemma NothingMovedYet(orders: map<int, Order>, seller: Account, purses: map<Account, Purse>)
    ensures BystandersKept(orders, orders, seller, purses, purses)
  {
  }

  lemma BystandersCompose(was: map<int, Order>, mid: map<int, Order>, now: map<int, Order>, n: int,
                          p0: map<Account, Purse>, p1: map<Account, Purse>, p2: map<Account, Purse>)
    requires n in was && n in mid && mid[n].seller == was[n].seller && now.Keys <= mid.Keys <= was.Keys
    requires forall k :: k in mid && k != n ==> mid[k] == was[k]
    requires BystandersKept(was, mid, was[n].seller, p0, p1) && BystandersKept(mid, now, was[n].seller, p1, p2)
    ensures BystandersKept(was, now, was[n].seller, p0, p2)
  {
    forall a | a in p0 && a != was[n].seller && p2[a] != p0[a]
      ensures exists k :: k in was && was[k].seller == a && !(k in now && now[k] == was[k])
    {
      if p1[a] != p0[a] {
        var k :| k in was && was[k].seller == a && !(k in mid && mid[k] == was[k]);
      } else {
        var k :| k in mid && mid[k].seller == a && !(k in now && now[k] == mid[k]);
        assert k in was && was[k].seller == a;
      }
    }
  }

  /** What a cancelled order had for sale is back with its seller, and nobody else is touched. */
  predicate Returned(after: map<Account, Purse>, purses: map<Account, Purse>, o: Order, now: int, rate: int)
  {
    o.seller in purses && after == purses[o.seller := Credited(purses[o.seller], Asset(o.forSale, SoldSymbol(o)), now, rate)]
  }

  /** cancel_order: what is left goes back to the seller. */
  method CancelOrder(db: Database, k: int) returns (ok: bool)
    requires k in db.orders && db.orders[k].seller in db.purses && Sound(db.median) && 0 <= db.props.interestRate
    requires PursesOk(db.purses) && 0 <= db.orders[k].forSale
    modifies db`purses, db`props, db`orders
    ensures ok ==> db.orders == old(db.orders) - {k}
    ensures ok ==> db.props == old(db.props).(sbdSupply := db.props.sbdSupply, virtualSupply := db.props.virtualSupply)
    ensures ok ==> PurseSteem(db.purses) + OrderSteem(db.orders) == old(PurseSteem(db.purses) + OrderSteem(db.orders))
    ensures ok ==> PurseSbd(db.purses) + OrderSbd(db.orders) - db.props.sbdSupply == old(PurseSbd(db.purses) + OrderSbd(db.orders) - db.props.sbdSupply)
    ensures ok ==> PursesOk(db.purses) && db.purses.Keys == old(db.purses).Keys
    ensures ok ==> var o := old(db.orders)[k];
      db.purses == old(db.purses)[o.seller := Credited(old(db.purses)[o.seller], Asset(o.forSale, SoldSymbol(o)), db.now, old(db.props).interestRate)]
    ensures ok && OrdersOk(old(db.orders)) ==> OrdersOk(db.orders)
    ensures ok && OrdersLinked(old(db.orders), db.accounts, db.nextOrder) ==>
      OrdersLinked(db.orders, db.accounts, db.nextOrder)
    ensures db.median.Price? ==> ok
  {
    hide SumMap, Moved, OrdersOk, OrdersLinked;
    var o := db.orders[k];
    assert PurseOk(db.purses[o.seller]);
    ok := db.AdjustBalance(o.seller, Asset(o.forSale, SoldSymbol(o)));
    if ok {
      db.RemoveOrder(k);
    }
  }

  /** fill_order: the seller is credited; the order shrinks, or goes away when nothing worth selling is left. */
  method FillOrder(db: Database, k: int, pays: int, receives: int) returns (ok: bool, filled: bool)
    requires k in db.orders && OrderLive(db.orders[k]) && 0 <= pays <= db.orders[k].forSale && 0 <= receives
    requires db.orders[k].seller in db.purses && Sound(db.median) && 0 <= db.props.interestRate && PursesOk(db.purses)
    modifies db`purses, db`props, db`orders
    ensures ok ==> filled == Filled(old(db.orders)[k], pays)
    ensures ok ==>
      db.orders == if filled then old(db.orders) - {k} else old(db.orders)[k := Remainder(old(db.orders)[k], pays)]
    ensures ok ==> db.props == old(db.props).(sbdSupply := db.props.sbdSupply, virtualSupply := db.props.virtualSupply)
    ensures ok ==> (PurseSteem(db.purses) + OrderSteem(db.orders)
                    == old(PurseSteem(db.purses) + OrderSteem(db.orders)) + if old(db.orders)[k].sellsSteem then -pays else receives)
    ensures ok ==> (PurseSbd(db.purses) + OrderSbd(db.orders) - db.props.sbdSupply
                    == old(PurseSbd(db.purses) + OrderSbd(db.orders) - db.props.sbdSupply) + if old(db.orders)[k].sellsSteem then receives else -pays)
    ensures ok ==> PursesOk(db.purses) && db.purses.Keys == old(db.purses).Keys
    ensures ok && OrdersOk(old(db.orders)) ==> OrdersOk(db.orders)
    ensures ok && OrdersLinked(old(db.orders), db.accounts, db.nextOrder) ==>
      OrdersLinked(db.orders, db.accounts, db.nextOrder)
    ensures db.median.Price? ==> ok
    ensures ok ==>
      db.purses == Paid(old(db.purses), old(db.orders)[k], pays, receives, db.now, old(db.props).interestRate)
  {
    hide SumMap, Moved, OrdersOk, OrdersLinked, MulDiv;
    var o := db.orders[k];
    assert PurseOk(db.purses[o.seller]);
    ok := db.AdjustBalance(o.seller, Asset(receives, BoughtSymbol(o)));
    if !ok {
      return false, false;
    }
    if pays == o.forSale {
      db.RemoveOrder(k);
      return true, true;
    }
    LinkedHere(db.orders, db.accounts, db.nextOrder, k);
    db.ModifyOrder(k, Remainder(o, pays));
    if Asks(Remainder(o, pays)) == 0 {
      ghost var was := db.orders;
      ok := CancelOrder(db, k);
      assert ok ==> db.orders == old(db.orders) - {k} by {
        assert was - {k} == old(db.orders) - {k};
      }
      return ok, true;
    }
    return true, false;
  }

  lemma LinkedHere(orders: map<int, Order>, accounts: set<Account>, next: int, k: int)
    requires k in orders
    ensures OrdersLinked(orders, accounts, next) ==> orders[k].seller in accounts && k < next
  {
  }

  /** match: both orders filled at the old one's price; true when the new order is done. */
  method Match(db: Database, n: int, o: int) returns (ok: bool, newFilled: bool, oldFilled: bool)
    requires db.Valid() && n in db.orders && o in db.orders && Live(db.orders)
    requires Opposite(db.orders[n], db.orders[o]) && Crosses(db.orders[n], db.orders[o])
    modifies db`purses, db`props, db`orders
    ensures ok ==> db.Valid() && Live(db.orders)
    ensures ok ==> newFilled || oldFilled
    ensures ok ==> newFilled == (n !in db.orders) && oldFilled == (o !in db.orders)
    ensures ok ==> var pays, receives := MatchAmounts(old(db.orders)[n], old(db.orders)[o]).0, MatchAmounts(old(db.orders)[n], old(db.orders)[o]).1;
      && (!newFilled ==> db.orders[n] == Remainder(old(db.orders)[n], pays))
      && (!oldFilled ==> db.orders[o] == Remainder(old(db.orders)[o], receives))
    ensures ok ==> Thinned(db.orders, old(db.orders)) && db.orders.Keys < old(db.orders).Keys
    ensures ok ==>
      forall k :: k in old(db.orders) && k != n && k != o ==> k in db.orders && db.orders[k] == old(db.orders)[k]
    ensures db.median.Price? ==> ok
    ensures ok ==>
      BothPaid(db.purses, old(db.purses), old(db.orders)[n], old(db.orders)[o], db.now, old(db.props).interestRate)
    ensures ok ==> db.orders == AfterMatch(old(db.orders), n, o)
  {
    hide SumMap, Moved, MulDiv, MatchAmounts, OrdersOk, OrdersLinked, EscrowsOk, EscrowsLinked, WithdrawalsOk, WithdrawalsLinked, ConversionsOk, ConversionsLinked,
         Credited, PursesOk, StakesOk;
    var a, b := db.orders[n], db.orders[o];
    MatchIsFair(a, b);
    LinkedHere(db.orders, db.accounts, db.nextOrder, n);
    LinkedHere(db.orders, db.accounts, db.nextOrder, o);
    var (pays, receives) := MatchAmounts(a, b);
    ok, newFilled := FillOrder(db, n, pays, receives);
    if !ok {
      oldFilled := false;
      return;
    }
    ok, oldFilled := FillOrder(db, o, receives, pays);
    StillAsks(a, pays);
    StillAsks(b, receives);
  }

  lemma StillAsks(o: Order, pays: int)
    requires OrderLive(o) && 0 <= pays <= o.forSale
    ensures !Filled(o, pays) ==> OrderLive(Remainder(o, pays))
  {
    MulDivBounds(o.forSale - pays, o.quote, o.base);
  }

  // ----- the scan -----

  /** The orders the scan for order n runs over. */
  ghost predicate Counter(orders: map<int, Order>, n: int, k: int)
    requires n in orders
  {
    k in orders && Opposite(orders[n], orders[k]) && Scannable(orders[k])
  }

  function Counters(orders: map<int, Order>, n: int): set<int>
    requires n in orders
  {
    set k | k in orders && orders[k].sellsSteem != orders[n].sellsSteem && Scannable(orders[k])
  }

  ghost predicate First(orders: map<int, Order>, n: int, best: int)
    requires n in orders
  {
    Counter(orders, n, best) && forall k :: Counter(orders, n, k) ==> Before(best, orders[best], k, orders[k])
  }

  lemma BeforeTransitive(i: int, a: Order, j: int, b: Order, k: int, c: Order)
    requires Priced(a) && Priced(b) && Priced(c) && Before(i, a, j, b) && Before(j, b, k, c)
    ensures Before(i, a, k, c)
  {
    RatioTransitive(a.base, a.quote, b.base, b.quote, c.base, c.quote);
    if c.base * a.quote == a.base * c.quote {
      // equal ends force equal middles
      RatioTransitive(c.base, c.quote, a.base, a.quote, b.base, b.quote);
      RatioTransitive(b.base, b.quote, c.base, c.quote, a.base, a.quote);
    }
  }

  /** An order ahead of one that crosses crosses too. */
  lemma BeforeCrosses(n: Order, i: int, a: Order, j: int, b: Order)
    requires Priced(n) && Priced(a) && Priced(b) && Before(i, a, j, b) && Crosses(n, b)
    ensures Crosses(n, a)
  {
    RatioTransitive(a.base, a.quote, b.base, b.quote, n.quote, n.base);
  }

  /** The head of the price index. */
  method FindFirst(orders: map<int, Order>, n: int) returns (found: bool, best: int)
    requires n in orders && Live(orders)
    ensures found ==> First(orders, n, best)
    ensures found ==> forall k :: Counter(orders, n, k) ==>
      var (p, q) := (orders[best].base * orders[k].quote, orders[k].base * orders[best].quote); q < p || (p == q && best <= k)
    ensures !found ==> forall k :: !Counter(orders, n, k)
  {
    hide MulDiv, Before, Scannable;
    var left := Counters(orders, n);
    found, best := false, n;
    while left != {}
      invariant left <= Counters(orders, n)
      invariant best in orders && (found ==> Counter(orders, n, best))
      invariant forall k :: Counter(orders, n, k) && k !in left ==> found && Before(best, orders[best], k, orders[k])
      decreases |left|
    {
      var k := Pick(left);
      left := left - {k};
      assert Counter(orders, n, k);
      BeforeTotal(k, orders[k], best, orders[best]);
      if !found || Before(k, orders[k], best, orders[best]) {
        forall j | found && Counter(orders, n, j) && j !in left ensures Before(k, orders[k], j, orders[j]) {
          if j != k {
            BeforeTransitive(k, orders[k], best, orders[best], j, orders[j]);
          }
        }
        found, best := true, k;
      }
    }
    if found {
      FirstIsBest(orders, n, best);
    }
  }

  lemma BeforeTotal(i: int, a: Order, j: int, b: Order)
    ensures Before(i, a, j, b) || Before(j, b, i, a)
    ensures Before(i, a, i, a)
  {
  }

  ghost predicate Touched(was: map<int, Order>, now: map<int, Order>, k: int)
  {
    k in was && !(k in now && now[k] == was[k])
  }

  /**
   Price-time priority, in prices and ids: a counter-order trades only after every one that gives
   more for what it asks, and every older one at the same price, is used up.
   */
  ghost predicate Prior(was: map<int, Order>, now: map<int, Order>, n: int)
    requires n in was
  {
    forall i, j :: Counter(was, n, i) && Counter(was, n, j) && Touched(was, now, i) &&
        (was[i].base * was[j].quote < was[j].base * was[i].quote || (was[i].base * was[j].quote == was[j].base * was[i].quote && j < i))
      ==> j !in now
  }

  /** The first counter-order is the oldest of those that give the most for what they ask. */
  lemma FirstIsBest(orders: map<int, Order>, n: int, best: int)
    requires n in orders && First(orders, n, best)
    ensures forall k :: Counter(orders, n, k) ==>
      var (p, q) := (orders[best].base * orders[k].quote, orders[k].base * orders[best].quote); q < p || (p == q && best <= k)
  {
    forall k | Counter(orders, n, k)
      ensures var (p, q) := (orders[best].base * orders[k].quote, orders[k].base * orders[best].quote); q < p || (p == q && best <= k) {
      assert Before(best, orders[best], k, orders[k]);
    }
  }

  lemma NothingTouched(orders: map<int, Order>, n: int)
    requires n in orders
    ensures Prior(orders, orders, n)
  {
  }

  /** One more counter-order traded, the best of those that are left. */
  lemma StillPrior(was: map<int, Order>, mid: map<int, Order>, now: map<int, Order>, n: int, best: int)
    requires n in was && n in mid && First(mid, n, best) && Prior(was, mid, n) && mid[n].sellsSteem == was[n].sellsSteem
    requires forall k :: k in mid && k != n ==> k in was && mid[k] == was[k]
    requires forall k :: k != n && k != best ==> (k in now <==> k in mid) && (k in mid ==> now[k] == mid[k])
    ensures Prior(was, now, n)
  {
    FirstIsBest(mid, n, best);
    hide Scannable;
    assert forall k :: k in mid && Counter(was, n, k) ==> Counter(mid, n, k);
    forall i, j | Counter(was, n, i) && Counter(was, n, j) && Touched(was, now, i) &&
        (was[i].base * was[j].quote < was[j].base * was[i].quote || (was[i].base * was[j].quote == was[j].base * was[i].quote && j < i))
      ensures j !in now {
      if i != best {
        assert Touched(was, mid, i);
      }
    }
  }

  /** Orders on the new order's own side are left alone. */
  ghost predicate SameSideKept(was: map<int, Order>, now: map<int, Order>, n: int)
    requires n in was
  {
    forall k :: k in was && k != n && was[k].sellsSteem == was[n].sellsSteem ==> k in now && now[k] == was[k]
  }

  // ----- the matching loop as a function of the book -----

  function AfterFill(orders: map<int, Order>, k: int, pays: int): map<int, Order>
    requires k in orders && 0 < orders[k].base
  {
    if Filled(orders[k], pays) then orders - {k} else orders[k := Remainder(orders[k], pays)]
  }

  /** The book after two crossing orders have met. */
  function AfterMatch(orders: map<int, Order>, n: int, o: int): map<int, Order>
    requires n in orders && o in orders && n != o && Priced(orders[n]) && Priced(orders[o])
    requires Crosses(orders[n], orders[o])
  {
    var (pays, receives) := MatchAmounts(orders[n], orders[o]);
    AfterFill(AfterFill(orders, n, pays), o, receives)
  }

  lemma MatchShrinks(orders: map<int, Order>, n: int, o: int)
    requires n in orders && o in orders && n != o && Live(orders) && Crosses(orders[n], orders[o])
    ensures Live(AfterMatch(orders, n, o)) && AfterMatch(orders, n, o).Keys < orders.Keys
  {
    hide MulDiv, MatchAmounts;
    var (pays, receives) := MatchAmounts(orders[n], orders[o]);
    MatchIsFair(orders[n], orders[o]);
    StillAsks(orders[n], pays);
    StillAsks(orders[o], receives);
  }

  /** Match the new order with the first of its counter-orders, again and again, while they cross. */
  ghost function Matched(orders: map<int, Order>, n: int): map<int, Order>
    requires n in orders && Live(orders)
    decreases orders.Keys
  {
    if exists k :: First(orders, n, k) && Crosses(orders[n], orders[k]) then
      var k :| First(orders, n, k) && Crosses(orders[n], orders[k]);
      MatchShrinks(orders, n, k);
      var next := AfterMatch(orders, n, k);
      if n in next then Matched(next, n) else next
    else orders
  }

  lemma FirstIsOne(orders: map<int, Order>, n: int, j: int, k: int)
    requires n in orders && Live(orders) && First(orders, n, j) && First(orders, n, k)
    ensures j == k
  {
  }

  lemma MatchedStep(orders: map<int, Order>, n: int, o: int)
    requires n in orders && Live(orders) && First(orders, n, o) && Crosses(orders[n], orders[o])
    ensures o in orders && n != o && Priced(orders[n]) && Priced(orders[o]) && Live(AfterMatch(orders, n, o))
    ensures Matched(orders, n) == if n in AfterMatch(orders, n, o) then Matched(AfterMatch(orders, n, o), n) else AfterMatch(orders, n, o)
  {
    MatchShrinks(orders, n, o);
    forall k | First(orders, n, k) ensures k == o {
      FirstIsOne(orders, n, k, o);
    }
    hide AfterMatch, MulDiv, Before, Scannable, Live;
  }

  lemma MatchedDone(orders: map<int, Order>, n: int)
    requires n in orders && Live(orders) && forall k :: Counter(orders, n, k) ==> !Crosses(orders[n], orders[k])
    ensures Matched(orders, n) == orders
  {
  }

  ghost predicate MatchedTo(orders: map<int, Order>, n: int, after: map<int, Order>)
  {
    n in orders && Live(orders) && after == Matched(orders, n)
  }

  /** Nothing of the order is left to rest. */
  ghost predicate MatchedAway(orders: map<int, Order>, n: int)
  {
    n in orders && Live(orders) && n !in Matched(orders, n)
  }

  /** apply_order: the new order trades with the head of the other side until it is done or nothing crosses. */
  method ApplyOrder(db: Database, n: int) returns (ok: bool)
    requires db.Valid() && n in db.orders && Live(db.orders)
    modifies db`purses, db`props, db`orders
    ensures ok ==> db.Valid() && Live(db.orders) && Thinned(db.orders, old(db.orders))
    ensures ok && n in db.orders ==> forall k :: Counter(db.orders, n, k) ==> !Crosses(db.orders[n], db.orders[k])
    ensures ok && n in db.orders ==> forall k :: Counter(db.orders, n, k) ==>
      db.orders[k].base * db.orders[n].base < db.orders[n].quote * db.orders[k].quote
    ensures ok ==> Prior(old(db.orders), db.orders, n)
    ensures ok ==> SameSideKept(old(db.orders), db.orders, n)
    ensures db.median.Price? ==> ok
    ensures ok ==> BystandersKept(old(db.orders), db.orders, old(db.orders)[n].seller, old(db.purses), db.purses)
    ensures ok ==> db.orders == Matched(old(db.orders), n)
  {
    hide SumMap, MulDiv, MatchAmounts, Database.Valid, Before, Scannable, BystandersKept, BothPaid, AfterMatch, Matched,
      Prior;
    NothingMovedYet(db.orders, db.orders[n].seller, db.purses);
    NothingTouched(db.orders, n);
    ok := true;
    var finished := false;
    while !finished
      invariant db.Valid() && Live(db.orders) && Thinned(db.orders, old(db.orders))
      invariant finished == (n !in db.orders)
      invariant !finished ==> forall k :: k in db.orders && k != n ==> db.orders[k] == old(db.orders)[k]
      invariant Prior(old(db.orders), db.orders, n)
      invariant SameSideKept(old(db.orders), db.orders, n)
      invariant BystandersKept(old(db.orders), db.orders, old(db.orders)[n].seller, old(db.purses), db.purses)
      invariant Matched(old(db.orders), n) == if finished then db.orders else Matched(db.orders, n)
      decreases db.orders.Keys
    {
      var found, best := FindFirst(db.orders, n);
      if !found {
        MatchedDone(db.orders, n);
        break;
      }
      if !Crosses(db.orders[n], db.orders[best]) {
        NothingElseCrosses(db.orders, n, best);
        MatchedDone(db.orders, n);
        break;
      }
      MatchedStep(db.orders, n, best);
      var oldFilled;
      ghost var orders, purses, rate := db.orders, db.purses, db.props.interestRate;
      ok, finished, oldFilled := Match(db, n, best);
      if !ok {
        return;
      }
      StillPrior(old(db.orders), orders, db.orders, n, best);
      MatchKeepsBystanders(orders, db.orders, n, best, purses, db.purses, db.now, rate);
      BystandersCompose(old(db.orders), orders, db.orders, n, old(db.purses), purses, db.purses);
    }
  }

  lemma NothingElseCrosses(orders: map<int, Order>, n: int, best: int)
    requires n in orders && Live(orders) && First(orders, n, best) && !Crosses(orders[n], orders[best])
    ensures forall k :: Counter(orders, n, k) ==> !Crosses(orders[n], orders[k])
  {
    forall k | Counter(orders, n, k) ensures !Crosses(orders[n], orders[k]) {
      if Crosses(orders[n], orders[k]) {
        BeforeCrosses(orders[n], best, orders[best], k, orders[k]);
      }
    }
  }

  // ----- operations -----

  predicate Taken(orders: map<int, Order>, seller: Account, orderid: int)
  {
    exists k :: k in orders && orders[k].seller == seller && orders[k].orderid == orderid
  }

  /** The price and amount checks of the two create operations. */
  predicate WellFormed(o: Order)
  {
    0 < o.base && 0 < o.quote && 0 < Asks(o)
  }

  lemma WellFormedIsLive(o: Order)
    requires WellFormed(o)
    ensures OrderLive(o)
  {
    assert o.forSale <= 0 ==> o.forSale * o.quote <= 0;
  }

  lemma NewOrderKeepsBook(was: map<int, Order>, now: map<int, Order>, n: int, o: Order)
    requires Book(was) && n !in was && !Taken(was, o.seller, o.orderid)
    requires Thinned(now, was[n := o]) && Live(now)
    requires n in now ==> forall k :: Counter(now, n, k) ==> !Crosses(now[n], now[k])
    ensures Book(now)
  {
    forall i, j | i in now && j in now && Opposite(now[i], now[j]) && Scannable(now[i]) && Scannable(now[j])
      ensures !Crosses(now[i], now[j])
    {
      if i == n {
        assert Counter(now, n, j);
      } else if j == n {
        assert Counter(now, n, i);
        assert
          && now[i].quote * now[j].quote == now[j].quote * now[i].quote
          && now[i].base * now[j].base == now[j].base * now[i].base;
      } else {
        assert !Crosses(was[i], was[j]);
      }
    }
  }

  /** limit_order_create and limit_order_create2: the first uses amount/min_to_receive as the price. */
  method LimitOrderCreate(db: Database, o: Order, fillOrKill: bool) returns (ok: bool)
    requires db.Valid() && Book(db.orders)
    modifies db`purses, db`props, db`orders, db`nextOrder
    ensures ok ==> db.Valid() && Book(db.orders) && db.nextOrder == old(db.nextOrder) + 1
    ensures ok ==> WellFormed(o) && db.now < o.expiration && !Taken(old(db.orders), o.seller, o.orderid)
    ensures ok ==> o.seller in old(db.purses) && o.forSale <= Liquid(old(db.purses)[o.seller], SoldSymbol(o))
    ensures ok && fillOrKill ==> old(db.nextOrder) !in db.orders
    ensures ok ==> var was, n := old(db.orders)[old(db.nextOrder) := o], old(db.nextOrder);
      Thinned(db.orders, was) && Prior(was, db.orders, n) && SameSideKept(was, db.orders, n)
    ensures ok ==> BystandersKept(old(db.orders), db.orders, o.seller, old(db.purses), db.purses)
    ensures ok ==> MatchedTo(old(db.orders)[old(db.nextOrder) := o], old(db.nextOrder), db.orders)
    ensures db.median.Price? ==>
      ok == (WellFormed(o) && db.now < o.expiration && !Taken(old(db.orders), o.seller, o.orderid)
             && o.seller in old(db.purses) && o.forSale <= Liquid(old(db.purses)[o.seller], SoldSymbol(o))
             && (fillOrKill ==> MatchedAway(old(db.orders)[old(db.nextOrder) := o], old(db.nextOrder))))
  {
    hide SumMap, Moved, MulDiv, OrdersOk, OrdersLinked, EscrowsOk, EscrowsLinked, WithdrawalsOk, WithdrawalsLinked,
      ConversionsOk, ConversionsLinked, Prior, SameSideKept, Thinned, Uncrossed, Distinct, Live, PropsOk;
    if o.expiration <= db.now || o.seller !in db.purses || !WellFormed(o) || Taken(db.orders, o.seller, o.orderid) {
      return false;
    }
    if Liquid(db.purses[o.seller], SoldSymbol(o)) < o.forSale {
      return false;
    }
    var n := db.nextOrder;
    ok := OpenOrder(db, o);
    if !ok {
      return;
    }
    ok := ApplyOrder(db, n);
    if ok {
      NewOrderKeepsBook(old(db.orders), db.orders, n, o);
      if fillOrKill {
        ok := n !in db.orders;
      }
    }
  }

  /** The seller's funds move into a new order object with the next id. */
  method OpenOrder(db: Database, o: Order) returns (ok: bool)
    requires db.Valid() && Live(db.orders) && WellFormed(o) && o.seller in db.purses
    requires o.forSale <= Liquid(db.purses[o.seller], SoldSymbol(o))
    modifies db`purses, db`props, db`orders, db`nextOrder
    ensures ok ==>
      && db.Valid() && Live(db.orders) && db.nextOrder == old(db.nextOrder) + 1 && old(db.nextOrder) !in old(db.orders)
    ensures ok ==> db.orders == old(db.orders)[old(db.nextOrder) := o]
    ensures db.median.Price? ==> ok
    ensures ok ==> db.purses == old(db.purses)[o.seller := Credited(old(db.purses)[o.seller], Asset(-o.forSale, SoldSymbol(o)), db.now, old(db.props).interestRate)]
  {
    hide SumMap, Moved, MulDiv, OrdersOk, EscrowsOk, EscrowsLinked, WithdrawalsOk, WithdrawalsLinked, ConversionsOk,
      ConversionsLinked;
    WellFormedIsLive(o);
    var n := db.nextOrder;
    ok := db.AdjustBalance(o.seller, Asset(-o.forSale, SoldSymbol(o)));
    if ok {
      db.nextOrder := n + 1;
      db.CreateOrder(n, o);
    }
  }

  /** limit_order_cancel: the id is looked up by its low sixteen bits, so higher ids are never found. */
  method LimitOrderCancel(db: Database, owner: Account, orderid: int) returns (ok: bool)
    requires db.Valid() && Book(db.orders)
    modifies db`purses, db`props, db`orders
    ensures ok ==> db.Valid() && Book(db.orders)
    ensures ok ==> Taken(old(db.orders), owner, orderid % 0x1_0000) && !Taken(db.orders, owner, orderid % 0x1_0000)
    ensures ok ==> exists k ::
      && k in old(db.orders) && old(db.orders)[k].seller == owner && db.orders == old(db.orders) - {k}
      && Returned(db.purses, old(db.purses), old(db.orders)[k], db.now, old(db.props).interestRate)
    ensures db.median.Price? ==> ok == Taken(old(db.orders), owner, orderid % 0x1_0000)
  {
    var id := orderid % 0x1_0000;
    if !Taken(db.orders, owner, id) {
      return false;
    }
    var k :| k in db.orders && db.orders[k].seller == owner && db.orders[k].orderid == id;
    ok := CancelResting(db, k);
  }

  method CancelResting(db: Database, k: int) returns (ok: bool)
    requires db.Valid() && Book(db.orders) && k in db.orders
    modifies db`purses, db`props, db`orders
    ensures ok ==> db.Valid() && Book(db.orders) && db.orders == old(db.orders) - {k}
    ensures db.median.Price? ==> ok
    ensures ok ==> Returned(db.purses, old(db.purses), old(db.orders)[k], db.now, old(db.props).interestRate)
    ensures ok ==> SameTerms(old(db.props), db.props)
  {
    hide SumMap, Moved, MulDiv, OrdersLinked, EscrowsOk, EscrowsLinked, WithdrawalsOk, WithdrawalsLinked, ConversionsOk,
      ConversionsLinked;
    LinkedHere(db.orders, db.accounts, db.nextOrder, k);
    ok := CancelOrder(db, k);
    if ok {
      ThinnedKeepsBook(db.orders, old(db.orders));
    }
  }

  function Expired(orders: map<int, Order>, now: int): set<int>
  {
    set k | k in orders && orders[k].expiration < now
  }

  /** What a cancelled order gives back: everything still for sale. */
  function CancelBill(o: Order): Bill
  {
    Amount(o.seller, Asset(o.forSale, SoldSymbol(o)))
  }

  function CancelBills(orders: map<int, Order>, keys: set<int>): map<int, Bill>
  {
    map k | k in orders && k in keys :: CancelBill(orders[k])
  }

  lemma ReturnedIsBill(after: map<Account, Purse>, purses: map<Account, Purse>, o: Order, now: int, rate: int)
    requires Returned(after, purses, o, now, rate)
    ensures o.seller in purses && CancelBill(o).to == CancelBill(o).from == o.seller
    ensures (!CancelBill(o).moves ==> CancelBill(o).sbd == 0)
    ensures after == PayBill(purses, CancelBill(o), now, rate)
  {
    hide Moved;
  }

  lemma OneMoreCancelled(orders: map<int, Order>, keys: set<int>, k: int)
    requires k in orders && k !in keys
    ensures k !in CancelBills(orders, keys)
    ensures CancelBills(orders, keys + {k}) == CancelBills(orders, keys)[k := CancelBill(orders[k])]
  {
  }

  lemma NoneCancelled(orders: map<int, Order>, purses: map<Account, Purse>, time: int, rate: int)
    ensures AllSettled(purses, purses, CancelBills(orders, {}), time, rate) && Plain(CancelBills(orders, {}))
  {
    NothingSettled<int>(purses, time, rate);
    assert CancelBills(orders, {}) == map[];
  }

  /** clear_expired_orders: exactly the expired orders are refunded. */
  method ClearExpiredOrders(db: Database) returns (ok: bool)
    requires db.Valid() && Book(db.orders)
    modifies db`purses, db`props, db`orders
    ensures ok ==> db.Valid() && Book(db.orders) && db.orders == old(db.orders) - Expired(old(db.orders), db.now)
    ensures db.median.Price? ==> ok
    ensures ok ==> SameTerms(old(db.props), db.props)
    ensures ok ==> AllSettled(old(db.purses), db.purses, CancelBills(old(db.orders), Expired(old(db.orders), db.now)),
                              db.now, old(db.props).interestRate)
  {
    hide Database.Valid, Book, AllSettled, CancelBills, CancelBill, PayBill, Plain, Returned;
    ghost var rate := db.props.interestRate;
    NoneCancelled(db.orders, db.purses, db.now, rate);
    ghost var all := Expired(db.orders, db.now);
    var due := set k | k in db.orders && db.orders[k].expiration < db.now;
    assert due == all;
    assert all - due == {};
    while due != {}
      invariant db.Valid() && Book(db.orders) && due <= all && db.orders == old(db.orders) - (all - due)
      invariant Plain(CancelBills(old(db.orders), all - due)) && SameTerms(old(db.props), db.props)
      invariant AllSettled(old(db.purses), db.purses, CancelBills(old(db.orders), all - due), db.now, rate)
      decreases |due|
    {
      var k := Pick(due);
      DropOneMore(old(db.orders), all - due, k);
      ghost var before := db.purses;
      ok := CancelResting(db, k);
      if !ok {
        return;
      }
      ReturnedIsBill(db.purses, before, old(db.orders)[k], db.now, rate);
      OneMoreCancelled(old(db.orders), all - due, k);
      OneMoreBill(old(db.purses), before, db.purses, CancelBills(old(db.orders), all - due), k,
                  CancelBill(old(db.orders)[k]), db.now, rate);
      assert all - (due - {k}) == all - due + {k};
      due := due - {k};
    }
    assert all - due == all;
    return true;
  }
}
