/**
 * The exchange simulator of exchange/sim.go: resting orders per pair
 * (ALIVE, FILLED or CANCELLED), an order id counter, the recorded actions,
 * the simulated trades and the account portfolio. `SetTime` fills every
 * ALIVE order first against the book snapshot at the current time, then
 * against the trade tape up to the new time.
 *
 * The historical books and tapes are given to the constructor; the tape
 * queries `Between` and `Fill` are parameters. Go's iteration over the
 * `myOrders` map is an explicit enumeration of its keys.
 */
module Sim {
  import opened Wrappers
  import opened Num
  import opened Text
  import opened Chrono
  import opened Coins
  import opened Pairs
  import Books
  import opened Txns
  import Strat
  import opened Portfolios

  /** `simOrder`: a resting order; a positive amount buys. */
  datatype SimOrder = SimOrder(oid: string, price: real, amount: real, status: Books.OrderState, timeStamp: int)

  /** The amount and average price a resting order fills at one tick. */
  datatype Fill = Fill(amount: real, price: real)

  /** The balances, locks and trades the simulator updates on a fill. */
  datatype Ledger = Ledger(balances: map<Coin, real>, locked: map<Coin, real>, txns: seq<Transaction>)

  /** The book series of a pair; a missing pair has none. */
  function SeriesOf(obts: map<Pair, seq<Books.OrderBookT>>, p: Pair): seq<Books.OrderBookT>
  {
    if p in obts then obts[p] else []
  }

  /** The tape of a pair; a missing pair has none. */
  function TapeOf(txn: map<Pair, seq<Transaction>>, p: Pair): seq<Transaction>
  {
    if p in txn then txn[p] else []
  }

  /** The orders of a pair; a missing pair has none. */
  function OrdersOf(m: map<Pair, seq<SimOrder>>, p: Pair): seq<SimOrder>
  {
    if p in m then m[p] else []
  }

  /** The book `GetOrderBook(p)` answers at `now`; `None` where it panics
      (no snapshot for the pair). */
  function BookOf(obts: map<Pair, seq<Books.OrderBookT>>, p: Pair, now: int): Option<Books.OrderBook>
  {
    if |SeriesOf(obts, p)| > 0 then Some(Books.BookAt(SeriesOf(obts, p), now)) else None
  }

  /** The fill of a resting order: first what the book gives (`Match`),
      then, only when that is not the whole amount, what the tape gives
      for the rest; the price is the amount-weighted average, the tape
      part at the order's own price. With no fill the price is not used
      (the source divides by zero there). */
  function FillOf(o: SimOrder, book: Books.OrderBook, tape: seq<Transaction>, fill: FillFn): Fill
  {
    var ob := Books.MatchSpec(book, Books.Order(o.price, o.amount));
    var tx := if Abs(ob.amount - o.amount) > 0.0 then fill(tape, o.price, o.amount - ob.amount) else 0.0;
    var amount := ob.amount + tx;
    Fill(amount, if amount != 0.0 then (ob.price * ob.amount + o.price * tx) / amount else 0.0)
  }

  /** A filled order: FILLED when the whole amount traded, else the rest
      stays ALIVE. */
  function Updated(o: SimOrder, f: Fill): SimOrder
  {
    if f.amount == o.amount then o.(status := Books.FILLED) else o.(amount := o.amount - f.amount)
  }

  /** The ledger after a non-zero fill on `p` at time `t`: the lock of the
      buy (quote) or sell (coin) side is released, the coin is credited
      with the amount and the quote charged with its value, and one trade
      is recorded whose id is the count of earlier trades. */
  function Settle(L: Ledger, p: Pair, f: Fill, t: int): Ledger
  {
    Ledger(Credit(Credit(L.balances, p.coin, f.amount), p.base, -Worth(f.price, f.amount)),
           Release(L.locked, p, f),
           L.txns + [Trade(p, f, t, |L.txns|)])
  }

  /** The lock a fill releases: the value of a buy in the quote coin, the
      size of a sell in the coin. */
  function Release(locked: map<Coin, real>, p: Pair, f: Fill): map<Coin, real>
  {
    if f.amount > 0.0 then locked[p.base := Get(locked, p.base) - Worth(f.price, Abs(f.amount))]
    else locked[p.coin := Get(locked, p.coin) - Abs(f.amount)]
  }

  /** The trade a fill records, with the buyer as maker exactly for a buy. */
  function Trade(p: Pair, f: Fill, t: int, n: nat): Transaction
  {
    Transaction(p, f.price, f.amount, t, if f.amount > 0.0 then Buyer else Seller, NatToString(n))
  }

  /** One resting order at one tick: only ALIVE orders are looked at, and
      a zero fill changes nothing. */
  function StepOrder(o: SimOrder, L: Ledger, p: Pair, book: Option<Books.OrderBook>,
                     tape: seq<Transaction>, fill: FillFn, t: int): (SimOrder, Ledger)
  {
    if o.status != Books.ALIVE || book.None? then (o, L)
    else
      var f := FillOf(o, book.value, tape, fill);
      if f.amount == 0.0 then (o, L) else (Updated(o, f), Settle(L, p, f, t))
  }

  /** The orders of one pair, processed in slice order. */
  function RunOrders(os: seq<SimOrder>, L: Ledger, p: Pair, book: Option<Books.OrderBook>,
                     tape: seq<Transaction>, fill: FillFn, t: int): (r: (seq<SimOrder>, Ledger))
    ensures |r.0| == |os|
    decreases |os|
  {
    if |os| == 0 then ([], L)
    else
      var prev := RunOrders(os[..|os| - 1], L, p, book, tape, fill, t);
      var step := StepOrder(os[|os| - 1], prev.1, p, book, tape, fill, t);
      (prev.0 + [step.0], step.1)
  }

  /** The pairs processed in the given order, each against its book at
      `now` and its tape between `now` and `t`. */
  function RunPairs(ps: seq<Pair>, orders: map<Pair, seq<SimOrder>>, L: Ledger,
                    obts: map<Pair, seq<Books.OrderBookT>>, txn: map<Pair, seq<Transaction>>,
                    now: int, t: int, fill: FillFn, between: BetweenFn): (r: (map<Pair, seq<SimOrder>>, Ledger))
    ensures (forall j :: 0 <= j < |ps| ==> ps[j] in orders) ==> r.0.Keys == orders.Keys
    decreases |ps|
  {
    if |ps| == 0 then (orders, L)
    else
      var prev := RunPairs(ps[..|ps| - 1], orders, L, obts, txn, now, t, fill, between);
      var p := ps[|ps| - 1];
      var run := RunOrders(OrdersOf(prev.0, p), prev.1, p, BookOf(obts, p, now),
                           between(TapeOf(txn, p), now, t), fill, t);
      assert ps[..|ps| - 1] + [p] == ps;
      (prev.0[p := run.0], run.1)
  }

  // ---------------------------------------------------------------------
  // What one tick does

  /** One order at one tick: an order that is not ALIVE, or that fills
      nothing, changes nothing; a whole fill marks it FILLED at its
      amount, a partial fill lowers the amount and keeps it ALIVE; and a
      fill records exactly one trade, stamped `t`, numbered by the count
      of earlier trades, with the buyer as maker exactly for a buy. */
  lemma StepOrderSpec(o: SimOrder, L: Ledger, p: Pair, book: Option<Books.OrderBook>,
                      tape: seq<Transaction>, fill: FillFn, t: int)
    ensures var (o2, L2) := StepOrder(o, L, p, book, tape, fill, t);
      o2.oid == o.oid && o2.price == o.price && o2.timeStamp == o.timeStamp &&
      (o.status != Books.ALIVE ==> o2 == o && L2 == L)
    ensures o.status == Books.ALIVE && book.Some? ==>
      var (o2, L2) := StepOrder(o, L, p, book, tape, fill, t);
      var f := FillOf(o, book.value, tape, fill);
      (f.amount == 0.0 ==> o2 == o && L2 == L) &&
      (f.amount != 0.0 && f.amount == o.amount ==> o2 == o.(status := Books.FILLED)) &&
      (f.amount != o.amount ==> o2.status == Books.ALIVE && o2.amount == o.amount - f.amount) &&
      (f.amount != 0.0 ==>
        L2.txns == L.txns + [Transaction(p, f.price, f.amount, t, if f.amount > 0.0 then Buyer else Seller,
                                         NatToString(|L.txns|))])
  {
  }

  /** On a pair of two distinct coins a fill credits the coin with its
      amount, charges the quote with amount times price, touches no other
      coin, and releases the lock of its side: the quote lock by the value
      of a buy, the coin lock by the size of a sell. */
  lemma SettleSpec(L: Ledger, p: Pair, f: Fill, t: int)
    requires p.coin != p.base && f.amount != 0.0
    ensures var L2 := Settle(L, p, f, t);
      Get(L2.balances, p.coin) == Get(L.balances, p.coin) + f.amount &&
      Get(L2.balances, p.base) == Get(L.balances, p.base) - f.amount * f.price &&
      (forall c :: c != p.coin && c != p.base ==> Get(L2.balances, c) == Get(L.balances, c)) &&
      (f.amount > 0.0 ==> Get(L2.locked, p.base) == Get(L.locked, p.base) - f.amount * f.price) &&
      (f.amount < 0.0 ==> Get(L2.locked, p.coin) == Get(L.locked, p.coin) + f.amount) &&
      (forall c :: c != (if f.amount > 0.0 then p.base else p.coin) ==> Get(L2.locked, c) == Get(L.locked, c)) &&
      |L2.txns| == |L.txns| + 1 && L2.txns[..|L.txns|] == L.txns
  {
    var L2 := Settle(L, p, f, t);
    CreditSpec(L.balances, p.coin, f.amount);
    CreditSpec(Credit(L.balances, p.coin, f.amount), p.base, -f.amount * f.price);
    assert L2.txns[..|L.txns|] == L.txns;
  }

  /** Against a book of non-negative amounts and a tape that fills on the
      order's side and at most what is asked, an order never fills more
      than its amount, nor on the other side. */
  lemma FillBounded(o: SimOrder, book: Books.OrderBook, tape: seq<Transaction>, fill: FillFn)
    requires FillSane(fill) && Books.NonNegative(book.asks) && Books.NonNegative(book.bids)
    ensures var f := FillOf(o, book, tape, fill);
      (o.amount > 0.0 ==> 0.0 <= f.amount <= o.amount) &&
      (o.amount <= 0.0 ==> o.amount <= f.amount <= 0.0)
  {
    Books.MatchBounds(book, Books.Order(o.price, o.amount));
    var ob := Books.MatchSpec(book, Books.Order(o.price, o.amount));
    var rest := o.amount - ob.amount;
    assert fill(tape, o.price, rest) == fill(tape, o.price, rest);
  }

  /** Trade ids are the positions of the trades, in decimal. */
  predicate Counted(txns: seq<Transaction>)
  {
    forall k :: 0 <= k < |txns| ==> txns[k].txnID == NatToString(k)
  }

  lemma {:induction false} RunOrdersCounted(os: seq<SimOrder>, L: Ledger, p: Pair, book: Option<Books.OrderBook>,
                                            tape: seq<Transaction>, fill: FillFn, t: int)
    requires Counted(L.txns)
    ensures var r := RunOrders(os, L, p, book, tape, fill, t);
      Counted(r.1.txns) && |L.txns| <= |r.1.txns| && r.1.txns[..|L.txns|] == L.txns
    decreases |os|
  {
    if |os| > 0 {
      RunOrdersCounted(os[..|os| - 1], L, p, book, tape, fill, t);
      var prev := RunOrders(os[..|os| - 1], L, p, book, tape, fill, t);
      var o := os[|os| - 1];
      if o.status == Books.ALIVE && book.Some? && FillOf(o, book.value, tape, fill).amount != 0.0 {
        var L2 := Settle(prev.1, p, FillOf(o, book.value, tape, fill), t);
        assert L2.txns[..|prev.1.txns|] == prev.1.txns;
        assert L2.txns[..|L.txns|] == prev.1.txns[..|L.txns|];
      }
    }
  }

  /** `SetTime` keeps trade ids counted, and keeps every earlier trade. */
  lemma {:induction false} RunPairsCounted(ps: seq<Pair>, orders: map<Pair, seq<SimOrder>>, L: Ledger,
                                           obts: map<Pair, seq<Books.OrderBookT>>, txn: map<Pair, seq<Transaction>>,
                                           now: int, t: int, fill: FillFn, between: BetweenFn)
    requires Counted(L.txns)
    ensures var r := RunPairs(ps, orders, L, obts, txn, now, t, fill, between);
      Counted(r.1.txns) && |L.txns| <= |r.1.txns| && r.1.txns[..|L.txns|] == L.txns
    decreases |ps|
  {
    if |ps| > 0 {
      RunPairsCounted(ps[..|ps| - 1], orders, L, obts, txn, now, t, fill, between);
      var prev := RunPairs(ps[..|ps| - 1], orders, L, obts, txn, now, t, fill, between);
      var p := ps[|ps| - 1];
      RunOrdersCounted(OrdersOf(prev.0, p), prev.1, p, BookOf(obts, p, now), between(TapeOf(txn, p), now, t), fill, t);
      var run := RunOrders(OrdersOf(prev.0, p), prev.1, p, BookOf(obts, p, now), between(TapeOf(txn, p), now, t), fill, t);
      assert run.1.txns[..|L.txns|] == prev.1.txns[..|L.txns|];
    }
  }

  /** One more order of a pair processed, as the loop of `SetTime` takes
      it: the processed prefix grows by one and the rest is untouched. */
  lemma RunOrdersStep(os: seq<SimOrder>, i: nat, L: Ledger, p: Pair, book: Option<Books.OrderBook>,
                      tape: seq<Transaction>, fill: FillFn, t: int)
    requires i < |os|
    ensures var prev := RunOrders(os[..i], L, p, book, tape, fill, t);
      var step := StepOrder(os[i], prev.1, p, book, tape, fill, t);
      var next := RunOrders(os[..i + 1], L, p, book, tape, fill, t);
      |prev.0| == i && (prev.0 + os[i..])[i] == os[i] &&
      next.0 + os[i + 1..] == (prev.0 + os[i..])[i := step.0] && next.1 == step.1
  {
    var prev := RunOrders(os[..i], L, p, book, tape, fill, t);
    var step := StepOrder(os[i], prev.1, p, book, tape, fill, t);
    assert os[..i + 1][..i] == os[..i];
    assert (prev.0 + os[i..])[i := step.0] == prev.0 + [step.0] + os[i + 1..];
  }

  /** What a whole tick keeps: trade ids counted and earlier trades
      kept, and every order numbered, with its id, price and time, and
      never revived. */
  lemma TickKeeps(ps: seq<Pair>, orders: map<Pair, seq<SimOrder>>, L: Ledger,
                  obts: map<Pair, seq<Books.OrderBookT>>, txn: map<Pair, seq<Transaction>>,
                  now: int, t: int, fill: FillFn, between: BetweenFn, bound: nat)
    requires forall j :: 0 <= j < |ps| ==> ps[j] in orders
    requires Counted(L.txns) && NumberedAll(orders, bound)
    ensures var r := RunPairs(ps, orders, L, obts, txn, now, t, fill, between);
      Counted(r.1.txns) && L.txns <= r.1.txns && KeepsAll(orders, r.0) && NumberedAll(r.0, bound)
  {
    var r := RunPairs(ps, orders, L, obts, txn, now, t, fill, between);
    RunPairsCounted(ps, orders, L, obts, txn, now, t, fill, between);
    RunPairsKeeps(ps, orders, L, obts, txn, now, t, fill, between);
    forall q | q in r.0
      ensures Numbered(r.0[q], bound)
    {
      KeepsNumbered(orders[q], r.0[q], bound);
    }
  }

  /** One more pair processed, as the loop of `SetTime` takes it. */
  lemma RunPairsStep(ps: seq<Pair>, j: nat, orders: map<Pair, seq<SimOrder>>, L: Ledger,
                     obts: map<Pair, seq<Books.OrderBookT>>, txn: map<Pair, seq<Transaction>>,
                     now: int, t: int, fill: FillFn, between: BetweenFn)
    requires j < |ps|
    ensures var prev := RunPairs(ps[..j], orders, L, obts, txn, now, t, fill, between);
      var p := ps[j];
      var run := RunOrders(OrdersOf(prev.0, p), prev.1, p, BookOf(obts, p, now),
                           between(TapeOf(txn, p), now, t), fill, t);
      RunPairs(ps[..j + 1], orders, L, obts, txn, now, t, fill, between) == (prev.0[p := run.0], run.1)
  {
    assert ps[..j + 1][..j] == ps[..j];
  }

  /** The step of `RunOrdersStep` on the whole order map, with the other
      pairs untouched. */
  lemma RunOrdersStepIn(os: seq<SimOrder>, i: nat, L: Ledger, p: Pair, book: Option<Books.OrderBook>,
                        tape: seq<Transaction>, fill: FillFn, t: int,
                        m0: map<Pair, seq<SimOrder>>, m: map<Pair, seq<SimOrder>>)
    requires i < |os|
    requires m == m0[p := RunOrders(os[..i], L, p, book, tape, fill, t).0 + os[i..]]
    ensures p in m && i < |m[p]| && m[p][i] == os[i]
    ensures var prev := RunOrders(os[..i], L, p, book, tape, fill, t);
      var step := StepOrder(os[i], prev.1, p, book, tape, fill, t);
      var next := RunOrders(os[..i + 1], L, p, book, tape, fill, t);
      m[p := m[p][i := step.0]] == m0[p := next.0 + os[i + 1..]] && next.1 == step.1
  {
    RunOrdersStep(os, i, L, p, book, tape, fill, t);
  }

  /** The loop of `ProcessPair` before its first and after its last
      order. */
  lemma RunOrdersEnds(os: seq<SimOrder>, L: Ledger, p: Pair, book: Option<Books.OrderBook>,
                      tape: seq<Transaction>, fill: FillFn, t: int, m0: map<Pair, seq<SimOrder>>)
    requires p in m0 && m0[p] == os
    ensures m0[p := RunOrders(os[..0], L, p, book, tape, fill, t).0 + os[0..]] == m0
    ensures RunOrders(os[..0], L, p, book, tape, fill, t).1 == L
    ensures var run := RunOrders(os, L, p, book, tape, fill, t);
      m0[p := RunOrders(os[..|os|], L, p, book, tape, fill, t).0 + os[|os|..]] == m0[p := run.0] &&
      RunOrders(os[..|os|], L, p, book, tape, fill, t).1 == run.1
  {
    assert os[..0] == [] && os[0..] == os;
    assert RunOrders([], L, p, book, tape, fill, t) == ([], L);
    assert [] + os == os;
    assert m0[p := os] == m0;
    assert os[..|os|] == os && os[|os|..] == [];
    assert RunOrders(os, L, p, book, tape, fill, t).0 + [] == RunOrders(os, L, p, book, tape, fill, t).0;
  }

  /** `rs` is `os` after some ticks: the same orders with the same ids,
      prices and times, orders that are not ALIVE untouched, and none
      ALIVE again. */
  predicate Keeps(os: seq<SimOrder>, rs: seq<SimOrder>)
  {
    |rs| == |os| &&
    forall i :: 0 <= i < |os| ==>
      rs[i].oid == os[i].oid && rs[i].price == os[i].price && rs[i].timeStamp == os[i].timeStamp &&
      (rs[i].status == Books.ALIVE ==> os[i].status == Books.ALIVE) &&
      (os[i].status != Books.ALIVE ==> rs[i] == os[i])
  }

  predicate KeepsAll(m1: map<Pair, seq<SimOrder>>, m2: map<Pair, seq<SimOrder>>)
  {
    m1.Keys == m2.Keys && forall p :: p in m1 ==> Keeps(m1[p], m2[p])
  }

  lemma KeepsTrans(a: seq<SimOrder>, b: seq<SimOrder>, c: seq<SimOrder>)
    requires Keeps(a, b) && Keeps(b, c)
    ensures Keeps(a, c)
  {
  }

  lemma {:induction false} RunOrdersKeeps(os: seq<SimOrder>, L: Ledger, p: Pair, book: Option<Books.OrderBook>,
                                          tape: seq<Transaction>, fill: FillFn, t: int)
    ensures Keeps(os, RunOrders(os, L, p, book, tape, fill, t).0)
    decreases |os|
  {
    if |os| > 0 {
      RunOrdersKeeps(os[..|os| - 1], L, p, book, tape, fill, t);
      var prev := RunOrders(os[..|os| - 1], L, p, book, tape, fill, t);
      StepOrderSpec(os[|os| - 1], prev.1, p, book, tape, fill, t);
    }
  }

  /** A tick changes no order's id, price or time, touches no order that
      is not ALIVE, and revives none. */
  lemma {:induction false} RunPairsKeeps(ps: seq<Pair>, orders: map<Pair, seq<SimOrder>>, L: Ledger,
                                         obts: map<Pair, seq<Books.OrderBookT>>, txn: map<Pair, seq<Transaction>>,
                                         now: int, t: int, fill: FillFn, between: BetweenFn)
    requires forall j :: 0 <= j < |ps| ==> ps[j] in orders
    ensures KeepsAll(orders, RunPairs(ps, orders, L, obts, txn, now, t, fill, between).0)
    decreases |ps|
  {
    if |ps| > 0 {
      RunPairsKeeps(ps[..|ps| - 1], orders, L, obts, txn, now, t, fill, between);
      var prev := RunPairs(ps[..|ps| - 1], orders, L, obts, txn, now, t, fill, between);
      var p := ps[|ps| - 1];
      RunOrdersKeeps(OrdersOf(prev.0, p), prev.1, p, BookOf(obts, p, now), between(TapeOf(txn, p), now, t), fill, t);
      var run := RunOrders(OrdersOf(prev.0, p), prev.1, p, BookOf(obts, p, now), between(TapeOf(txn, p), now, t), fill, t);
      KeepsTrans(orders[p], prev.0[p], run.0);
    }
  }

  // ---------------------------------------------------------------------
  // Order ids

  /** The number an order id spells, or -1 when it is not a numeral. */
  function IdValue(o: SimOrder): int
  {
    if AllDigits(o.oid) then DigitsValue(o.oid) else -1
  }

  /** The orders of a pair carry numeral ids below the counter, in the
      order they were placed. */
  predicate Numbered(os: seq<SimOrder>, bound: nat)
  {
    (forall i :: 0 <= i < |os| ==> 0 <= IdValue(os[i]) < bound) &&
    (forall i, j :: 0 <= i < j < |os| ==> IdValue(os[i]) < IdValue(os[j]))
  }

  predicate NumberedAll(m: map<Pair, seq<SimOrder>>, bound: nat)
  {
    forall p :: p in m ==> Numbered(m[p], bound)
  }

  /** Within a pair no two orders share an id. */
  lemma NumberedDistinct(os: seq<SimOrder>, bound: nat)
    requires Numbered(os, bound)
    ensures forall i, j :: 0 <= i < |os| && 0 <= j < |os| && i != j ==> os[i].oid != os[j].oid
  {
    forall i, j | 0 <= i < |os| && 0 <= j < |os| && i != j
      ensures os[i].oid != os[j].oid
    {
      if i < j { assert IdValue(os[i]) < IdValue(os[j]); } else { assert IdValue(os[j]) < IdValue(os[i]); }
    }
  }

  lemma KeepsNumbered(os: seq<SimOrder>, rs: seq<SimOrder>, bound: nat)
    requires Keeps(os, rs) && Numbered(os, bound)
    ensures Numbered(rs, bound)
  {
    assert forall i :: 0 <= i < |os| ==> IdValue(rs[i]) == IdValue(os[i]);
  }

  /** A new order whose id is the counter keeps the pair numbered under
      the next counter. */
  lemma AppendNumbered(os: seq<SimOrder>, bound: nat, o: SimOrder)
    requires Numbered(os, bound) && o.oid == NatToString(bound)
    ensures Numbered(os + [o], bound + 1)
  {
    NatToStringValue(bound);
    assert IdValue(o) == bound;
    var rs := os + [o];
    assert forall i :: 0 <= i < |os| ==> rs[i] == os[i];
  }

  lemma NumberedUp(m: map<Pair, seq<SimOrder>>, bound: nat)
    requires NumberedAll(m, bound)
    ensures NumberedAll(m, bound + 1)
  {
  }

  /** A new order numbered at the counter keeps the numbering below the
      next counter, and one in a pair with book snapshots keeps every
      pair with an ALIVE order priceable. */
  lemma PlaceNumbered(m: map<Pair, seq<SimOrder>>, pair: Pair, bound: nat, o: SimOrder,
                      obts: map<Pair, seq<Books.OrderBookT>>)
    requires NumberedAll(m, bound) && o.oid == NatToString(bound)
    ensures var m' := m[pair := OrdersOf(m, pair) + [o]];
      NumberedAll(m', bound + 1) &&
      ((forall p :: p in m && HasAlive(m[p]) ==> p in obts && |obts[p]| > 0) && pair in obts && |obts[pair]| > 0 ==>
        (forall p :: p in m' && HasAlive(m'[p]) ==> p in obts && |obts[p]| > 0))
  {
    AppendNumbered(OrdersOf(m, pair), bound, o);
    NumberedUp(m, bound);
  }

  // ---------------------------------------------------------------------
  // Locks, statuses and cancellation

  /** The lock `PlaceLimitOrder` adds: a buy locks its value in the quote
      coin, a sell its size in the coin. */
  function Lock(locked: map<Coin, real>, p: Pair, price: real, amount: real): map<Coin, real>
  {
    if amount > 0.0 then locked[p.base := Get(locked, p.base) + Worth(price, Abs(amount))]
    else locked[p.coin := Get(locked, p.coin) + Abs(amount)]
  }

  /** An order that fills whole at its own limit price releases exactly the
      lock it placed. */
  lemma LockReleased(L: Ledger, p: Pair, price: real, amount: real, t: int)
    requires amount != 0.0
    ensures forall c :: Get(Settle(L.(locked := Lock(L.locked, p, price, amount)), p, Fill(amount, price), t).locked, c)
                        == Get(L.locked, c)
  {
  }

  /** The status record `GetMyOrders` reports for an order. */
  function StatusOf(o: SimOrder): Books.OrderStatus
  {
    Books.OrderStatus(o.oid, o.timeStamp, Books.AmountToSide(o.amount), 0.0, Abs(o.amount),
                      o.price, o.price, o.status, 0.0, "")
  }

  /** The status records of the ALIVE orders, in slice order. */
  function AliveStatuses(os: seq<SimOrder>): (r: seq<Books.OrderStatus>)
    ensures |r| <= |os|
    decreases |os|
  {
    if |os| == 0 then []
    else AliveStatuses(os[..|os| - 1]) + (if os[|os| - 1].status == Books.ALIVE then [StatusOf(os[|os| - 1])] else [])
  }

  /** `GetMyOrders` reports exactly the ALIVE orders: each one's status is
      listed, and each listed status is an ALIVE order's, with its
      unsigned amount left. */
  lemma {:induction false} AliveStatusesSpec(os: seq<SimOrder>)
    ensures forall i :: 0 <= i < |os| && os[i].status == Books.ALIVE ==> StatusOf(os[i]) in AliveStatuses(os)
    ensures forall x :: x in AliveStatuses(os) ==>
      x.state == Books.ALIVE && x.leftAmount >= 0.0 && exists i :: 0 <= i < |os| && x == StatusOf(os[i])
    decreases |os|
  {
    if |os| > 0 {
      var init := os[..|os| - 1];
      AliveStatusesSpec(init);
      forall x | x in AliveStatuses(os)
        ensures x.state == Books.ALIVE && x.leftAmount >= 0.0 && exists i :: 0 <= i < |os| && x == StatusOf(os[i])
      {
        if x in AliveStatuses(init) {
          var i :| 0 <= i < |init| && x == StatusOf(init[i]);
          assert x == StatusOf(os[i]);
        } else {
          assert x == StatusOf(os[|os| - 1]);
        }
      }
      forall i | 0 <= i < |os| && os[i].status == Books.ALIVE
        ensures StatusOf(os[i]) in AliveStatuses(os)
      {
        if i < |init| { assert os[i] == init[i]; }
      }
    }
  }

  /** The orders of a pair after `CancelOrder`: every order with the id is
      CANCELLED, whatever its state; the rest are untouched. */
  predicate CancelledIn(os: seq<SimOrder>, rs: seq<SimOrder>, id: string)
  {
    |rs| == |os| &&
    forall i :: 0 <= i < |os| ==> rs[i] == if os[i].oid == id then os[i].(status := Books.CANCELLED) else os[i]
  }

  /** The orders after `CancelOrder(pair, id)`: the pair's orders with the
      id CANCELLED; an unknown pair is left alone. */
  function CancelIn(m: map<Pair, seq<SimOrder>>, pair: Pair, id: string): map<Pair, seq<SimOrder>>
  {
    if pair in m then m[pair := CancelUpTo(m[pair], |m[pair]|, id)] else m
  }

  /** The orders of `os` with the id CANCELLED among the first `i`. */
  function CancelUpTo(os: seq<SimOrder>, i: nat, id: string): (rs: seq<SimOrder>)
    ensures |rs| == |os|
  {
    seq(|os|, k requires 0 <= k < |os| =>
      if k < i && os[k].oid == id then os[k].(status := Books.CANCELLED) else os[k])
  }

  /** The start of the loop of `CancelOrder`: nothing CANCELLED yet. */
  lemma CancelStart(os: seq<SimOrder>, id: string, pair: Pair, m0: map<Pair, seq<SimOrder>>)
    requires pair in m0 && m0[pair] == os
    ensures m0[pair := CancelUpTo(os, 0, id)] == m0
  {
    assert CancelUpTo(os, 0, id) == os;
  }

  /** One more order of the loop of `CancelOrder`. */
  lemma CancelStep(os: seq<SimOrder>, i: nat, id: string, pair: Pair, m0: map<Pair, seq<SimOrder>>)
    requires i < |os|
    ensures var m := m0[pair := CancelUpTo(os, i, id)];
      pair in m && i < |m[pair]| && m[pair][i] == os[i] &&
      (os[i].oid == id ==> m[pair := m[pair][i := m[pair][i].(status := Books.CANCELLED)]] == m0[pair := CancelUpTo(os, i + 1, id)]) &&
      (os[i].oid != id ==> m == m0[pair := CancelUpTo(os, i + 1, id)])
  {
    var rs := CancelUpTo(os, i, id);
    if os[i].oid == id {
      assert rs[i := rs[i].(status := Books.CANCELLED)] == CancelUpTo(os, i + 1, id);
    } else {
      assert rs == CancelUpTo(os, i + 1, id);
    }
  }

  /** The end of the loop of `CancelOrder`: every order with the id is
      CANCELLED, the numbering is kept and no order is ALIVE anew. */
  lemma CancelDone(os: seq<SimOrder>, id: string, pair: Pair, m0: map<Pair, seq<SimOrder>>, bound: nat)
    requires pair in m0 && m0[pair] == os
    ensures var m := m0[pair := CancelUpTo(os, |os|, id)];
      m.Keys == m0.Keys && CancelledIn(os, m[pair], id) &&
      (forall q :: q in m && q != pair ==> m[q] == m0[q]) &&
      (NumberedAll(m0, bound) ==> NumberedAll(m, bound)) &&
      (forall q :: q in m && HasAlive(m[q]) ==> HasAlive(m0[q]))
  {
    var rs := CancelUpTo(os, |os|, id);
    var m := m0[pair := rs];
    CancelAddsNoAlive(os, rs, id);
    if NumberedAll(m0, bound) {
      CancelHitsOne(os, rs, id, bound);
    }
  }

  /** A tick makes no order ALIVE. */
  lemma KeepsNoNewAlive(m1: map<Pair, seq<SimOrder>>, m2: map<Pair, seq<SimOrder>>)
    requires KeepsAll(m1, m2)
    ensures forall p :: p in m2 && HasAlive(m2[p]) ==> p in m1 && HasAlive(m1[p])
  {
    forall p | p in m2 && HasAlive(m2[p])
      ensures HasAlive(m1[p])
    {
      var i :| 0 <= i < |m2[p]| && m2[p][i].status == Books.ALIVE;
      assert m1[p][i].status == Books.ALIVE;
    }
  }

  /** A cancel makes no order ALIVE. */
  lemma CancelAddsNoAlive(os: seq<SimOrder>, rs: seq<SimOrder>, id: string)
    requires CancelledIn(os, rs, id)
    ensures HasAlive(rs) ==> HasAlive(os)
  {
    if HasAlive(rs) {
      var i :| 0 <= i < |rs| && rs[i].status == Books.ALIVE;
      assert os[i].status == Books.ALIVE;
    }
  }

  /** On a numbered pair a cancel hits at most one order. */
  lemma CancelHitsOne(os: seq<SimOrder>, rs: seq<SimOrder>, id: string, bound: nat)
    requires Numbered(os, bound) && CancelledIn(os, rs, id)
    ensures forall i, j :: 0 <= i < j < |os| && rs[i] != os[i] ==> rs[j] == os[j]
    ensures Numbered(rs, bound)
  {
    NumberedDistinct(os, bound);
    assert forall i :: 0 <= i < |os| ==> IdValue(rs[i]) == IdValue(os[i]);
  }

  /** `SetTime` never reads the book of a pair with no ALIVE order; every
      other pair must have a book series. */
  predicate HasAlive(os: seq<SimOrder>)
  {
    exists i :: 0 <= i < |os| && os[i].status == Books.ALIVE
  }

  lemma {:induction false} RunPairsElsewhere(ps: seq<Pair>, orders: map<Pair, seq<SimOrder>>, L: Ledger,
                                             obts: map<Pair, seq<Books.OrderBookT>>, txn: map<Pair, seq<Transaction>>,
                                             now: int, t: int, fill: FillFn, between: BetweenFn, q: Pair)
    requires q in orders && forall j :: 0 <= j < |ps| ==> ps[j] != q
    ensures var r := RunPairs(ps, orders, L, obts, txn, now, t, fill, between);
      q in r.0 && r.0[q] == orders[q]
    decreases |ps|
  {
    if |ps| > 0 {
      RunPairsElsewhere(ps[..|ps| - 1], orders, L, obts, txn, now, t, fill, between, q);
    }
  }

  // ---------------------------------------------------------------------
  // The simulator

  class Simulator {
    const exName: string
    /** The historical book series and trade tapes per pair. */
    const obts: map<Pair, seq<Books.OrderBookT>>
    const txn: map<Pair, seq<Transaction>>
    const myPortfolio: Portfolio
    var now: int
    var last: int
    var myActions: seq<Strat.TradeActionT>
    var myOrders: map<Pair, seq<SimOrder>>
    var myTransactions: seq<Transaction>
    var oid: nat

    /** The balances, locks and trades together. */
    function LedgerOf(): Ledger
      reads this, myPortfolio
    {
      Ledger(myPortfolio.balances, myPortfolio.locked, myTransactions)
    }

    /** Trade ids are their positions and order ids are numbered below the
        counter. */
    predicate Valid()
      reads this
    {
      Counted(myTransactions) && NumberedAll(myOrders, oid)
    }

    /** Every pair with an ALIVE order has book snapshots. */
    predicate CanPrice()
      reads this
    {
      forall p :: p in myOrders && HasAlive(myOrders[p]) ==> p in obts && |obts[p]| > 0
    }

    /** `NewSimulator`: no orders yet in each listed pair, the clock at
        `start`, the previous time the zero time, the counter at 0. */
    constructor NewSimulator(exName: string, pairs: seq<Pair>, start: int, initPortfolio: Portfolio,
                             obts: map<Pair, seq<Books.OrderBookT>>, txn: map<Pair, seq<Transaction>>)
      ensures this.exName == exName && this.obts == obts && this.txn == txn && myPortfolio == initPortfolio
      ensures myOrders == map p | p in pairs :: []
      ensures now == start && last == -ZeroToUnix && oid == 0
      ensures myActions == [] && myTransactions == []
      ensures Valid()
    {
      this.exName := exName;
      this.obts := obts;
      this.txn := txn;
      myPortfolio := initPortfolio;
      myOrders := map p | p in pairs :: [];
      now := start;
      last := -ZeroToUnix;
      oid := 0;
      myActions := [];
      myTransactions := [];
    }

    function Name(): string { exName }

    /** The book at the current time. */
    method GetOrderBook(pair: Pair) returns (ob: Books.OrderBook)
      requires pair in obts && |obts[pair]| > 0
      ensures ob == Books.BookAt(obts[pair], now)
    {
      ob := Books.GetOrderBook(obts[pair], now);
    }

    /** The last ten minutes of the tape: with a sound window query, only
      trades of the pair's tape stamped from ten minutes before now up to
      now. */
    function GetTransactionHistory(pair: Pair, between: BetweenFn): (r: seq<Transaction>)
      reads this
      ensures BetweenSane(between) ==>
        forall k :: 0 <= k < |r| ==> r[k] in TapeOf(txn, pair) && now - 10 * Minute <= r[k].timeStamp <= now
    {
      between(TapeOf(txn, pair), now - 10 * Minute, now)
    }

    function GetTrades(): (r: seq<Transaction>)
      reads this
      requires Valid()
      ensures Counted(r)
    {
      myTransactions
    }

    function GetPortfolio(): Portfolio { myPortfolio }

    method GetPortfolioByCoins(coins: seq<Coin>) returns (r: Portfolio)
      ensures fresh(r) && r.contracts == []
      ensures r.balances == map c | c in coins :: myPortfolio.Balance(c)
      ensures r.locked == map c | c in coins && c in myPortfolio.locked :: myPortfolio.locked[c]
    {
      r := myPortfolio.Filter(coins);
    }

    /** The simulator tracks every order itself. */
    method TrackOrderID(pair: Pair, id: string)
    {
    }

    /** `GetMyOrders`: the status records of the ALIVE orders of a pair. */
    method GetMyOrders(pair: Pair) returns (r: seq<Books.OrderStatus>)
      ensures r == AliveStatuses(OrdersOf(myOrders, pair))
    {
      var os := OrdersOf(myOrders, pair);
      r := [];
      var i := 0;
      while i < |os|
        invariant 0 <= i <= |os|
        invariant r == AliveStatuses(os[..i])
      {
        assert os[..i + 1][..i] == os[..i];
        if os[i].status == Books.ALIVE {
          r := r + [StatusOf(os[i])];
        }
        i := i + 1;
      }
      assert os[..i] == os;
    }

    /** The locked amount of a coin, read as the balance less what is
        available. */
    method LockedOf(c: Coin) returns (v: real)
      ensures v == Get(myPortfolio.locked, c)
    {
      v := myPortfolio.Balance(c) - myPortfolio.AvailableBalance(c);
    }

    /** `PlaceLimitOrder`: the price is rounded to the pair's precision, the
        action is recorded at the current time, a new ALIVE order takes the
        counter as its id, and its value (buy) or size (sell) is locked; no
        balance changes. */
    method PlaceLimitOrder(pair: Pair, price_: real, amount: real) returns (id: string)
      requires OrderPricePrec(pair).Some?
      requires Valid()
      modifies this, myPortfolio
      ensures var price := RoundToPrec(price_, OrderPricePrec(pair).value);
        myActions == old(myActions) + [Strat.TradeActionT(now, Strat.PlaceLimitOrderAction(exName, pair, price, amount))] &&
        myOrders == old(myOrders)[pair := OrdersOf(old(myOrders), pair) + [SimOrder(id, price, amount, Books.ALIVE, now)]]
      ensures myPortfolio.locked == Lock(old(myPortfolio.locked), pair, RoundToPrec(price_, OrderPricePrec(pair).value), amount)
      ensures id == NatToString(old(oid)) && oid == old(oid) + 1
      ensures myPortfolio.balances == old(myPortfolio.balances) && myPortfolio.contracts == old(myPortfolio.contracts)
      ensures now == old(now) && last == old(last) && myTransactions == old(myTransactions)
      ensures Valid()
      ensures old(CanPrice()) && pair in obts && |obts[pair]| > 0 ==> CanPrice()
    {
      var price := RoundToPrec(price_, OrderPricePrec(pair).value);
      myActions := myActions + [Strat.TradeActionT(now, Strat.PlaceLimitOrderAction(exName, pair, price, amount))];
      id := NatToString(oid);
      var order := SimOrder(id, price, amount, Books.ALIVE, now);
      PlaceNumbered(myOrders, pair, oid, order, obts);
      myOrders := myOrders[pair := OrdersOf(myOrders, pair) + [order]];
      oid := oid + 1;
      LockFor(pair, price, amount);
    }

    /** The lock of a new order: a bid locks its value in the base, an
        offer its size in the coin. */
    method LockFor(pair: Pair, price: real, amount: real)
      modifies myPortfolio
      ensures myPortfolio.locked == Lock(old(myPortfolio.locked), pair, price, amount)
      ensures myPortfolio.balances == old(myPortfolio.balances) && myPortfolio.contracts == old(myPortfolio.contracts)
    {
      if amount > 0.0 {
        var lockedBase := LockedOf(pair.base);
        myPortfolio.SetLockedBalance(pair.base, lockedBase + Worth(price, Abs(amount)));
      } else {
        var lockedCoin := LockedOf(pair.coin);
        myPortfolio.SetLockedBalance(pair.coin, lockedCoin + Abs(amount));
      }
    }

    /** `CancelOrder`: the action is recorded, and every order of the pair
        with the id is CANCELLED; an unknown pair is left alone, and no lock
        is released. */
    method CancelOrder(pair: Pair, id: string)
      requires Valid()
      modifies this
      ensures myActions == old(myActions) + [Strat.TradeActionT(now, Strat.CancelOrderAction(exName, pair, id))]
      ensures myOrders == CancelIn(old(myOrders), pair, id)
      ensures myOrders.Keys == old(myOrders).Keys
      ensures pair in old(myOrders) ==> CancelledIn(old(myOrders[pair]), myOrders[pair], id)
      ensures forall q :: q in myOrders && q != pair ==> myOrders[q] == old(myOrders[q])
      ensures now == old(now) && last == old(last) && oid == old(oid) && myTransactions == old(myTransactions)
      ensures Valid()
      ensures old(CanPrice()) ==> CanPrice()
    {
      myActions := myActions + [Strat.TradeActionT(now, Strat.CancelOrderAction(exName, pair, id))];
      if pair in myOrders {
        ghost var os := myOrders[pair];
        ghost var m0 := myOrders;
        var n := |myOrders[pair]|;
        var i := 0;
        CancelStart(os, id, pair, m0);
        while i < n
          invariant 0 <= i <= n == |os|
          invariant myActions == old(myActions) + [Strat.TradeActionT(now, Strat.CancelOrderAction(exName, pair, id))]
          invariant now == old(now) && last == old(last) && oid == old(oid) && myTransactions == old(myTransactions)
          invariant myOrders == m0[pair := CancelUpTo(os, i, id)]
        {
          CancelStep(os, i, id, pair, m0);
          if myOrders[pair][i].oid == id {
            myOrders := myOrders[pair := myOrders[pair][i := myOrders[pair][i].(status := Books.CANCELLED)]];
          }
          i := i + 1;
        }
        CancelDone(os, id, pair, m0, oid);
      }
    }

    /** The fill of an ALIVE order at a tick: the book at the current
        time first, then the tape up to `t` for the rest. */
    method FillAt(o: SimOrder, p: Pair, t: int, fill: FillFn, between: BetweenFn) returns (f: Fill)
      requires p in obts && |obts[p]| > 0
      ensures f.amount == FillOf(o, Books.BookAt(obts[p], now), between(TapeOf(txn, p), now, t), fill).amount
      ensures f.amount != 0.0 ==> f == FillOf(o, Books.BookAt(obts[p], now), between(TapeOf(txn, p), now, t), fill)
    {
      var book := Books.GetOrderBook(obts[p], now);
      var obFill := Books.Match(book, Books.Order(o.price, o.amount));
      var txnFill := 0.0;
      if Abs(obFill.amount - o.amount) > 0.0 {
        var recent := between(TapeOf(txn, p), now, t);
        txnFill := fill(recent, o.price, o.amount - obFill.amount);
      }
      var fillAmount := obFill.amount + txnFill;
      if fillAmount != 0.0 {
        f := Fill(fillAmount, (obFill.price * obFill.amount + o.price * txnFill) / fillAmount);
      } else {
        f := Fill(0.0, 0.0);
      }
    }

    /** Books a non-zero fill on `p` at time `t`, as `Settle` says. */
    method Book(p: Pair, f: Fill, t: int)
      modifies this, myPortfolio
      ensures LedgerOf() == Settle(old(LedgerOf()), p, f, t)
      ensures myOrders == old(myOrders) && now == old(now) && last == old(last)
      ensures myActions == old(myActions) && oid == old(oid) && myPortfolio.contracts == old(myPortfolio.contracts)
    {
      var maker := if f.amount > 0.0 then Buyer else Seller;
      ReleaseFor(p, f);
      myPortfolio.AddBalance(p.coin, f.amount);
      myPortfolio.AddBalance(p.base, -Worth(f.price, f.amount));
      myTransactions := myTransactions + [Transaction(p, f.price, f.amount, t, maker, NatToString(|myTransactions|))];
    }

    /** The lock a fill releases: a buy's value in the base, a sell's
        size in the coin. */
    method ReleaseFor(p: Pair, f: Fill)
      modifies myPortfolio
      ensures myPortfolio.locked == Release(old(myPortfolio.locked), p, f)
      ensures myPortfolio.balances == old(myPortfolio.balances) && myPortfolio.contracts == old(myPortfolio.contracts)
    {
      if f.amount > 0.0 {
        var lockedBase := LockedOf(p.base);
        myPortfolio.SetLockedBalance(p.base, lockedBase - Worth(f.price, Abs(f.amount)));
      } else {
        var lockedCoin := LockedOf(p.coin);
        myPortfolio.SetLockedBalance(p.coin, lockedCoin - Abs(f.amount));
      }
    }

    /** One order of one pair at a tick, as `StepOrder` says. */
    method ProcessOrder(p: Pair, i: nat, t: int, fill: FillFn, between: BetweenFn,
                        ghost book: Option<Books.OrderBook>, ghost tape: seq<Transaction>)
      requires p in myOrders && i < |myOrders[p]|
      requires myOrders[p][i].status == Books.ALIVE ==> p in obts && |obts[p]| > 0
      requires book == BookOf(obts, p, now) && tape == between(TapeOf(txn, p), now, t)
      modifies this, myPortfolio
      ensures var step := StepOrder(old(myOrders[p][i]), old(LedgerOf()), p, book, tape, fill, t);
        myOrders == old(myOrders)[p := old(myOrders[p])[i := step.0]] && LedgerOf() == step.1
      ensures now == old(now) && last == old(last) && myActions == old(myActions) && oid == old(oid)
      ensures myPortfolio.contracts == old(myPortfolio.contracts)
    {
      var o := myOrders[p][i];
      ghost var L0 := LedgerOf();
      assert myOrders[p][i := o] == myOrders[p];
      assert myOrders[p := myOrders[p]] == myOrders;
      if o.status == Books.ALIVE {
        var f := FillAt(o, p, t, fill, between);
        ghost var step := StepOrder(o, L0, p, book, tape, fill, t);
        assert f.amount != 0.0 ==> step == (Updated(o, f), Settle(L0, p, f, t));
        if f.amount != 0.0 {
          if f.amount == o.amount {
            myOrders := myOrders[p := myOrders[p][i := o.(status := Books.FILLED)]];
          } else {
            myOrders := myOrders[p := myOrders[p][i := o.(amount := o.amount - f.amount)]];
          }
          Book(p, f, t);
        }
      }
    }

    /** All orders of one pair at a tick, in slice order. */
    method ProcessPair(p: Pair, t: int, fill: FillFn, between: BetweenFn)
      requires p in myOrders
      requires HasAlive(myOrders[p]) ==> p in obts && |obts[p]| > 0
      modifies this, myPortfolio
      ensures var run := RunOrders(old(myOrders[p]), old(LedgerOf()), p, BookOf(obts, p, now),
                                   between(TapeOf(txn, p), now, t), fill, t);
        myOrders == old(myOrders)[p := run.0] && LedgerOf() == run.1
      ensures now == old(now) && last == old(last) && myActions == old(myActions) && oid == old(oid)
      ensures myPortfolio.contracts == old(myPortfolio.contracts)
    {
      ghost var os := myOrders[p];
      ghost var L0 := LedgerOf();
      var book := BookOf(obts, p, now);
      var tape := between(TapeOf(txn, p), now, t);
      var n := |myOrders[p]|;
      var i := 0;
      RunOrdersEnds(os, L0, p, book, tape, fill, t, myOrders);
      while i < n
        invariant 0 <= i <= n == |os|
        invariant myOrders == old(myOrders)[p := RunOrders(os[..i], L0, p, book, tape, fill, t).0 + os[i..]]
        invariant LedgerOf() == RunOrders(os[..i], L0, p, book, tape, fill, t).1
        invariant now == old(now) && last == old(last) && myActions == old(myActions) && oid == old(oid)
        invariant myPortfolio.contracts == old(myPortfolio.contracts)
      {
        ghost var before := myOrders;
        RunOrdersStepIn(os, i, L0, p, book, tape, fill, t, old(myOrders), before);
        assert os[i].status == Books.ALIVE ==> HasAlive(os);
        ProcessOrder(p, i, t, fill, between, book, tape);
        i := i + 1;
      }
    }

    /** Every pair of a tick, in the given order. */
    method ProcessPairs(t: int, order: seq<Pair>, fill: FillFn, between: BetweenFn)
      requires forall j :: 0 <= j < |order| ==> order[j] in myOrders
      requires forall j, k :: 0 <= j < k < |order| ==> order[j] != order[k]
      requires CanPrice()
      modifies this, myPortfolio
      ensures var r := RunPairs(order, old(myOrders), old(LedgerOf()), obts, txn, now, t, fill, between);
        myOrders == r.0 && LedgerOf() == r.1
      ensures now == old(now) && last == old(last) && myActions == old(myActions) && oid == old(oid)
      ensures myPortfolio.contracts == old(myPortfolio.contracts)
    {
      ghost var M0 := myOrders;
      ghost var L0 := LedgerOf();
      var j := 0;
      while j < |order|
        invariant 0 <= j <= |order|
        invariant myOrders == RunPairs(order[..j], M0, L0, obts, txn, now, t, fill, between).0
        invariant LedgerOf() == RunPairs(order[..j], M0, L0, obts, txn, now, t, fill, between).1
        invariant now == old(now) && last == old(last) && myActions == old(myActions) && oid == old(oid)
        invariant myPortfolio.contracts == old(myPortfolio.contracts)
      {
        var p := order[j];
        assert forall k :: 0 <= k < j ==> order[..j][k] == order[k];
        RunPairsElsewhere(order[..j], M0, L0, obts, txn, now, t, fill, between, p);
        assert myOrders[p] == M0[p];
        assert HasAlive(myOrders[p]) ==> p in obts && |obts[p]| > 0;
        RunPairsStep(order, j, M0, L0, obts, txn, now, t, fill, between);
        ProcessPair(p, t, fill, between);
        j := j + 1;
      }
      assert order[..j] == order;
    }

    /** `SetTime`: every pair, in map order, against its book at the
        current time and its tape up to `t`; then the clock moves to
        `t`. */
    method SetTime(t: int, order: seq<Pair>, fill: FillFn, between: BetweenFn)
      requires forall j :: 0 <= j < |order| ==> order[j] in myOrders
      requires forall p :: p in myOrders ==> p in order
      requires forall j, k :: 0 <= j < k < |order| ==> order[j] != order[k]
      requires CanPrice()
      requires Valid()
      modifies this, myPortfolio
      ensures var r := RunPairs(order, old(myOrders), old(LedgerOf()), obts, txn, old(now), t, fill, between);
        myOrders == r.0 && LedgerOf() == r.1
      ensures now == t && last == old(now)
      ensures myActions == old(myActions) && oid == old(oid) && myPortfolio.contracts == old(myPortfolio.contracts)
      ensures KeepsAll(old(myOrders), myOrders)
      ensures old(myTransactions) <= myTransactions
      ensures Valid() && CanPrice()
    {
      TickKeeps(order, myOrders, LedgerOf(), obts, txn, now, t, fill, between, oid);
      ghost var M0 := myOrders;
      ProcessPairs(t, order, fill, between);
      KeepsNoNewAlive(M0, myOrders);
      last := now;
      now := t;
    }
  }
}
