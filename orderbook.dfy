/**
 * The order book of orderbook.go: two price ladders of `Order`s (bids
 * best-first descending, asks best-first ascending), the top-of-book
 * queries, dust removal, sorting, depth walks, snapshot lookup in a time
 * series, and the matching of a marketable order against the book.
 *
 * A Go slice that the source mutates in place (Denoise, Sort) is an
 * `array`; everywhere else a book is a value over `seq`s. A Go
 * receiver that may be nil is an `Option<OrderBook>`.
 */
module Books {
  import opened Wrappers
  import opened Num
  import opened Pairs
  import opened Sorting

  datatype Order = Order(price: real, amount: real)

  datatype OrderBook = OrderBook(bids: seq<Order>, asks: seq<Order>)

  /** A timed book; times are nanoseconds since the Unix epoch. */
  datatype OrderBookT = OrderBookT(time: int, ob: OrderBook)

  /** An `Order` as a query returns it, whose price may be NaN. */
  datatype Quote = Quote(price: Fl, amount: real)

  datatype OrderState = ALIVE | FILLED | CANCELLED

  datatype Side = BUY | SELL

  /** The status record of a placed order. */
  datatype OrderStatus = OrderStatus(
    orderID: string, placedTime: int, side: Side,
    filledAmount: real, leftAmount: real, placedPrice: real, price: real,
    state: OrderState, commission: real, commissionAsset: string)

  /** `AmountToSide`: a negative amount sells, anything else buys. */
  function AmountToSide(amt: real): (s: Side)
    ensures s == SELL <==> amt < 0.0
  {
    if amt < 0.0 then SELL else BUY
  }

  // ---------------------------------------------------------------------
  // Top of book

  /** `BestBid`: the first bid, or the sentinel "a zero bid in any amount"
      (price 0, amount 99) for a nil book or an empty bid side. */
  function BestBid(ob: Option<OrderBook>): Quote
  {
    if ob.Some? && |ob.value.bids| > 0 then Quote(R(ob.value.bids[0].price), ob.value.bids[0].amount)
    else Quote(R(0.0), 99.0)
  }

  /** `BestAsk`: the first ask, or (NaN, 0). */
  function BestAsk(ob: Option<OrderBook>): Quote
  {
    if ob.Some? && |ob.value.asks| > 0 then Quote(R(ob.value.asks[0].price), ob.value.asks[0].amount)
    else Quote(NaN, 0.0)
  }

  predicate Valid(ob: OrderBook)
  {
    |ob.bids| > 0 && |ob.asks| > 0
  }

  function Mid(ob: Option<OrderBook>): Fl
  {
    if ob.Some? && Valid(ob.value) then R((ob.value.bids[0].price + ob.value.asks[0].price) / 2.0) else NaN
  }

  function Spread(ob: OrderBook): Fl
  {
    if Valid(ob) then R(ob.asks[0].price - ob.bids[0].price) else NaN
  }

  /** The results of `BidAskMid`; `err` stands for the non-nil error. */
  datatype BidAskMidResult = BidAskMidResult(bid: Fl, ask: Fl, mid: Fl, err: bool)

  function BidAskMid(ob: Option<OrderBook>): (r: BidAskMidResult)
    ensures r.err <==> ob.None?
    ensures r.bid.R? <==> ob.Some? && |ob.value.bids| > 0
    ensures r.ask.R? <==> ob.Some? && |ob.value.asks| > 0
    ensures r.mid.R? <==> r.bid.R? || r.ask.R?
    ensures r.bid.R? && r.ask.NaN? ==> r.mid == r.bid
    ensures r.ask.R? && r.bid.NaN? ==> r.mid == r.ask
  {
    if ob.None? then BidAskMidResult(NaN, NaN, NaN, true)
    else if |ob.value.bids| > 0 && |ob.value.asks| > 0 then
      var bid := ob.value.bids[0].price;
      var ask := ob.value.asks[0].price;
      BidAskMidResult(R(bid), R(ask), R((bid + ask) / 2.0), false)
    else if |ob.value.asks| > 0 then BidAskMidResult(NaN, R(ob.value.asks[0].price), R(ob.value.asks[0].price), false)
    else if |ob.value.bids| > 0 then BidAskMidResult(R(ob.value.bids[0].price), NaN, R(ob.value.bids[0].price), false)
    else BidAskMidResult(NaN, NaN, NaN, false)
  }

  /** On a valid book the top-of-book queries agree: the mid is the average
      of the best bid and the best ask, the spread is their difference, and
      `BidAskMid` reports the same three numbers without an error. */
  lemma TopOfBook(ob: OrderBook)
    ensures Valid(ob) <==> Mid(Some(ob)).R?
    ensures Valid(ob) <==> Spread(ob).R?
    ensures Valid(ob) ==>
      var bid, ask := BestBid(Some(ob)).price.r, BestAsk(Some(ob)).price.r;
      Mid(Some(ob)) == R((bid + ask) / 2.0) && Spread(ob) == R(ask - bid) &&
      BidAskMid(Some(ob)) == BidAskMidResult(R(bid), R(ask), Mid(Some(ob)), false)
    ensures !Valid(ob) ==> Mid(Some(ob)) == NaN && Spread(ob) == NaN
  {
  }

  /** The empty-side sentinels: a missing bid reads as price 0 in amount 99,
      a missing ask as NaN in amount 0; a nil book has no mid and an error. */
  lemma Sentinels(ob: Option<OrderBook>)
    ensures (ob.None? || |ob.value.bids| == 0) ==> BestBid(ob) == Quote(R(0.0), 99.0)
    ensures (ob.None? || |ob.value.asks| == 0) ==> BestAsk(ob) == Quote(NaN, 0.0)
    ensures ob.None? ==> Mid(ob) == NaN && BidAskMid(ob) == BidAskMidResult(NaN, NaN, NaN, true)
  {
  }

  /** `Equal`: both books valid with the same best bid and best ask prices. */
  predicate Equal(ob1: OrderBook, ob2: OrderBook)
  {
    |ob1.bids| > 0 && |ob2.bids| > 0 && ob1.bids[0].price == ob2.bids[0].price &&
    |ob1.asks| > 0 && |ob2.asks| > 0 && ob1.asks[0].price == ob2.asks[0].price
  }

  /** `Equal` is a partial equivalence whose domain is the valid books, and
      it looks only at the top-of-book prices. */
  lemma EqualLaws(ob1: OrderBook, ob2: OrderBook, ob3: OrderBook)
    ensures Equal(ob1, ob1) <==> Valid(ob1)
    ensures Equal(ob1, ob2) ==> Equal(ob2, ob1) && Valid(ob1) && Valid(ob2)
    ensures Equal(ob1, ob2) && Equal(ob2, ob3) ==> Equal(ob1, ob3)
    ensures Equal(ob1, ob2) <==>
      Valid(ob1) && Valid(ob2) &&
      BestBid(Some(ob1)).price == BestBid(Some(ob2)).price &&
      BestAsk(Some(ob1)).price == BestAsk(Some(ob2)).price
  {
  }

  /** `Copy`: fresh slices with the same entries, so that later writes to
      either book do not reach the other. */
  method Copy(bids: array<Order>, asks: array<Order>) returns (bids2: array<Order>, asks2: array<Order>)
    ensures fresh(bids2) && fresh(asks2) && bids2 != asks2
    ensures bids2[..] == bids[..] && asks2[..] == asks[..]
  {
    bids2 := new Order[bids.Length](i => Order(0.0, 0.0));
    asks2 := new Order[asks.Length](i => Order(0.0, 0.0));
    for i := 0 to bids.Length
      invariant bids2[..i] == bids[..i]
    {
      bids2[i] := bids[i];
    }
    for i := 0 to asks.Length
      invariant asks2[..i] == asks[..i]
      invariant bids2[..] == bids[..]
    {
      asks2[i] := asks[i];
    }
  }

  // ---------------------------------------------------------------------
  // Sorting

  /** The ask comparator: ascending price. */
  predicate AskBefore(x: Order, y: Order) { x.price < y.price }

  /** The bid comparator: descending price. */
  predicate BidBefore(x: Order, y: Order) { x.price > y.price }

  predicate Ascending(s: seq<Order>)
  {
    forall i, j :: 0 <= i < j < |s| ==> s[i].price <= s[j].price
  }

  predicate Descending(s: seq<Order>)
  {
    forall i, j :: 0 <= i < j < |s| ==> s[i].price >= s[j].price
  }

  /** Sorts one ladder in place by ascending (`asc`) or descending price. */
  method SortLadder(a: array<Order>, asc: bool)
    modifies a
    ensures multiset(a[..]) == multiset(old(a[..]))
    ensures asc ==> Ascending(a[..])
    ensures !asc ==> Descending(a[..])
  {
    if asc {
      ByKey(a[..], AskBefore, (o: Order) => o.price);
      SortSlice(a, AskBefore);
    } else {
      ByKey(a[..], BidBefore, (o: Order) => -o.price);
      SortSlice(a, BidBefore);
    }
  }

  /** A sorted copy of a ladder, through an array sorted in place. */
  method SortedLadder(s: seq<Order>, asc: bool) returns (r: seq<Order>)
    ensures multiset(r) == multiset(s)
    ensures asc ==> Ascending(r)
    ensures !asc ==> Descending(r)
  {
    var a := new Order[|s|](i requires 0 <= i < |s| => s[i]);
    assert a[..] == s;
    SortLadder(a, asc);
    r := a[..];
  }

  /** No two levels of the ladder share a price. */
  predicate DistinctPrices(s: seq<Order>)
  {
    forall i, j :: 0 <= i < j < |s| ==> s[i].price != s[j].price
  }

  lemma SameHead(s: seq<Order>, t: seq<Order>, asc: bool)
    requires multiset(s) == multiset(t) && DistinctPrices(s) && |s| > 0
    requires asc ==> Ascending(s) && Ascending(t)
    requires !asc ==> Descending(s) && Descending(t)
    ensures |t| > 0 && s[0] == t[0]
  {
    assert |t| == |multiset(t)| == |s|;
    assert t[0] in multiset(s) by { assert t[0] in multiset(t); }
    assert s[0] in multiset(t) by { assert s[0] in multiset(s); }
    var p :| 0 <= p < |s| && s[p] == t[0];
    var q :| 0 <= q < |t| && t[q] == s[0];
    assert s[0].price == s[p].price;
  }

  lemma SameTail<T>(s: seq<T>, t: seq<T>)
    requires multiset(s) == multiset(t) && |s| > 0 && |t| > 0 && s[0] == t[0]
    ensures multiset(s[1..]) == multiset(t[1..])
  {
    assert s == [s[0]] + s[1..] && t == [t[0]] + t[1..];
    assert multiset(s) == multiset{s[0]} + multiset(s[1..]);
    assert multiset(t) == multiset{t[0]} + multiset(t[1..]);
    assert multiset(s[1..]) == multiset(s) - multiset{s[0]};
    assert multiset(t[1..]) == multiset(t) - multiset{t[0]};
  }

  /** A ladder with distinct prices has only one ascending (and only one
      descending) arrangement, so re-sorting an ordered ladder leaves it as
      it is. */
  lemma {:induction false} SortedUnique(s: seq<Order>, t: seq<Order>, asc: bool)
    requires multiset(s) == multiset(t) && DistinctPrices(s)
    requires asc ==> Ascending(s) && Ascending(t)
    requires !asc ==> Descending(s) && Descending(t)
    ensures s == t
  {
    if s == [] {
      assert |t| == |multiset(t)| == 0;
    } else {
      SameHead(s, t, asc);
      SameTail(s, t);
      SortedUnique(s[1..], t[1..], asc);
      assert s == [s[0]] + s[1..] && t == [t[0]] + t[1..];
    }
  }

  /** `Sort`: the asks ascending, then the bids descending, both in place;
      when both sides share one array the bid order is what remains. */
  method Sort(bids: array<Order>, asks: array<Order>)
    modifies bids, asks
    ensures multiset(bids[..]) == multiset(old(bids[..]))
    ensures multiset(asks[..]) == multiset(old(asks[..]))
    ensures Descending(bids[..])
    ensures bids != asks ==> Ascending(asks[..])
  {
    SortLadder(asks, true);
    SortLadder(bids, false);
  }

  /** On a ladder in best-first order the first entry holds the best price. */
  lemma BestIsExtreme(ob: OrderBook)
    ensures Descending(ob.bids) && |ob.bids| > 0 ==>
      forall o :: o in ob.bids ==> o.price <= BestBid(Some(ob)).price.r
    ensures Ascending(ob.asks) && |ob.asks| > 0 ==>
      forall o :: o in ob.asks ==> o.price >= BestAsk(Some(ob)).price.r
  {
    if Descending(ob.bids) && |ob.bids| > 0 {
      forall o | o in ob.bids
        ensures o.price <= ob.bids[0].price
      {
        var i :| 0 <= i < |ob.bids| && ob.bids[i] == o;
        if i > 0 {
          assert ob.bids[0].price >= ob.bids[i].price;
        }
      }
    }
    if Ascending(ob.asks) && |ob.asks| > 0 {
      forall o | o in ob.asks
        ensures o.price >= ob.asks[0].price
      {
        var i :| 0 <= i < |ob.asks| && ob.asks[i] == o;
        if i > 0 {
          assert ob.asks[0].price <= ob.asks[i].price;
        }
      }
    }
  }

  // ---------------------------------------------------------------------
  // Denoise

  /** The dust carried into entry `i`: the amount of entry `i - 1`, after
      its own carry, when that falls below the minimum, else nothing. */
  function CarryIn(s: seq<Order>, min: real, i: nat): real
    requires i <= |s|
  {
    if i == 0 then 0.0
    else
      var a := s[i - 1].amount + CarryIn(s, min, i - 1);
      if a < min then a else 0.0
  }

  /** The amount of entry `i` once the carry has reached it. */
  function AmountAt(s: seq<Order>, min: real, i: nat): real
    requires i < |s|
  {
    s[i].amount + CarryIn(s, min, i)
  }

  /** The slice as `Denoise` leaves it: every entry with its carry added. */
  function Carried(s: seq<Order>, min: real): (c: seq<Order>)
    ensures |c| == |s|
    ensures forall i :: 0 <= i < |s| ==> c[i].price == s[i].price
  {
    seq(|s|, i requires 0 <= i < |s| => Order(s[i].price, AmountAt(s, min, i)))
  }

  /** The entries among the first `k` that `Denoise` keeps. */
  function Kept(s: seq<Order>, min: real, k: nat): seq<Order>
    requires k <= |s|
  {
    if k == 0 then []
    else Kept(s, min, k - 1) + (if AmountAt(s, min, k - 1) >= min then [Order(s[k - 1].price, AmountAt(s, min, k - 1))] else [])
  }

  function Denoised(s: seq<Order>, min: real): seq<Order>
  {
    Kept(s, min, |s|)
  }

  /** The entries of `s`, in order, whose amount is at least `min`. */
  function AtLeast(s: seq<Order>, min: real): seq<Order>
  {
    if s == [] then []
    else AtLeast(s[..|s| - 1], min) + (if s[|s| - 1].amount >= min then [s[|s| - 1]] else [])
  }

  lemma {:induction false} AtLeastFrom(s: seq<Order>, min: real, o: Order)
    requires o in AtLeast(s, min)
    ensures o in s && o.amount >= min
  {
    if s != [] {
      var last := if s[|s| - 1].amount >= min then [s[|s| - 1]] else [];
      if o in AtLeast(s[..|s| - 1], min) {
        AtLeastFrom(s[..|s| - 1], min, o);
      } else {
        assert o in last;
      }
    }
  }

  function TotalAmount(s: seq<Order>): real
  {
    if s == [] then 0.0 else TotalAmount(s[..|s| - 1]) + s[|s| - 1].amount
  }

  lemma CarryStep(s: seq<Order>, min: real, i: nat)
    requires i + 1 < |s|
    ensures AmountAt(s, min, i + 1) ==
      s[i + 1].amount + (if AmountAt(s, min, i) < min then AmountAt(s, min, i) else 0.0)
  {
  }

  lemma KeptStep(s: seq<Order>, min: real, i: nat)
    requires i < |s|
    ensures Kept(s, min, i + 1) ==
      Kept(s, min, i) + (if AmountAt(s, min, i) >= min then [Order(s[i].price, AmountAt(s, min, i))] else [])
  {
  }

  /** One ladder of `Denoise`: walks the slice, adds each entry below the
      minimum into the next one in place, and collects the others. */
  method DenoiseLadder(stack: array<Order>, min: real) returns (kept: seq<Order>)
    modifies stack
    ensures kept == Denoised(old(stack[..]), min)
    ensures stack[..] == Carried(old(stack[..]), min)
  {
    ghost var s := stack[..];
    var n := stack.Length;
    kept := [];
    var i := 0;
    while i < n
      invariant 0 <= i <= n
      invariant kept == Kept(s, min, i)
      invariant forall k :: 0 <= k < n ==> stack[k] == (if k <= i then Order(s[k].price, AmountAt(s, min, k)) else s[k])
    {
      var b := stack[i];
      KeptStep(s, min, i);
      if i + 1 < n {
        CarryStep(s, min, i);
      }
      if b.amount < min {
        if i + 1 < n {
          stack[i + 1] := stack[i + 1].(amount := stack[i + 1].amount + b.amount);
        }
      } else {
        kept := kept + [b];
      }
      i := i + 1;
    }
    assert stack[..] == Carried(s, min);
  }

  /** `Denoise`: both ladders with the pair's minimum trading amount; the
      result holds the kept entries and the input slices are left carried.
      When both sides share one array the ask pass sees the bid pass. */
  method Denoise(pair: Pair, bids: array<Order>, asks: array<Order>) returns (r: OrderBook)
    modifies bids, asks
    ensures var min := MinimumTradingAmount(pair);
      var asksIn := if bids == asks then Carried(old(bids[..]), min) else old(asks[..]);
      r == OrderBook(Denoised(old(bids[..]), min), Denoised(asksIn, min)) &&
      asks[..] == Carried(asksIn, min) &&
      (bids != asks ==> bids[..] == Carried(old(bids[..]), min))
  {
    var min := MinimumTradingAmount(pair);
    var b := DenoiseLadder(bids, min);
    var a := DenoiseLadder(asks, min);
    r := OrderBook(b, a);
  }

  lemma {:induction false} KeptIsAtLeast(s: seq<Order>, min: real, k: nat)
    requires k <= |s|
    ensures Kept(s, min, k) == AtLeast(Carried(s, min)[..k], min)
  {
    if k > 0 {
      KeptIsAtLeast(s, min, k - 1);
      var c := Carried(s, min);
      var ck := c[..k];
      var rest := if AmountAt(s, min, k - 1) >= min then [Order(s[k - 1].price, AmountAt(s, min, k - 1))] else [];
      assert ck[..k - 1] == c[..k - 1];
      assert ck[k - 1] == Order(s[k - 1].price, AmountAt(s, min, k - 1));
      assert Kept(s, min, k) == Kept(s, min, k - 1) + rest;
      assert AtLeast(ck, min) == AtLeast(c[..k - 1], min) + rest;
    }
  }

  lemma {:induction false} KeptTotal(s: seq<Order>, min: real, k: nat)
    requires k <= |s|
    ensures TotalAmount(Kept(s, min, k)) + CarryIn(s, min, k) == TotalAmount(s[..k])
  {
    if k > 0 {
      KeptTotal(s, min, k - 1);
      assert s[..k][..k - 1] == s[..k - 1];
      var rest := if AmountAt(s, min, k - 1) >= min then [Order(s[k - 1].price, AmountAt(s, min, k - 1))] else [];
      TotalAppend(Kept(s, min, k - 1), rest);
    }
  }

  lemma TotalAppend(s: seq<Order>, t: seq<Order>)
    requires |t| <= 1
    ensures TotalAmount(s + t) == TotalAmount(s) + TotalAmount(t)
  {
    if |t| == 1 {
      assert (s + t)[..|s + t| - 1] == s;
      assert t[..0] == [];
    } else {
      assert s + t == s;
    }
  }

  /** What `Denoise` does to a ladder: the kept entries are, in their
      original order, exactly the carried entries whose amount reaches the
      minimum; their prices are unchanged; and the ladder total is kept
      except for the dust still being carried past the last entry, which is
      either nothing or less than the minimum. */
  lemma DenoiseSpec(s: seq<Order>, min: real)
    ensures Denoised(s, min) == AtLeast(Carried(s, min), min)
    ensures forall o :: o in Denoised(s, min) ==> o.amount >= min
    ensures forall o :: o in Denoised(s, min) ==> exists i :: 0 <= i < |s| && o.price == s[i].price
    ensures TotalAmount(Denoised(s, min)) + CarryIn(s, min, |s|) == TotalAmount(s)
    ensures CarryIn(s, min, |s|) == 0.0 || CarryIn(s, min, |s|) < min
  {
    KeptIsAtLeast(s, min, |s|);
    assert Carried(s, min)[..|s|] == Carried(s, min);
    KeptTotal(s, min, |s|);
    assert s[..|s|] == s;
    forall o | o in Denoised(s, min)
      ensures o.amount >= min
      ensures exists i :: 0 <= i < |s| && o.price == s[i].price
    {
      var c := Carried(s, min);
      AtLeastFrom(c, min, o);
      var i :| 0 <= i < |c| && c[i] == o;
      assert o.price == s[i].price;
    }
  }

  /** With no dust at all, `Denoise` keeps the ladder unchanged. */
  lemma {:induction false} DenoiseClean(s: seq<Order>, min: real, k: nat)
    requires k <= |s|
    requires forall i :: 0 <= i < |s| ==> s[i].amount >= min
    ensures Kept(s, min, k) == s[..k]
    ensures CarryIn(s, min, k) == 0.0
  {
    if k > 0 {
      DenoiseClean(s, min, k - 1);
      assert s[..k] == s[..k - 1] + [s[k - 1]];
    }
  }

  // ---------------------------------------------------------------------
  // Time series

  /** `OrderBookTS.Sort`: chronological order, in place. */
  method SortSeries(obts: array<OrderBookT>)
    modifies obts
    ensures multiset(obts[..]) == multiset(old(obts[..]))
    ensures Chronological(obts[..])
  {
    ByKey(obts[..], Earlier, (o: OrderBookT) => o.time as real);
    SortSlice(obts, Earlier);
  }

  predicate Earlier(x: OrderBookT, y: OrderBookT) { x.time < y.time }

  predicate Chronological(s: seq<OrderBookT>)
  {
    forall i, j :: 0 <= i < j < |s| ==> s[i].time <= s[j].time
  }

  /** The length of the leading run of snapshots strictly before `t`. */
  function LeadingBefore(s: seq<OrderBookT>, t: int): (n: nat)
    ensures n <= |s|
    ensures forall k :: 0 <= k < n ==> s[k].time < t
    ensures n < |s| ==> s[n].time >= t
  {
    if |s| == 0 || s[0].time >= t then 0 else 1 + LeadingBefore(s[1..], t)
  }

  /** The book `GetOrderBook(t)` answers. */
  function BookAt(obts: seq<OrderBookT>, t: int): OrderBook
    requires |obts| > 0
  {
    var n := LeadingBefore(obts, t);
    if n == 0 then obts[0].ob else obts[n - 1].ob
  }

  /** `GetOrderBook(t)`: the book of the last snapshot of the leading run
      strictly before `t`, or the first book when the series starts at or
      after `t`. An empty series panics. */
  method GetOrderBook(obts: seq<OrderBookT>, t: int) returns (ob: OrderBook)
    requires |obts| > 0
    ensures ob == BookAt(obts, t)
    ensures obts[0].time >= t ==> ob == obts[0].ob
    ensures obts[0].time < t ==>
      exists j :: 0 <= j < |obts| && ob == obts[j].ob &&
        (forall i :: 0 <= i <= j ==> obts[i].time < t) &&
        (j + 1 < |obts| ==> obts[j + 1].time >= t)
  {
    ob := obts[0].ob;
    var i := 0;
    ghost var n := LeadingBefore(obts, t);
    while i < |obts|
      invariant 0 <= i <= n
      invariant i == 0 ==> ob == obts[0].ob
      invariant i > 0 ==> ob == obts[i - 1].ob
    {
      if t > obts[i].time {
        ob := obts[i].ob;
      } else {
        break;
      }
      i := i + 1;
    }
    assert i == n;
    if obts[0].time < t {
      assert ob == obts[i - 1].ob;
    }
  }

  /** On a chronological series that is the last snapshot strictly before
      `t`: every later snapshot is at or after `t`. */
  lemma GetOrderBookLast(obts: seq<OrderBookT>, t: int, j: int)
    requires Chronological(obts)
    requires 0 <= j < |obts| && obts[j].time < t && (j + 1 < |obts| ==> obts[j + 1].time >= t)
    ensures forall i :: 0 <= i < |obts| ==> (obts[i].time < t <==> i <= j)
  {
  }

  // ---------------------------------------------------------------------
  // Depth

  /** The cumulative amount of the first `k` levels. */
  function Depth(s: seq<Order>, k: nat): real
    requires k <= |s|
  {
    if k == 0 then 0.0 else Depth(s, k - 1) + s[k - 1].amount
  }

  /** The first level from `i` on at which the cumulative amount strictly
      exceeds `req`, or `|s|` when none does. */
  function Reach(req: real, s: seq<Order>, i: nat): (j: nat)
    requires i <= |s|
    ensures i <= j <= |s|
    decreases |s| - i
  {
    if i == |s| then |s| else if Depth(s, i + 1) > req then i else Reach(req, s, i + 1)
  }

  /** What `priceInAmount` answers for a request of `req` on ladder `s`. */
  function InAmount(req: real, s: seq<Order>): (r: (Fl, real))
    ensures r.0.R? <==> |s| > 0
  {
    if |s| == 0 then (NaN, 0.0)
    else
      var j := Reach(req, s, 0);
      if j < |s| then (R(s[j].price), Depth(s, j + 1)) else (R(s[|s| - 1].price), Depth(s, |s|))
  }

  /** `price` and `available` answer a request of `req` on ladder `s`:
      (NaN, 0) on an empty ladder; otherwise the price of the first level
      at which the cumulative amount strictly exceeds `req` and that
      cumulative amount, or, when no level does, the last price and the
      whole depth. */
  predicate Walked(req: real, s: seq<Order>, price: Fl, available: real)
  {
    (|s| == 0 ==> price == NaN && available == 0.0) &&
    (|s| > 0 && available > req ==>
      exists j :: 0 <= j < |s| && price == R(s[j].price) && available == Depth(s, j + 1) &&
        forall i :: 0 < i <= j ==> Depth(s, i) <= req) &&
    (|s| > 0 && available <= req ==>
      price == R(s[|s| - 1].price) && available == Depth(s, |s|) &&
      forall i :: 0 < i <= |s| ==> Depth(s, i) <= req)
  }

  /** `priceInAmount`: walks the ladder until the cumulative amount strictly
      exceeds the request; answers that level's price and the cumulative
      amount, or the last price and the whole depth; (NaN, 0) when empty. */
  method PriceInAmount(requiredAmount: real, stack: seq<Order>) returns (price: Fl, available: real)
    ensures (price, available) == InAmount(requiredAmount, stack)
    ensures Walked(requiredAmount, stack, price, available)
  {
    available := 0.0;
    if |stack| == 0 {
      price := NaN;
      return;
    }
    var i := 0;
    while i < |stack|
      invariant 0 <= i <= |stack|
      invariant available == Depth(stack, i)
      invariant forall k :: 0 < k <= i ==> Depth(stack, k) <= requiredAmount
      invariant Reach(requiredAmount, stack, 0) == Reach(requiredAmount, stack, i)
    {
      available := available + stack[i].amount;
      if available > requiredAmount {
        price := R(stack[i].price);
        return;
      }
      i := i + 1;
    }
    price := R(stack[|stack| - 1].price);
  }

  /** `BidIn`: the walk down the bids. */
  method BidIn(ob: OrderBook, size: real) returns (price: Fl, available: real)
    ensures (price, available) == InAmount(size, ob.bids)
    ensures Walked(size, ob.bids, price, available)
  {
    price, available := PriceInAmount(size, ob.bids);
  }

  /** `AskIn`: the walk up the asks. */
  method AskIn(ob: OrderBook, size: real) returns (price: Fl, available: real)
    ensures (price, available) == InAmount(size, ob.asks)
    ensures Walked(size, ob.asks, price, available)
  {
    price, available := PriceInAmount(size, ob.asks);
  }

  /** `PriceIn`: the bid-side and ask-side walks for one size. */
  method PriceIn(ob: OrderBook, size: real) returns (bid: Fl, ask: Fl, bidSize: real, askSize: real)
    ensures (bid, bidSize) == InAmount(size, ob.bids) && Walked(size, ob.bids, bid, bidSize)
    ensures (ask, askSize) == InAmount(size, ob.asks) && Walked(size, ob.asks, ask, askSize)
    ensures |ob.bids| == 0 <==> bid == NaN
    ensures |ob.asks| == 0 <==> ask == NaN
  {
    bid, bidSize := BidIn(ob, size);
    ask, askSize := AskIn(ob, size);
  }

  // ---------------------------------------------------------------------
  // Match

  /** A level a buy (`buy`) or a sell at `limit` may trade against. */
  predicate Eligible(o: Order, limit: real, buy: bool)
  {
    if buy then o.price <= limit else o.price >= limit
  }

  /** The amount filled after the first `k` levels, wanting `want`. */
  function Filled(levels: seq<Order>, want: real, limit: real, buy: bool, k: nat): real
    requires k <= |levels|
  {
    if k == 0 then 0.0
    else
      var f := Filled(levels, want, limit, buy, k - 1);
      if Eligible(levels[k - 1], limit, buy) then f + Min(want - f, levels[k - 1].amount) else f
  }

  /** The counter amount (price times amount) paid after `k` levels. */
  function Notional(levels: seq<Order>, want: real, limit: real, buy: bool, k: nat): real
    requires k <= |levels|
  {
    if k == 0 then 0.0
    else
      var n := Notional(levels, want, limit, buy, k - 1);
      var f := Filled(levels, want, limit, buy, k - 1);
      if Eligible(levels[k - 1], limit, buy) then n + Min(want - f, levels[k - 1].amount) * levels[k - 1].price else n
  }

  /** One more level of the sweep, spelled out. */
  lemma SweepStep(levels: seq<Order>, want: real, limit: real, buy: bool, k: nat)
    requires 0 < k <= |levels|
    ensures var f, n, o := Filled(levels, want, limit, buy, k - 1), Notional(levels, want, limit, buy, k - 1), levels[k - 1];
      var take := Min(want - f, o.amount);
      if Eligible(o, limit, buy) then
        Filled(levels, want, limit, buy, k) == f + take && Notional(levels, want, limit, buy, k) == n + take * o.price
      else
        Filled(levels, want, limit, buy, k) == f && Notional(levels, want, limit, buy, k) == n
  {
  }

  /** The outcome of `Match`: the average price and the signed filled
      amount, or (0, 0) without a fill. A positive amount buys from the
      asks, anything else sells to the bids. */
  function MatchSpec(ob: OrderBook, placed: Order): Order
  {
    if placed.amount > 0.0 then
      var f := Filled(ob.asks, placed.amount, placed.price, true, |ob.asks|);
      if f > 0.0 then Order(Notional(ob.asks, placed.amount, placed.price, true, |ob.asks|) / f, f)
      else Order(0.0, 0.0)
    else
      var f := Filled(ob.bids, -placed.amount, placed.price, false, |ob.bids|);
      if f > 0.0 then Order(Notional(ob.bids, -placed.amount, placed.price, false, |ob.bids|) / f, -f)
      else Order(0.0, 0.0)
  }

  /** One sweep of `Match` over a ladder: from each eligible level it takes
      the smaller of what is still wanted and what the level holds. */
  method Sweep(levels: seq<Order>, want: real, limit: real, buy: bool) returns (fill: real, counter: real)
    ensures fill == Filled(levels, want, limit, buy, |levels|)
    ensures counter == Notional(levels, want, limit, buy, |levels|)
  {
    counter := 0.0;
    fill := 0.0;
    for i := 0 to |levels|
      invariant fill == Filled(levels, want, limit, buy, i)
      invariant counter == Notional(levels, want, limit, buy, i)
    {
      SweepStep(levels, want, limit, buy, i + 1);
      var o := levels[i];
      if Eligible(o, limit, buy) {
        var take := Min(want - fill, o.amount);
        counter := counter + take * o.price;
        fill := fill + take;
      }
    }
  }

  /** `Match`: a positive amount sweeps the asks at or below its price, any
      other amount the bids at or above it. */
  method Match(ob: OrderBook, placed: Order) returns (r: Order)
    ensures r == MatchSpec(ob, placed)
  {
    if placed.amount > 0.0 {
      var fill, counter := Sweep(ob.asks, placed.amount, placed.price, true);
      if fill > 0.0 {
        r := Order(counter / fill, fill);
      } else {
        r := Order(0.0, 0.0);
      }
    } else {
      var fill, counter := Sweep(ob.bids, -placed.amount, placed.price, false);
      if fill > 0.0 {
        r := Order(counter / fill, -fill);
      } else {
        r := Order(0.0, 0.0);
      }
    }
  }

  predicate NonNegative(levels: seq<Order>)
  {
    forall i :: 0 <= i < |levels| ==> levels[i].amount >= 0.0
  }

  /** The amount of the eligible levels among the first `k`. */
  function EligibleDepth(levels: seq<Order>, limit: real, buy: bool, k: nat): real
    requires k <= |levels|
  {
    if k == 0 then 0.0
    else EligibleDepth(levels, limit, buy, k - 1) + (if Eligible(levels[k - 1], limit, buy) then levels[k - 1].amount else 0.0)
  }

  /** The sweep fills exactly the smaller of the wanted amount and the
      eligible depth. */
  lemma {:induction false} FilledIsMin(levels: seq<Order>, want: real, limit: real, buy: bool, k: nat)
    requires k <= |levels| && want >= 0.0 && NonNegative(levels)
    ensures Filled(levels, want, limit, buy, k) == Min(want, EligibleDepth(levels, limit, buy, k))
    ensures EligibleDepth(levels, limit, buy, k) >= 0.0
  {
    if k > 0 {
      FilledIsMin(levels, want, limit, buy, k - 1);
    }
  }

  lemma {:induction false} FilledRange(levels: seq<Order>, want: real, limit: real, buy: bool, k: nat)
    requires k <= |levels| && want >= 0.0 && NonNegative(levels)
    ensures 0.0 <= Filled(levels, want, limit, buy, k) <= want
  {
    if k > 0 {
      FilledRange(levels, want, limit, buy, k - 1);
    }
  }

  lemma StepUpper(n: real, f: real, take: real, p: real, hi: real)
    requires n <= hi * f && take >= 0.0 && (take > 0.0 ==> p <= hi)
    ensures n + take * p <= hi * (f + take)
  {
    if take > 0.0 {
      assert take * (hi - p) >= 0.0;
      assert hi * (f + take) == hi * f + take * hi;
    } else {
      assert take * p == 0.0 && hi * (f + take) == hi * f;
    }
  }

  lemma StepLower(n: real, f: real, take: real, p: real, lo: real)
    requires lo * f <= n && take >= 0.0 && (take > 0.0 ==> lo <= p)
    ensures lo * (f + take) <= n + take * p
  {
    if take > 0.0 {
      assert take * (p - lo) >= 0.0;
      assert lo * (f + take) == lo * f + take * lo;
    } else {
      assert take * p == 0.0 && lo * (f + take) == lo * f;
    }
  }

  /** Level `i` is one the sweep takes from: eligible, holding a positive
      amount, and reached while the eligible depth before it is still
      short of `want`. */
  predicate Touched(levels: seq<Order>, want: real, limit: real, buy: bool, i: nat)
    requires i < |levels|
  {
    Eligible(levels[i], limit, buy) && levels[i].amount > 0.0 && EligibleDepth(levels, limit, buy, i) < want
  }

  /** `n <= c * f`, the counter amount bounded by a price times the fill. */
  predicate AtMost(n: real, c: real, f: real) { n <= c * f }

  /** `c * f <= n`. */
  predicate AtLeastTimes(n: real, c: real, f: real) { c * f <= n }

  /** An eligible level the sweep does not touch contributes nothing. */
  lemma UntouchedTakesNothing(levels: seq<Order>, want: real, limit: real, buy: bool, i: nat)
    requires i < |levels| && want >= 0.0 && NonNegative(levels)
    requires Eligible(levels[i], limit, buy) && !Touched(levels, want, limit, buy, i)
    ensures Min(want - Filled(levels, want, limit, buy, i), levels[i].amount) == 0.0
  {
    FilledIsMin(levels, want, limit, buy, i);
  }

  /** The amount the sweep takes from level `k - 1`. */
  function Take(levels: seq<Order>, want: real, limit: real, buy: bool, k: nat): real
    requires 0 < k <= |levels|
  {
    if Eligible(levels[k - 1], limit, buy) then Min(want - Filled(levels, want, limit, buy, k - 1), levels[k - 1].amount)
    else 0.0
  }

  /** One level of `NotionalUpper`. */
  lemma UpperStep(levels: seq<Order>, want: real, limit: real, buy: bool, k: nat, hi: real)
    requires 0 < k <= |levels| && NonNegative(levels)
    requires Filled(levels, want, limit, buy, k - 1) <= want
    requires Take(levels, want, limit, buy, k) > 0.0 ==> levels[k - 1].price <= hi
    requires AtMost(Notional(levels, want, limit, buy, k - 1), hi, Filled(levels, want, limit, buy, k - 1))
    ensures AtMost(Notional(levels, want, limit, buy, k), hi, Filled(levels, want, limit, buy, k))
  {
    var o := levels[k - 1];
    if Eligible(o, limit, buy) {
      var f := Filled(levels, want, limit, buy, k - 1);
      var take := Min(want - f, o.amount);
      StepUpper(Notional(levels, want, limit, buy, k - 1), f, take, o.price, hi);
    }
  }

  /** One level of `NotionalLower`. */
  lemma LowerStep(levels: seq<Order>, want: real, limit: real, buy: bool, k: nat, lo: real)
    requires 0 < k <= |levels| && NonNegative(levels)
    requires Filled(levels, want, limit, buy, k - 1) <= want
    requires Take(levels, want, limit, buy, k) > 0.0 ==> lo <= levels[k - 1].price
    requires AtLeastTimes(Notional(levels, want, limit, buy, k - 1), lo, Filled(levels, want, limit, buy, k - 1))
    ensures AtLeastTimes(Notional(levels, want, limit, buy, k), lo, Filled(levels, want, limit, buy, k))
  {
    var o := levels[k - 1];
    if Eligible(o, limit, buy) {
      var f := Filled(levels, want, limit, buy, k - 1);
      var take := Min(want - f, o.amount);
      StepLower(Notional(levels, want, limit, buy, k - 1), f, take, o.price, lo);
    }
  }

  /** Only a touched level has a positive take. */
  lemma TakeTouched(levels: seq<Order>, want: real, limit: real, buy: bool, k: nat)
    requires 0 < k <= |levels| && want >= 0.0 && NonNegative(levels)
    ensures Take(levels, want, limit, buy, k) > 0.0 ==> Touched(levels, want, limit, buy, k - 1)
  {
    if Eligible(levels[k - 1], limit, buy) && !Touched(levels, want, limit, buy, k - 1) {
      UntouchedTakesNothing(levels, want, limit, buy, k - 1);
    }
  }

  /** The counter amount is at most the filled amount times any upper
      bound of the prices of the touched levels. */
  lemma {:induction false} NotionalUpper(levels: seq<Order>, want: real, limit: real, buy: bool, k: nat, hi: real)
    requires k <= |levels| && want >= 0.0 && NonNegative(levels)
    requires forall i :: 0 <= i < |levels| && Touched(levels, want, limit, buy, i) ==> levels[i].price <= hi
    ensures AtMost(Notional(levels, want, limit, buy, k), hi, Filled(levels, want, limit, buy, k))
  {
    if k > 0 {
      NotionalUpper(levels, want, limit, buy, k - 1, hi);
      FilledRange(levels, want, limit, buy, k - 1);
      TakeTouched(levels, want, limit, buy, k);
      UpperStep(levels, want, limit, buy, k, hi);
    }
  }

  /** The counter amount is at least the filled amount times any lower
      bound of the prices of the touched levels. */
  lemma {:induction false} NotionalLower(levels: seq<Order>, want: real, limit: real, buy: bool, k: nat, lo: real)
    requires k <= |levels| && want >= 0.0 && NonNegative(levels)
    requires forall i :: 0 <= i < |levels| && Touched(levels, want, limit, buy, i) ==> lo <= levels[i].price
    ensures AtLeastTimes(Notional(levels, want, limit, buy, k), lo, Filled(levels, want, limit, buy, k))
  {
    if k > 0 {
      NotionalLower(levels, want, limit, buy, k - 1, lo);
      FilledRange(levels, want, limit, buy, k - 1);
      TakeTouched(levels, want, limit, buy, k);
      LowerStep(levels, want, limit, buy, k, lo);
    }
  }

  lemma AverageUpper(n: real, f: real, hi: real)
    requires f > 0.0 && n <= hi * f
    ensures n / f <= hi
  {
    DivMul(hi, f);
    DivLe(n, hi * f, f);
  }

  lemma AverageLower(n: real, f: real, lo: real)
    requires f > 0.0 && lo * f <= n
    ensures lo <= n / f
  {
    DivMul(lo, f);
    DivLe(lo * f, n, f);
  }

  /** On one ladder: the average price of a positive fill lies within any
      bounds of the touched levels' prices. */
  lemma AverageInRange(levels: seq<Order>, want: real, limit: real, buy: bool, lo: real, hi: real)
    requires want >= 0.0 && NonNegative(levels)
    requires forall i :: 0 <= i < |levels| && Touched(levels, want, limit, buy, i) ==> lo <= levels[i].price <= hi
    ensures var f := Filled(levels, want, limit, buy, |levels|);
      f > 0.0 ==> lo <= Notional(levels, want, limit, buy, |levels|) / f <= hi
  {
    var f := Filled(levels, want, limit, buy, |levels|);
    var n := Notional(levels, want, limit, buy, |levels|);
    if f > 0.0 {
      NotionalUpper(levels, want, limit, buy, |levels|, hi);
      NotionalLower(levels, want, limit, buy, |levels|, lo);
      AverageUpper(n, f, hi);
      AverageLower(n, f, lo);
    }
  }

  /** On one ladder: the average price of a positive fill is within the
      limit, no more for a buy and no less for a sell. */
  lemma AverageWithinLimit(levels: seq<Order>, want: real, limit: real, buy: bool)
    requires want >= 0.0 && NonNegative(levels)
    ensures var f := Filled(levels, want, limit, buy, |levels|);
      f > 0.0 ==>
        var avg := Notional(levels, want, limit, buy, |levels|) / f;
        if buy then avg <= limit else avg >= limit
  {
    var f := Filled(levels, want, limit, buy, |levels|);
    var n := Notional(levels, want, limit, buy, |levels|);
    if f > 0.0 {
      if buy {
        NotionalUpper(levels, want, limit, buy, |levels|, limit);
        AverageUpper(n, f, limit);
      } else {
        NotionalLower(levels, want, limit, buy, |levels|, limit);
        AverageLower(n, f, limit);
      }
    }
  }

  /** What `Match` promises on ladders of non-negative amounts. A buy fills
      at most its amount, only from asks at or below its limit; a sell at
      most its absolute amount, only from bids at or above its limit; the
      sign of the fill is the side of the order; and a sweep that fills
      nothing answers (0, 0). */
  lemma MatchBounds(ob: OrderBook, placed: Order)
    requires NonNegative(ob.asks) && NonNegative(ob.bids)
    ensures var r := MatchSpec(ob, placed);
      (placed.amount > 0.0 ==> 0.0 <= r.amount <= placed.amount) &&
      (placed.amount <= 0.0 ==> placed.amount <= r.amount <= 0.0) &&
      (r.amount > 0.0 ==> placed.amount > 0.0 && r.price <= placed.price) &&
      (r.amount < 0.0 ==> placed.amount <= 0.0 && r.price >= placed.price) &&
      (r.amount == 0.0 ==> r == Order(0.0, 0.0))
  {
    if placed.amount > 0.0 {
      FilledIsMin(ob.asks, placed.amount, placed.price, true, |ob.asks|);
      AverageWithinLimit(ob.asks, placed.amount, placed.price, true);
    } else {
      FilledIsMin(ob.bids, -placed.amount, placed.price, false, |ob.bids|);
      AverageWithinLimit(ob.bids, -placed.amount, placed.price, false);
    }
  }

  /** The average fill price lies between any lower and any upper bound of
      the prices of the levels the sweep actually takes from. */
  lemma MatchPriceRange(ob: OrderBook, placed: Order, lo: real, hi: real)
    requires NonNegative(ob.asks) && NonNegative(ob.bids)
    requires var buy := placed.amount > 0.0;
      var side := if buy then ob.asks else ob.bids;
      var want := if buy then placed.amount else -placed.amount;
      forall i :: 0 <= i < |side| && Touched(side, want, placed.price, buy, i) ==> lo <= side[i].price <= hi
    ensures MatchSpec(ob, placed).amount != 0.0 ==> lo <= MatchSpec(ob, placed).price <= hi
  {
    if placed.amount > 0.0 {
      AverageInRange(ob.asks, placed.amount, placed.price, true, lo, hi);
    } else {
      AverageInRange(ob.bids, -placed.amount, placed.price, false, lo, hi);
    }
  }
}
