/**
 * `OrderBook1` of orderbook1.go: a mutable pair of price ladders that a
 * feed updates level by level. Insertion re-sorts the book; cancellation
 * and amount edits address the first level whose price matches exactly;
 * each operation reports whether the top of book was touched.
 *
 * The ladders are `seq` fields that the methods reassign; the mutex of the
 * source is left out (the model is single-threaded).
 */
module Ladders {
  import opened Num
  import Books

  type Order = Books.Order

  /** The index of the first level priced exactly `p`, or `|s|` when no
      level has that price. */
  function LevelIndex(s: seq<Order>, p: real): (i: nat)
    ensures i <= |s|
    ensures i < |s| ==> s[i].price == p
    ensures forall k :: 0 <= k < i ==> s[k].price != p
  {
    if s == [] then 0
    else if s[0].price == p then 0
    else 1 + LevelIndex(s[1..], p)
  }

  /** The ladder with its first level priced `p` spliced out. */
  function Removed(s: seq<Order>, p: real): seq<Order>
  {
    var i := LevelIndex(s, p);
    if i < |s| then s[..i] + s[i + 1..] else s
  }

  /** The ladder with the amount of its first level priced `o.price`
      overwritten by `o.amount`. */
  function Edited(s: seq<Order>, o: Order): seq<Order>
  {
    var i := LevelIndex(s, o.price);
    if i < |s| then s[i := s[i].(amount := o.amount)] else s
  }

  class OrderBook1 {
    var bids: seq<Order>
    var asks: seq<Order>

    /** Bids best-first descending, asks best-first ascending. */
    predicate Sorted()
      reads this
    {
      Books.Descending(bids) && Books.Ascending(asks)
    }

    /** `EmptyOrderBook`. */
    constructor Empty()
      ensures bids == [] && asks == []
      ensures Sorted()
    {
      bids := [];
      asks := [];
    }

    /** `NewOrderBook`: the given ladders, sorted (asks first). */
    constructor New(bids0: seq<Order>, asks0: seq<Order>)
      ensures multiset(bids) == multiset(bids0) && multiset(asks) == multiset(asks0)
      ensures Sorted()
    {
      var a := Books.SortedLadder(asks0, true);
      var b := Books.SortedLadder(bids0, false);
      bids := b;
      asks := a;
    }

    /** `Sort`: both ladders re-sorted; a ladder that is already in order
        with distinct prices comes back as it was. */
    method Sort()
      modifies this
      ensures multiset(bids) == multiset(old(bids)) && multiset(asks) == multiset(old(asks))
      ensures Sorted()
      ensures old(Books.Descending(bids) && Books.DistinctPrices(bids)) ==> bids == old(bids)
      ensures old(Books.Ascending(asks) && Books.DistinctPrices(asks)) ==> asks == old(asks)
    {
      var a := Books.SortedLadder(asks, true);
      var b := Books.SortedLadder(bids, false);
      if Books.Ascending(asks) && Books.DistinctPrices(asks) {
        Books.SortedUnique(asks, a, true);
      }
      if Books.Descending(bids) && Books.DistinctPrices(bids) {
        Books.SortedUnique(bids, b, false);
      }
      asks := a;
      bids := b;
    }

    /** `InsertBid`: appends the level and re-sorts the book; reports
        whether the new price is the best bid, which is exactly when no
        earlier bid was higher. */
    method InsertBid(order: Order) returns (tob: bool)
      modifies this
      ensures multiset(bids) == multiset(old(bids)) + multiset{order}
      ensures multiset(asks) == multiset(old(asks))
      ensures Sorted()
      ensures old(Books.Ascending(asks) && Books.DistinctPrices(asks)) ==> asks == old(asks)
      ensures |bids| > 0 && (tob <==> order.price == bids[0].price)
      ensures tob <==> forall o :: o in old(bids) ==> o.price <= order.price
    {
      ghost var before := bids;
      bids := bids + [order];
      Sort();
      tob := order.price == bids[0].price;
      BidOnTop(before, bids, order);
    }

    /** `InsertAsk`: appends the level and re-sorts the book; reports
        whether the new price is the best ask, which is exactly when no
        earlier ask was lower. */
    method InsertAsk(order: Order) returns (tob: bool)
      modifies this
      ensures multiset(asks) == multiset(old(asks)) + multiset{order}
      ensures multiset(bids) == multiset(old(bids))
      ensures Sorted()
      ensures old(Books.Descending(bids) && Books.DistinctPrices(bids)) ==> bids == old(bids)
      ensures |asks| > 0 && (tob <==> order.price == asks[0].price)
      ensures tob <==> forall o :: o in old(asks) ==> o.price >= order.price
    {
      ghost var before := asks;
      asks := asks + [order];
      Sort();
      tob := order.price == asks[0].price;
      AskOnTop(before, asks, order);
    }

    /** `CancelBid`: splices out the first bid priced exactly like
        `order`; reports whether that was the top level. */
    method CancelBid(order: Order) returns (tob: bool)
      modifies this
      ensures bids == Removed(old(bids), order.price)
      ensures asks == old(asks)
      ensures tob <==> |old(bids)| > 0 && old(bids)[0].price == order.price
    {
      tob := false;
      var i := 0;
      while i < |bids|
        invariant 0 <= i <= |bids| && bids == old(bids) && !tob
        invariant forall k :: 0 <= k < i ==> bids[k].price != order.price
      {
        if bids[i].price == order.price {
          assert LevelIndex(bids, order.price) == i;
          bids := bids[..i] + bids[i + 1..];
          if i == 0 {
            tob := true;
          }
          return;
        }
        i := i + 1;
      }
      assert LevelIndex(bids, order.price) == |bids|;
    }

    /** `CancelAsk`: splices out the first ask priced exactly like
        `order`; reports whether that was the top level. */
    method CancelAsk(order: Order) returns (tob: bool)
      modifies this
      ensures asks == Removed(old(asks), order.price)
      ensures bids == old(bids)
      ensures tob <==> |old(asks)| > 0 && old(asks)[0].price == order.price
    {
      tob := false;
      var i := 0;
      while i < |asks|
        invariant 0 <= i <= |asks| && asks == old(asks) && !tob
        invariant forall k :: 0 <= k < i ==> asks[k].price != order.price
      {
        if asks[i].price == order.price {
          assert LevelIndex(asks, order.price) == i;
          asks := asks[..i] + asks[i + 1..];
          if i == 0 {
            tob := true;
          }
          return;
        }
        i := i + 1;
      }
      assert LevelIndex(asks, order.price) == |asks|;
    }

    /** `EditBid`: overwrites the amount of the first bid priced exactly
        like `order`; never reports a top-of-book change. */
    method EditBid(order: Order) returns (tob: bool)
      modifies this
      ensures bids == Edited(old(bids), order)
      ensures asks == old(asks)
      ensures !tob
    {
      tob := false;
      var i := 0;
      while i < |bids|
        invariant 0 <= i <= |bids| && bids == old(bids)
        invariant forall k :: 0 <= k < i ==> bids[k].price != order.price
      {
        if bids[i].price == order.price {
          assert LevelIndex(bids, order.price) == i;
          bids := bids[i := bids[i].(amount := order.amount)];
          return;
        }
        i := i + 1;
      }
      assert LevelIndex(bids, order.price) == |bids|;
    }

    /** `EditAsk`: overwrites the amount of the first ask priced exactly
        like `order`; never reports a top-of-book change. */
    method EditAsk(order: Order) returns (tob: bool)
      modifies this
      ensures asks == Edited(old(asks), order)
      ensures bids == old(bids)
      ensures !tob
    {
      tob := false;
      var i := 0;
      while i < |asks|
        invariant 0 <= i <= |asks| && asks == old(asks)
        invariant forall k :: 0 <= k < i ==> asks[k].price != order.price
      {
        if asks[i].price == order.price {
          assert LevelIndex(asks, order.price) == i;
          asks := asks[i := asks[i].(amount := order.amount)];
          return;
        }
        i := i + 1;
      }
      assert LevelIndex(asks, order.price) == |asks|;
    }
  }

  /** `BestBid` on a possibly nil book: the top bid, else `{NaN, 0}`. */
  function BestBid(ob: OrderBook1?): (q: Books.Quote)
    reads ob
    ensures q.price.NaN? <==> ob == null || |ob.bids| == 0  // orderbook.go's bid sentinel is 0/99
    ensures q.price.NaN? ==> q.amount == 0.0
    ensures q.price.R? ==> Books.Order(q.price.r, q.amount) == ob.bids[0]
  {
    if ob != null && |ob.bids| > 0 then Books.Quote(R(ob.bids[0].price), ob.bids[0].amount)
    else Books.Quote(NaN, 0.0)
  }

  /** `BestAsk` on a possibly nil book: the top ask, else `{NaN, 0}`. */
  function BestAsk(ob: OrderBook1?): (q: Books.Quote)
    reads ob
    ensures q.price.NaN? <==> ob == null || |ob.asks| == 0
    ensures q.price.NaN? ==> q.amount == 0.0
    ensures q.price.R? ==> Books.Order(q.price.r, q.amount) == ob.asks[0]
  {
    if ob != null && |ob.asks| > 0 then Books.Quote(R(ob.asks[0].price), ob.asks[0].amount)
    else Books.Quote(NaN, 0.0)
  }

  /** On a sorted book the best bid and ask bound every level of their
      ladders. */
  lemma BestIsExtreme(bids: seq<Order>, asks: seq<Order>)
    requires Books.Descending(bids) && Books.Ascending(asks)
    ensures forall o :: o in bids ==> o.price <= bids[0].price
    ensures forall o :: o in asks ==> o.price >= asks[0].price
  {
    Books.BestIsExtreme(Books.OrderBook(bids, asks));
  }

  /** After inserting `order` into a bid ladder and sorting it, the new
      level is on top exactly when no earlier bid was higher. */
  lemma BidOnTop(before: seq<Order>, s: seq<Order>, order: Order)
    requires multiset(s) == multiset(before) + multiset{order}
    requires Books.Descending(s)
    ensures |s| > 0
    ensures order.price == s[0].price <==> forall o :: o in before ==> o.price <= order.price
  {
    assert order in multiset(s);
    assert |s| > 0;
    Books.BestIsExtreme(Books.OrderBook(s, []));
    assert s[0] in multiset(s);
    if forall o :: o in before ==> o.price <= order.price {
      if s[0] != order {
        assert s[0] in multiset(before);
        assert s[0] in before;
      }
    }
    if order.price == s[0].price {
      forall o | o in before
        ensures o.price <= order.price
      {
        assert o in multiset(s);
      }
    }
  }

  /** After inserting `order` into an ask ladder and sorting it, the new
      level is on top exactly when no earlier ask was lower. */
  lemma AskOnTop(before: seq<Order>, s: seq<Order>, order: Order)
    requires multiset(s) == multiset(before) + multiset{order}
    requires Books.Ascending(s)
    ensures |s| > 0
    ensures order.price == s[0].price <==> forall o :: o in before ==> o.price >= order.price
  {
    assert order in multiset(s);
    assert |s| > 0;
    Books.BestIsExtreme(Books.OrderBook([], s));
    assert s[0] in multiset(s);
    if forall o :: o in before ==> o.price >= order.price {
      if s[0] != order {
        assert s[0] in multiset(before);
        assert s[0] in before;
      }
    }
    if order.price == s[0].price {
      forall o | o in before
        ensures o.price >= order.price
      {
        assert o in multiset(s);
      }
    }
  }

  /** Some level has price `p` exactly when `LevelIndex` finds one. */
  lemma LevelFound(s: seq<Order>, p: real)
    ensures (exists k :: 0 <= k < |s| && s[k].price == p) <==> LevelIndex(s, p) < |s|
  {
    if LevelIndex(s, p) < |s| {
      assert s[LevelIndex(s, p)].price == p;
    }
  }

  /** A cancel takes out exactly one level, the first one at that price,
      or nothing when no level has the price. */
  lemma RemovedSpec(s: seq<Order>, p: real)
    ensures (exists k :: 0 <= k < |s| && s[k].price == p) <==> |Removed(s, p)| == |s| - 1
    ensures (forall k :: 0 <= k < |s| ==> s[k].price != p) ==> Removed(s, p) == s
    ensures var i := LevelIndex(s, p);
      i < |s| ==> multiset(Removed(s, p)) + multiset{s[i]} == multiset(s)
  {
    LevelFound(s, p);
    var i := LevelIndex(s, p);
    if i < |s| {
      SpliceMultiset(s, i);
    } else {
      assert Removed(s, p) == s;
    }
  }

  lemma SpliceMultiset(s: seq<Order>, i: nat)
    requires i < |s|
    ensures |s[..i] + s[i + 1..]| == |s| - 1
    ensures multiset(s[..i] + s[i + 1..]) + multiset{s[i]} == multiset(s)
  {
    assert s == s[..i] + [s[i]] + s[i + 1..];
  }

  /** Splicing out a level keeps a ladder in order. */
  lemma RemovedKeepsOrder(s: seq<Order>, p: real)
    ensures Books.Descending(s) ==> Books.Descending(Removed(s, p))
    ensures Books.Ascending(s) ==> Books.Ascending(Removed(s, p))
  {
    var i := LevelIndex(s, p);
    if i < |s| {
      assert Removed(s, p) == s[..i] + s[i + 1..];
      SpliceOrder(s, i);
    } else {
      assert Removed(s, p) == s;
    }
  }

  lemma SpliceOrder(s: seq<Order>, i: nat)
    requires i < |s|
    ensures Books.Descending(s) ==> Books.Descending(s[..i] + s[i + 1..])
    ensures Books.Ascending(s) ==> Books.Ascending(s[..i] + s[i + 1..])
  {
    var r := s[..i] + s[i + 1..];
    assert forall k :: 0 <= k < |r| ==> r[k] == s[if k < i then k else k + 1];
  }

  /** An edit changes one amount at most and no price, so it keeps the
      ladder's length, prices and order. */
  lemma EditedSpec(s: seq<Order>, o: Order)
    ensures |Edited(s, o)| == |s|
    ensures forall k :: 0 <= k < |s| ==> Edited(s, o)[k].price == s[k].price
    ensures forall k :: 0 <= k < |s| && k != LevelIndex(s, o.price) ==> Edited(s, o)[k] == s[k]
    ensures LevelIndex(s, o.price) < |s| ==> Edited(s, o)[LevelIndex(s, o.price)].amount == o.amount
    ensures Books.Descending(s) ==> Books.Descending(Edited(s, o))
    ensures Books.Ascending(s) ==> Books.Ascending(Edited(s, o))
  {
  }
}
