/**
 * The book helpers of OrderBook.go, a second copy of the exchange order
 * book next to orderbook.go: the validity and emptiness predicates, the
 * mid price, `Denoise` and `Sort`. The bodies of `Denoise` and `Sort` are
 * line for line those of orderbook.go, so the methods here run the ladder
 * walks of module Books and state what they promise for this copy.
 */
module PlainBooks {
  import opened Wrappers
  import opened Num
  import Books
  import Pairs

  /** `IsOrderBookInValid`: one side or both are empty. */
  predicate IsOrderBookInValid(ob: Books.OrderBook)
  {
    |ob.bids| == 0 || |ob.asks| == 0
  }

  /** `IsOrderBookEmpty`: both sides are empty. */
  predicate IsOrderBookEmpty(ob: Books.OrderBook)
  {
    |ob.bids| == 0 && |ob.asks| == 0
  }

  /** `Mid`: NaN on an invalid book, else the average of the top prices. */
  function Mid(ob: Books.OrderBook): (m: Fl)
    ensures m.NaN? <==> IsOrderBookInValid(ob)
  {
    if IsOrderBookInValid(ob) then NaN
    else R((ob.bids[0].price + ob.asks[0].price) / 2.0)
  }

  /** Invalid is the negation of orderbook.go's `Valid`; an empty book is
      invalid, while a one-sided book is invalid without being empty. */
  lemma Predicates(ob: Books.OrderBook)
    ensures IsOrderBookInValid(ob) <==> !Books.Valid(ob)
    ensures IsOrderBookEmpty(ob) ==> IsOrderBookInValid(ob)
    ensures IsOrderBookInValid(ob) && !IsOrderBookEmpty(ob) <==>
      (|ob.bids| == 0) != (|ob.asks| == 0)
  {
  }

  /** The two copies of the mid agree, and on an uncrossed book the mid
      lies between the best bid and the best ask. */
  lemma MidAgrees(ob: Books.OrderBook)
    ensures Mid(ob) == Books.Mid(Some(ob))
    ensures Mid(ob).R? && ob.bids[0].price <= ob.asks[0].price ==>
      ob.bids[0].price <= Mid(ob).r <= ob.asks[0].price
  {
  }

  /** `Denoise(pair, ob)`: each result side keeps, in order, the carried
      entries reaching the pair's minimum trading amount, every one of them
      at least that minimum; on separate bid and ask slices each side total
      is kept but for a last carry smaller than the minimum, and the input
      slices are left carried. When both sides share one slice the ask pass
      sees the bid pass. OrderBook.go's copy behaves exactly as orderbook.go's,
      so the walk is `Books.Denoise`, defined once. */
  method Denoise(pair: Pairs.Pair, bids: array<Books.Order>, asks: array<Books.Order>) returns (r: Books.OrderBook)
    modifies bids, asks
    ensures var min := Pairs.MinimumTradingAmount(pair);
      var asksIn := if bids == asks then Books.Carried(old(bids[..]), min) else old(asks[..]);
      r.bids == Books.AtLeast(Books.Carried(old(bids[..]), min), min) &&
      r.asks == Books.AtLeast(Books.Carried(asksIn, min), min) &&
      asks[..] == Books.Carried(asksIn, min)
    ensures var min := Pairs.MinimumTradingAmount(pair);
      (forall o :: o in r.bids ==> o.amount >= min) && (forall o :: o in r.asks ==> o.amount >= min)
    ensures var min := Pairs.MinimumTradingAmount(pair);
      bids != asks ==>
        bids[..] == Books.Carried(old(bids[..]), min) &&
        Books.TotalAmount(r.bids) + Books.CarryIn(old(bids[..]), min, bids.Length) == Books.TotalAmount(old(bids[..])) &&
        Books.TotalAmount(r.asks) + Books.CarryIn(old(asks[..]), min, asks.Length) == Books.TotalAmount(old(asks[..]))
  {
    ghost var b0, a0 := bids[..], asks[..];
    ghost var min := Pairs.MinimumTradingAmount(pair);
    ghost var asksIn := if bids == asks then Books.Carried(b0, min) else a0;
    r := Books.Denoise(pair, bids, asks);
    Books.DenoiseSpec(b0, min);
    Books.DenoiseSpec(asksIn, min);
  }

  /** `OrderBook.Sort`: the asks ascending, then the bids descending by
      price, each a permutation of itself, in place; when both sides share
      one slice the bid order is what remains. The sort is orderbook.go's,
      defined once as `Books.Sort`. */
  method Sort(bids: array<Books.Order>, asks: array<Books.Order>)
    modifies bids, asks
    ensures multiset(bids[..]) == multiset(old(bids[..])) && Books.Descending(bids[..])
    ensures multiset(asks[..]) == multiset(old(asks[..]))
    ensures bids != asks ==> Books.Ascending(asks[..])
  {
    Books.Sort(bids, asks);
  }
}
