/**
 * The order-scan strategy of strats/orderscan.go. It keeps, per side, the
 * large orders of the book it has seen tick after tick ("static" orders,
 * with the number of ticks each has stayed) and trades just ahead of an
 * old static order near its own trading price.
 *
 * `mergeOrders` walks the known static orders with one scan position while it
 * goes through the new ladder of the book; the ladder is ascending for
 * asks and descending for bids, and `Ahead(asc, p, q)` says that price `p`
 * comes before `q` in the ladder's direction.
 *
 * What `Grind` asks of the exchange (the book, its own orders, its
 * position) it receives as parameters.
 */
module OrderScans {
  import opened Wrappers
  import opened Num
  import opened Pairs
  import Books
  import Strat
  import Cancels

  /** `orderAge`: a static order and the ticks it has stayed. */
  datatype OrderAge = OrderAge(price: real, amount: real, age: int)

  /** `p` comes strictly before `q` along a ladder. */
  predicate Ahead(asc: bool, p: real, q: real)
  {
    if asc then p < q else p > q
  }

  /** Static orders strictly in ladder order. */
  predicate Ordered(asc: bool, st: seq<OrderAge>)
  {
    forall i, j :: 0 <= i < j < |st| ==> Ahead(asc, st[i].price, st[j].price)
  }

  /** A ladder strictly in its order. */
  predicate Strict(asc: bool, os: seq<Books.Order>)
  {
    forall i, j :: 0 <= i < j < |os| ==> Ahead(asc, os[i].price, os[j].price)
  }

  /** A ladder in its order, equal prices allowed. */
  predicate Sorted(asc: bool, os: seq<Books.Order>)
  {
    forall i, j :: 0 <= i < j < |os| ==> !Ahead(asc, os[j].price, os[i].price)
  }

  // ---------------------------------------------------------------------
  // mergeOrders

  /** The scan position after one inner scan: from `soi`, past every static
      order ahead of `p`. */
  function Advance(asc: bool, st: seq<OrderAge>, soi: nat, p: real): (r: nat)
    requires soi <= |st|
    ensures soi <= r <= |st|
    ensures forall k :: soi <= k < r ==> Ahead(asc, st[k].price, p)
    ensures r < |st| ==> !Ahead(asc, st[r].price, p)
    decreases |st| - soi
  {
    if soi < |st| && Ahead(asc, st[soi].price, p) then Advance(asc, st, soi + 1, p) else soi
  }

  /** A kept new order: one tick older than the static order under the
      scan position when that has the same price, else new (age 1). */
  function Tagged(st: seq<OrderAge>, soi: nat, n: Books.Order): OrderAge
  {
    OrderAge(n.price, n.amount, if soi < |st| && st[soi].price == n.price then st[soi].age + 1 else 1)
  }

  /** The scan position after the first scan, past the static orders ahead of
      the first new order. */
  function Start(asc: bool, st: seq<OrderAge>, news: seq<Books.Order>): (r: nat)
    requires |st| > 0 ==> |news| > 0
    ensures r <= |st|
  {
    if |st| > 0 then Advance(asc, st, 0, news[0].price) else 0
  }

  /** The kept orders and the scan position after the first `i` new orders. */
  function ScanTo(asc: bool, thr: real, st: seq<OrderAge>, news: seq<Books.Order>, i: nat): (r: (seq<OrderAge>, nat))
    requires |st| > 0 ==> |news| > 0
    requires i <= |news|
    ensures r.1 <= |st| && |r.0| <= i
    ensures i > 0 && r.1 < |st| ==> !Ahead(asc, st[r.1].price, news[i - 1].price)
  {
    if i == 0 then ([], Start(asc, st, news))
    else
      var prev := ScanTo(asc, thr, st, news, i - 1);
      var soi := Advance(asc, st, prev.1, news[i - 1].price);
      (prev.0 + (if news[i - 1].amount > thr then [Tagged(st, soi, news[i - 1])] else []), soi)
  }

  function Scanned(asc: bool, thr: real, st: seq<OrderAge>, news: seq<Books.Order>): (seq<OrderAge>, nat)
    requires |st| > 0 ==> |news| > 0
  {
    ScanTo(asc, thr, st, news, |news|)
  }

  /** `mergeOrders` as written: the kept new orders, then every static
      order from the final scan position on. */
  function Merged(asc: bool, thr: real, st: seq<OrderAge>, news: seq<Books.Order>): seq<OrderAge>
    requires |st| > 0 ==> |news| > 0
  {
    var sc := Scanned(asc, thr, st, news);
    sc.0 + st[sc.1..]
  }

  /** The scan position moved past the static orders priced exactly `p`. */
  function SkipPrice(st: seq<OrderAge>, e: nat, p: real): (r: nat)
    requires e <= |st|
    ensures e <= r <= |st|
    ensures forall k :: e <= k < r ==> st[k].price == p
    ensures r < |st| ==> st[r].price != p
    decreases |st| - e
  {
    if e < |st| && st[e].price == p then SkipPrice(st, e + 1, p) else e
  }

  /** `mergeOrders` corrected: the static orders kept at the end are
      those strictly beyond the last new order, so a static order the
      last new order matched is not kept a second time. */
  function MergedFixed(asc: bool, thr: real, st: seq<OrderAge>, news: seq<Books.Order>): seq<OrderAge>
    requires |st| > 0 ==> |news| > 0
  {
    var sc := Scanned(asc, thr, st, news);
    var e := if news == [] then sc.1 else SkipPrice(st, sc.1, news[|news| - 1].price);
    sc.0 + st[e..]
  }

  /** The new orders above the threshold, in ladder order. */
  function Kept(news: seq<Books.Order>, thr: real): (r: seq<Books.Order>)
    ensures |r| <= |news|
  {
    if news == [] then []
    else Kept(news[..|news| - 1], thr) + (if news[|news| - 1].amount > thr then [news[|news| - 1]] else [])
  }

  /** Every kept order is one of the new orders, above the threshold. */
  lemma {:induction false} KeptFrom(news: seq<Books.Order>, thr: real)
    ensures forall o :: o in Kept(news, thr) ==> o in news && o.amount > thr
  {
    if news != [] {
      var init := news[..|news| - 1];
      KeptFrom(init, thr);
      assert forall o :: o in init ==> o in news;
    }
  }

  /** An order of the book a static order records. */
  function Strip(os: seq<OrderAge>): (r: seq<Books.Order>)
    ensures |r| == |os|
    ensures forall k :: 0 <= k < |os| ==> r[k] == Books.Order(os[k].price, os[k].amount)
  {
    seq(|os|, k requires 0 <= k < |os| => Books.Order(os[k].price, os[k].amount))
  }

  /** The scan of `mergeOrders`: the first scan, then one inner scan and
      at most one kept order per new order. */
  method Scan(asc: bool, thr: real, st: seq<OrderAge>, news: seq<Books.Order>) returns (kept: seq<OrderAge>, soi: nat)
    requires |st| > 0 ==> |news| > 0
    ensures (kept, soi) == Scanned(asc, thr, st, news)
  {
    kept, soi := [], 0;
    if |st| > 0 {
      soi := Skip(asc, st, soi, news[0].price);
    }
    for i := 0 to |news|
      invariant kept == ScanTo(asc, thr, st, news, i).0 && soi == ScanTo(asc, thr, st, news, i).1
    {
      soi := Skip(asc, st, soi, news[i].price);
      assert ScanTo(asc, thr, st, news, i + 1) ==
        (kept + (if news[i].amount > thr then [Tagged(st, soi, news[i])] else []), soi);
      if news[i].amount > thr {
        if soi < |st| && st[soi].price == news[i].price {
          kept := kept + [OrderAge(news[i].price, news[i].amount, st[soi].age + 1)];
        } else {
          kept := kept + [OrderAge(news[i].price, news[i].amount, 1)];
        }
      }
    }
  }

  /** One scan loop of `mergeOrders`: the position moves past every
      static order ahead of `p`. */
  method Skip(asc: bool, st: seq<OrderAge>, from: nat, p: real) returns (soi: nat)
    requires from <= |st|
    ensures soi == Advance(asc, st, from, p)
  {
    soi := from;
    while soi < |st| && Ahead(asc, st[soi].price, p)
      invariant from <= soi <= |st| && Advance(asc, st, from, p) == Advance(asc, st, soi, p)
      decreases |st| - soi
    {
      soi := soi + 1;
    }
  }

  /** `mergeOrders` as written. The source indexes the first new order
      whenever there are static orders. */
  method MergeOrders(asc: bool, thr: real, st: seq<OrderAge>, news: seq<Books.Order>) returns (merged: seq<OrderAge>)
    requires |st| > 0 ==> |news| > 0
    ensures merged == Merged(asc, thr, st, news)
  {
    var soi;
    merged, soi := Scan(asc, thr, st, news);
    merged := AppendFrom(merged, st, soi);
  }

  /** The last loop of `mergeOrders`: the static orders from `e` on. */
  method AppendFrom(kept: seq<OrderAge>, st: seq<OrderAge>, e: nat) returns (merged: seq<OrderAge>)
    requires e <= |st|
    ensures merged == kept + st[e..]
  {
    merged := kept;
    for k := e to |st|
      invariant merged == kept + st[e..k]
    {
      assert st[e..k + 1] == st[e..k] + [st[k]];
      merged := merged + [st[k]];
    }
    assert st[e..|st|] == st[e..];
  }

  /** The correction's loop: the position moved past the static orders
      priced exactly `p`. */
  method SkipSame(st: seq<OrderAge>, from: nat, p: real) returns (soi: nat)
    requires from <= |st|
    ensures soi == SkipPrice(st, from, p)
  {
    soi := from;
    while soi < |st| && st[soi].price == p
      invariant from <= soi <= |st|
      invariant SkipPrice(st, from, p) == SkipPrice(st, soi, p)
      decreases |st| - soi
    {
      soi := soi + 1;
    }
  }

  /** `mergeOrders` with the correction of `MergedFixed`. */
  method MergeOrdersFixed(asc: bool, thr: real, st: seq<OrderAge>, news: seq<Books.Order>) returns (merged: seq<OrderAge>)
    requires |st| > 0 ==> |news| > 0
    ensures merged == MergedFixed(asc, thr, st, news)
  {
    var soi;
    merged, soi := Scan(asc, thr, st, news);
    if |news| > 0 {
      soi := SkipSame(st, soi, news[|news| - 1].price);
    }
    merged := AppendFrom(merged, st, soi);
  }

  /** The kept part is exactly the new orders above the threshold, in
      their order. */
  lemma {:induction false} ScanKeeps(asc: bool, thr: real, st: seq<OrderAge>, news: seq<Books.Order>, i: nat)
    requires |st| > 0 ==> |news| > 0
    requires i <= |news|
    ensures Strip(ScanTo(asc, thr, st, news, i).0) == Kept(news[..i], thr)
  {
    if i > 0 {
      ScanKeeps(asc, thr, st, news, i - 1);
      KeptSnoc(news, i, thr);
      ScanToSnoc(asc, thr, st, news, i);
    } else {
      assert news[..0] == [] && Strip([]) == [];
    }
  }

  /** `ScanTo` one new order further on, with the kept part stripped. */
  lemma ScanToSnoc(asc: bool, thr: real, st: seq<OrderAge>, news: seq<Books.Order>, i: nat)
    requires |st| > 0 ==> |news| > 0
    requires 0 < i <= |news|
    ensures Strip(ScanTo(asc, thr, st, news, i).0) ==
      Strip(ScanTo(asc, thr, st, news, i - 1).0) + (if news[i - 1].amount > thr then [news[i - 1]] else [])
  {
    var prev := ScanTo(asc, thr, st, news, i - 1);
    var soi := Advance(asc, st, prev.1, news[i - 1].price);
    if news[i - 1].amount > thr {
      StripSnoc(prev.0, Tagged(st, soi, news[i - 1]));
    }
  }

  lemma KeptSnoc(news: seq<Books.Order>, i: nat, thr: real)
    requires 0 < i <= |news|
    ensures Kept(news[..i], thr) == Kept(news[..i - 1], thr) + (if news[i - 1].amount > thr then [news[i - 1]] else [])
  {
    var n := news[..i];
    assert n[..|n| - 1] == news[..i - 1] && n[|n| - 1] == news[i - 1];
  }

  lemma StripSnoc(os: seq<OrderAge>, o: OrderAge)
    ensures Strip(os + [o]) == Strip(os) + [Books.Order(o.price, o.amount)]
  {
    assert forall k :: 0 <= k < |os| ==> (os + [o])[k] == os[k];
  }

  /** New (age 1), or one tick older than a static order at its price. */
  predicate AgedFrom(o: OrderAge, st: seq<OrderAge>)
  {
    o.age == 1 || exists j :: 0 <= j < |st| && st[j].price == o.price && o.age == st[j].age + 1
  }

  /** Every kept order is new or one tick older than a static order at
      its price. */
  lemma {:induction false} ScanAges(asc: bool, thr: real, st: seq<OrderAge>, news: seq<Books.Order>, i: nat)
    requires |st| > 0 ==> |news| > 0
    requires i <= |news|
    ensures forall o :: o in ScanTo(asc, thr, st, news, i).0 ==> AgedFrom(o, st)
  {
    if i > 0 {
      ScanAges(asc, thr, st, news, i - 1);
      var prev := ScanTo(asc, thr, st, news, i - 1);
      var soi := Advance(asc, st, prev.1, news[i - 1].price);
      assert AgedFrom(Tagged(st, soi, news[i - 1]), st);
    }
  }

  /** At most one entry per new order and per static order. */
  lemma MergedLength(asc: bool, thr: real, st: seq<OrderAge>, news: seq<Books.Order>)
    requires |st| > 0 ==> |news| > 0
    ensures |Merged(asc, thr, st, news)| <= |news| + |st|
    ensures |MergedFixed(asc, thr, st, news)| <= |Merged(asc, thr, st, news)|
  {
  }

  /** From 0, the scan for `q` passes the first `s` static orders when
      they are all ahead of `q`. */
  lemma {:induction false} AdvanceSkip(asc: bool, st: seq<OrderAge>, s: nat, q: real)
    requires s <= |st|
    requires forall k :: 0 <= k < s ==> Ahead(asc, st[k].price, q)
    ensures Advance(asc, st, 0, q) == Advance(asc, st, s, q)
  {
    if s > 0 {
      AdvanceSkip(asc, st, s - 1, q);
    }
  }

  lemma AheadTrans(asc: bool, p: real, q: real, r: real)
    requires Ahead(asc, p, q) && !Ahead(asc, r, q)
    ensures Ahead(asc, p, r)
  {
  }

  /** Over a sorted ladder, the scan position after new order `i - 1` is where
      a scan from the start for its price stops. */
  lemma {:induction false} ScanPosition(asc: bool, thr: real, st: seq<OrderAge>, news: seq<Books.Order>, i: nat)
    requires |st| > 0 ==> |news| > 0
    requires 0 < i <= |news| && Sorted(asc, news)
    ensures ScanTo(asc, thr, st, news, i).1 == Advance(asc, st, 0, news[i - 1].price)
  {
    var q := news[i - 1].price;
    var prev := ScanTo(asc, thr, st, news, i - 1);
    if i == 1 {
      if |st| > 0 {
        assert prev.1 == Advance(asc, st, 0, q);
      }
    } else {
      ScanPosition(asc, thr, st, news, i - 1);
      var p := news[i - 2].price;
      assert !Ahead(asc, q, p);
      forall k | 0 <= k < prev.1
        ensures Ahead(asc, st[k].price, q)
      {
        AheadTrans(asc, st[k].price, p, q);
      }
    }
    AdvanceSkip(asc, st, prev.1, q);
  }

  /** Over strictly ordered static orders, the scan for a price that one
      of them has stops at it. */
  lemma FoundAt(asc: bool, st: seq<OrderAge>, j: nat, q: real)
    requires Ordered(asc, st) && j < |st| && st[j].price == q
    ensures Advance(asc, st, 0, q) == j
  {
    AdvanceSkip(asc, st, j, q);
  }

  /** With the static orders strictly ordered and the new ladder sorted,
      a kept order is exactly one tick older than the static order at its
      price when there is one, and new otherwise. */
  lemma {:induction false} ScanAgesExact(asc: bool, thr: real, st: seq<OrderAge>, news: seq<Books.Order>, i: nat)
    requires |st| > 0 ==> |news| > 0
    requires i <= |news| && Ordered(asc, st) && Sorted(asc, news)
    ensures forall k, j :: (0 <= k < |ScanTo(asc, thr, st, news, i).0| && 0 <= j < |st| &&
              st[j].price == ScanTo(asc, thr, st, news, i).0[k].price) ==>
              ScanTo(asc, thr, st, news, i).0[k].age == st[j].age + 1
    ensures forall k :: (0 <= k < |ScanTo(asc, thr, st, news, i).0| &&
              (forall j :: 0 <= j < |st| ==> st[j].price != ScanTo(asc, thr, st, news, i).0[k].price)) ==>
              ScanTo(asc, thr, st, news, i).0[k].age == 1
  {
    if i > 0 {
      ScanAgesExact(asc, thr, st, news, i - 1);
      var q := news[i - 1].price;
      ScanPosition(asc, thr, st, news, i);
      forall j | 0 <= j < |st| && st[j].price == q
        ensures Advance(asc, st, 0, q) == j
      {
        FoundAt(asc, st, j, q);
      }
    }
  }

  /** Over a sorted ladder, the static orders kept at the end are exactly
      those not ahead of the last new order. */
  lemma TailBeyond(asc: bool, thr: real, st: seq<OrderAge>, news: seq<Books.Order>)
    requires |news| > 0 && Ordered(asc, st) && Sorted(asc, news)
    ensures forall j :: 0 <= j < |st| ==>
              (j >= Scanned(asc, thr, st, news).1 <==> !Ahead(asc, st[j].price, news[|news| - 1].price))
  {
    ScanPosition(asc, thr, st, news, |news|);
  }

  /** As written, a static order that the last new order matches is kept
      twice: once one tick older, once as it was. */
  lemma MatchedKeptTwice()
    ensures Merged(true, 10.0, [OrderAge(100.0, 20.0, 1)], [Books.Order(100.0, 20.0)])
         == [OrderAge(100.0, 20.0, 2), OrderAge(100.0, 20.0, 1)]
  {
    var st := [OrderAge(100.0, 20.0, 1)];
    var news := [Books.Order(100.0, 20.0)];
    assert Start(true, st, news) == 0;
    assert ScanTo(true, 10.0, st, news, 0) == ([], 0);
    assert Advance(true, st, 0, 100.0) == 0;
    assert Tagged(st, 0, news[0]) == OrderAge(100.0, 20.0, 2);
    assert ScanTo(true, 10.0, st, news, 1).1 == 0;
    assert ScanTo(true, 10.0, st, news, 1).0 == [OrderAge(100.0, 20.0, 2)];
    assert ScanTo(true, 10.0, st, news, 1) == ([OrderAge(100.0, 20.0, 2)], 0);
  }

  /** Corrected, the merge of strictly ordered static orders with a
      strictly ordered ladder is strictly ordered: no price twice. */
  lemma MergedFixedOrdered(asc: bool, thr: real, st: seq<OrderAge>, news: seq<Books.Order>)
    requires |st| > 0 ==> |news| > 0
    requires Ordered(asc, st) && Strict(asc, news)
    ensures Ordered(asc, MergedFixed(asc, thr, st, news))
  {
    var sc := Scanned(asc, thr, st, news);
    var kept := sc.0;
    ScannedOrdered(asc, thr, st, news);
    if news != [] {
      var last := news[|news| - 1].price;
      var e := SkipPrice(st, sc.1, last);
      var tail := st[e..];
      forall j | 0 <= j < |tail|
        ensures Ahead(asc, last, tail[j].price)
      {
        assert e + j < |st|;
        if j > 0 {
          assert Ahead(asc, st[e].price, st[e + j].price);
        }
      }
      assert Ordered(asc, tail) by {
        forall a, b | 0 <= a < b < |tail|
          ensures Ahead(asc, tail[a].price, tail[b].price)
        {
          assert tail[a] == st[e + a] && tail[b] == st[e + b];
        }
      }
      OrderedJoin(asc, kept, tail, last);
    }
  }

  /** The kept orders of a strictly ordered ladder are strictly ordered,
      each at or ahead of the last new order. */
  lemma ScannedOrdered(asc: bool, thr: real, st: seq<OrderAge>, news: seq<Books.Order>)
    requires |st| > 0 ==> |news| > 0
    requires Strict(asc, news)
    ensures var kept := Scanned(asc, thr, st, news).0;
      Ordered(asc, kept) &&
      (news != [] ==> forall i :: 0 <= i < |kept| ==>
        kept[i].price == news[|news| - 1].price || Ahead(asc, kept[i].price, news[|news| - 1].price))
  {
    var kept := Scanned(asc, thr, st, news).0;
    ScanKeeps(asc, thr, st, news, |news|);
    assert news[..|news|] == news;
    KeptStrict(asc, news, thr);
    KeptFrom(news, thr);
    forall i, j | 0 <= i < j < |kept|
      ensures Ahead(asc, kept[i].price, kept[j].price)
    {
      assert Strip(kept)[i].price == kept[i].price && Strip(kept)[j].price == kept[j].price;
    }
    if news != [] {
      var last := news[|news| - 1].price;
      forall i | 0 <= i < |kept|
        ensures kept[i].price == last || Ahead(asc, kept[i].price, last)
      {
        assert Strip(kept)[i] in Kept(news, thr);
        var m :| 0 <= m < |news| && news[m] == Strip(kept)[i];
      }
    }
  }

  /** Two ordered runs on either side of a price join into one. */
  lemma OrderedJoin(asc: bool, kept: seq<OrderAge>, tail: seq<OrderAge>, last: real)
    requires Ordered(asc, kept) && Ordered(asc, tail)
    requires forall i :: 0 <= i < |kept| ==> kept[i].price == last || Ahead(asc, kept[i].price, last)
    requires forall j :: 0 <= j < |tail| ==> Ahead(asc, last, tail[j].price)
    ensures Ordered(asc, kept + tail)
  {
    var m := kept + tail;
    forall a, b | 0 <= a < b < |m|
      ensures Ahead(asc, m[a].price, m[b].price)
    {
      if b < |kept| {
        assert m[a] == kept[a] && m[b] == kept[b];
      } else if a >= |kept| {
        assert m[a] == tail[a - |kept|] && m[b] == tail[b - |kept|];
      } else {
        assert m[a] == kept[a] && m[b] == tail[b - |kept|];
      }
    }
  }

  /** The kept part of a strictly ordered ladder is strictly ordered. */
  lemma {:induction false} KeptStrict(asc: bool, news: seq<Books.Order>, thr: real)
    requires Strict(asc, news)
    ensures Strict(asc, Kept(news, thr))
  {
    if news != [] {
      var init := news[..|news| - 1];
      KeptStrict(asc, init, thr);
      KeptFrom(init, thr);
      forall o | o in Kept(init, thr)
        ensures Ahead(asc, o.price, news[|news| - 1].price)
      {
        var m :| 0 <= m < |init| && init[m] == o;
      }
    }
  }

  // ---------------------------------------------------------------------
  // nearOldStaticOrder

  /** A static order old enough and close enough to `ref`. */
  predicate Near(o: OrderAge, minAge: int, ref: real, minDist: real)
  {
    o.age > minAge && Abs(o.price - ref) < minDist
  }

  function FirstNear(st: seq<OrderAge>, minAge: int, ref: real, minDist: real): Option<OrderAge>
  {
    if st == [] then None
    else if Near(st[0], minAge, ref, minDist) then Some(st[0])
    else FirstNear(st[1..], minAge, ref, minDist)
  }

  /** `nearOldStaticOrder`: the first static order near enough, if any. */
  method NearOldStaticOrder(st: seq<OrderAge>, minAge: int, ref: real, minDist: real) returns (r: Option<OrderAge>)
    ensures r == FirstNear(st, minAge, ref, minDist)
    ensures r.Some? ==> exists i :: 0 <= i < |st| && st[i] == r.value && Near(st[i], minAge, ref, minDist) &&
                                   forall k :: 0 <= k < i ==> !Near(st[k], minAge, ref, minDist)
    ensures r.None? ==> forall k :: 0 <= k < |st| ==> !Near(st[k], minAge, ref, minDist)
  {
    for i := 0 to |st|
      invariant forall k :: 0 <= k < i ==> !Near(st[k], minAge, ref, minDist)
      invariant FirstNear(st, minAge, ref, minDist) == FirstNear(st[i..], minAge, ref, minDist)
    {
      assert st[i..][1..] == st[i + 1..];
      if Near(st[i], minAge, ref, minDist) {
        return Some(st[i]);
      }
    }
    return None;
  }

  // ---------------------------------------------------------------------
  // Grind

  /** The amount parameter of a placed order. */
  function AmountOf(a: Strat.TradeAction): real
  {
    if Strat.FloatParam(a, "amount").Some? then Strat.FloatParam(a, "amount").value else 0.0
  }

  /** The price parameter of a placed order. */
  function PriceOf(a: Strat.TradeAction): real
  {
    if Strat.FloatParam(a, "price").Some? then Strat.FloatParam(a, "price").value else 0.0
  }

  /** The vicinity rule of `Grind`: with old static orders near both
      trading prices and both within `distance`, neither is used;
      otherwise only the nearer one. */
  function Chosen(tradingBid: real, tradingAsk: real, nearBid: Option<OrderAge>, nearAsk: Option<OrderAge>,
                  distance: real): (r: (Option<OrderAge>, Option<OrderAge>))
    ensures r.0.Some? ==> r.0 == nearBid && r.1.None?
    ensures r.1.Some? ==> r.1 == nearAsk && r.0.None?
    ensures nearBid.None? || nearAsk.None? ==> r == (nearBid, nearAsk)
    ensures nearBid.Some? && nearAsk.Some? && r.0.None? && r.1.None? ==>
              tradingBid - nearBid.value.price < distance && nearAsk.value.price - tradingAsk < distance
  {
    if nearBid.Some? && nearAsk.Some? then
      var bidVicinity := tradingBid - nearBid.value.price;
      var askVicinity := nearAsk.value.price - tradingAsk;
      if bidVicinity < distance && askVicinity < distance then (None, None)
      else if bidVicinity < askVicinity then (nearBid, None)
      else (None, nearAsk)
    else (nearBid, nearAsk)
  }

  /** The order `Grind` places after the cancels, with the size of a
      sell ahead of a static ask given: ahead of a static bid it buys up
      to `tradingAmount`, at most at the trading ask; ahead of a static
      ask it sells, at least at the trading bid; with neither it closes
      any position at the mid. */
  function Place(exName: string, pair: Pair, position: real, tradingBid: real, tradingAsk: real,
                 nearBid: Option<OrderAge>, nearAsk: Option<OrderAge>, distance: real, tradingAmount: real,
                 sellAmount: real): (r: seq<Strat.TradeAction>)
    ensures |r| <= 1
    ensures forall a :: a in r ==> a.op == Strat.PlaceLimitOrder && a.exName == exName && a.pair == pair
  {
    var c := Chosen(tradingBid, tradingAsk, nearBid, nearAsk, distance);
    if c.0.Some? && position < tradingAmount then
      [Strat.PlaceLimitOrderAction(exName, pair, Min(c.0.value.price + distance, tradingAsk), tradingAmount - position)]
    else if c.1.Some? && position > -tradingAmount then
      [Strat.PlaceLimitOrderAction(exName, pair, Max(c.1.value.price - distance, tradingBid), sellAmount)]
    else if c.0.None? && c.1.None? && Abs(position) > 0.0 then
      [Strat.PlaceLimitOrderAction(exName, pair, (tradingBid + tradingAsk) / 2.0, -position)]
    else []
  }

  /** As written, the sell ahead of a static ask has size
      `-tradingAmount + position`. */
  function DecideAsWritten(exName: string, pair: Pair, position: real, tradingBid: real, tradingAsk: real,
                           nearBid: Option<OrderAge>, nearAsk: Option<OrderAge>, distance: real, tradingAmount: real)
    : (r: seq<Strat.TradeAction>)
    ensures |r| <= 1
  {
    Place(exName, pair, position, tradingBid, tradingAsk, nearBid, nearAsk, distance, tradingAmount,
          -tradingAmount + position)
  }

  /** As written, a strategy long `tradingAmount` next to an old static
      ask places a sell of size 0 instead of going short. */
  lemma SellOfNothing()
    ensures var r := DecideAsWritten("ex", Pair("BTC", "USDT"), 1.0, 99.0, 101.0, None,
                                     Some(OrderAge(105.0, 20.0, 3)), 2.0, 1.0);
            |r| == 1 && AmountOf(r[0]) == 0.0
  {
  }

  /** Corrected, the sell takes the position to `-tradingAmount`, as the
      buy takes it to `tradingAmount`. */
  function Decide(exName: string, pair: Pair, position: real, tradingBid: real, tradingAsk: real,
                  nearBid: Option<OrderAge>, nearAsk: Option<OrderAge>, distance: real, tradingAmount: real)
    : (r: seq<Strat.TradeAction>)
    ensures |r| <= 1
    ensures forall a :: a in r ==> a.op == Strat.PlaceLimitOrder && a.exName == exName && a.pair == pair
    ensures r != [] ==> position + AmountOf(r[0]) in {tradingAmount, -tradingAmount, 0.0}
    ensures r != [] && AmountOf(r[0]) > 0.0 && tradingBid <= tradingAsk ==> PriceOf(r[0]) <= tradingAsk
    ensures r != [] && AmountOf(r[0]) < 0.0 && tradingBid <= tradingAsk ==> PriceOf(r[0]) >= tradingBid
    ensures nearBid.None? && nearAsk.None? ==> (r != [] <==> position != 0.0)
  {
    Place(exName, pair, position, tradingBid, tradingAsk, nearBid, nearAsk, distance, tradingAmount,
          -tradingAmount - position)
  }

  /** The price `priceInAmount` answers on a non-empty ladder. */
  function TradingPrice(amount: real, ladder: seq<Books.Order>): real
    requires |ladder| > 0
  {
    Books.InAmount(amount, ladder).0.r
  }

  /** `OrderScan`: the static orders of each side are its state. */
  class OrderScan {
    const pair: Pair
    const exName: string
    const tick: int
    var staticBids: seq<OrderAge>
    var staticAsks: seq<OrderAge>
    const threshold: real
    const minAge: int
    const tooFar: real
    const distance: real
    const tradingAmount: real

    /** `NewOrderScan`, without the dump file. */
    constructor (exName: string, pair: Pair, tick: int, tradingAmount: real)
      ensures this.exName == exName && this.pair == pair && this.tick == tick
      ensures this.tradingAmount == tradingAmount
      ensures threshold == 10.0 && distance == 2.0 && tooFar == 10.0 && minAge == 2
      ensures staticBids == [] && staticAsks == []
    {
      this.exName, this.pair, this.tick := exName, pair, tick;
      this.tradingAmount := tradingAmount;
      threshold, distance, tooFar, minAge := 10.0, 2.0, 10.0, 2;
      staticBids, staticAsks := [], [];
    }

    function GetExchangeNames(): (r: seq<string>)
      ensures r == [exName]
    {
      [exName]
    }

    function GetPairs(): (r: seq<Pair>)
      ensures r == [pair]
    {
      [pair]
    }

    function GetTick(): (r: int)
      ensures r == tick
    {
      tick
    }

    /** `Grind`: nothing on an invalid book; otherwise the cancels, the
        static orders merged with the book, and the decision at the
        trading prices for `tradingAmount`. */
    method Grind(ob: Books.OrderBook, myOrders: seq<Books.OrderStatus>, position: real)
      returns (actions: seq<Strat.TradeAction>)
      modifies this
      ensures !Books.Valid(ob) ==> actions == [] && staticBids == old(staticBids) && staticAsks == old(staticAsks)
      ensures Books.Valid(ob) ==>
                staticAsks == MergedFixed(true, threshold, old(staticAsks), ob.asks) &&
                staticBids == MergedFixed(false, threshold, old(staticBids), ob.bids)
      ensures Books.Valid(ob) ==>
                var tradingBid := TradingPrice(tradingAmount, ob.bids);
                var tradingAsk := TradingPrice(tradingAmount, ob.asks);
                actions == Cancels.CancelAlive(exName, pair, myOrders) +
                           Decide(exName, pair, position, tradingBid, tradingAsk,
                                  FirstNear(staticBids, minAge, tradingBid, tooFar),
                                  FirstNear(staticAsks, minAge, tradingAsk, tooFar), distance, tradingAmount)
    {
      if !Books.Valid(ob) {
        return [];
      }
      actions := Cancels.CancelAliveOrders(exName, pair, myOrders);
      staticAsks := MergeOrdersFixed(true, threshold, staticAsks, ob.asks);
      staticBids := MergeOrdersFixed(false, threshold, staticBids, ob.bids);
      var tradingBid, _ := Books.PriceInAmount(tradingAmount, ob.bids);
      var tradingAsk, _ := Books.PriceInAmount(tradingAmount, ob.asks);
      var nearStaticBid := NearOldStaticOrder(staticBids, minAge, tradingBid.r, tooFar);
      var nearStaticAsk := NearOldStaticOrder(staticAsks, minAge, tradingAsk.r, tooFar);
      actions := actions + Decide(exName, pair, position, tradingBid.r, tradingAsk.r,
                                  nearStaticBid, nearStaticAsk, distance, tradingAmount);
    }
  }
}
