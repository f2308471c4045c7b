/**
 * `convertToOrders` of db/mds/read.go: the order points read from the
 * database become a map from the point's time string to the order of
 * that point. The reading itself is not part of this model.
 */
module MdsRead {
  import Books

  /** `OrderPoint`: one stored order point. */
  datatype OrderPoint = OrderPoint(time: string, amount: real, price: real, index: string)

  /** A point a stored order comes from. */
  predicate Live(v: OrderPoint)
  {
    v.amount > 0.0
  }

  /** The map after the first points of the feed, each live point
      overwriting its time's entry. */
  function Stored(feed: seq<OrderPoint>): map<string, Books.Order>
  {
    if feed == [] then map[]
    else
      var v := feed[|feed| - 1];
      var m := Stored(feed[..|feed| - 1]);
      if Live(v) then m[v.time := Books.Order(v.price, v.amount)] else m
  }

  /** Point `i` is the last live point with time `k`. */
  predicate LastLiveAt(feed: seq<OrderPoint>, k: string, i: int)
  {
    0 <= i < |feed| && Live(feed[i]) && feed[i].time == k &&
    forall j :: i < j < |feed| ==> !(Live(feed[j]) && feed[j].time == k)
  }

  /** The keys are the times of the live points, and each holds the
      price and amount of the LAST live point with that time. */
  lemma {:induction false} StoredLast(feed: seq<OrderPoint>)
    ensures forall k :: k in Stored(feed) <==> exists i :: 0 <= i < |feed| && Live(feed[i]) && feed[i].time == k
    ensures forall k :: k in Stored(feed) ==>
              exists i :: LastLiveAt(feed, k, i) && Stored(feed)[k] == Books.Order(feed[i].price, feed[i].amount)
  {
    if feed != [] {
      var init := feed[..|feed| - 1];
      var v := feed[|feed| - 1];
      StoredLast(init);
      forall k | k in Stored(feed)
        ensures exists i :: LastLiveAt(feed, k, i) && Stored(feed)[k] == Books.Order(feed[i].price, feed[i].amount)
      {
        if Live(v) && v.time == k {
          assert LastLiveAt(feed, k, |feed| - 1);
        } else {
          assert k in Stored(init) && Stored(feed)[k] == Stored(init)[k];
          var i :| LastLiveAt(init, k, i) && Stored(init)[k] == Books.Order(init[i].price, init[i].amount);
          assert init[i] == feed[i];
          assert LastLiveAt(feed, k, i);
        }
      }
      forall k | exists i :: 0 <= i < |feed| && Live(feed[i]) && feed[i].time == k
        ensures k in Stored(feed)
      {
        var i :| 0 <= i < |feed| && Live(feed[i]) && feed[i].time == k;
        if i < |feed| - 1 {
          assert init[i] == feed[i];
        }
      }
      forall k | k in Stored(feed)
        ensures exists i :: 0 <= i < |feed| && Live(feed[i]) && feed[i].time == k
      {
        var i :| LastLiveAt(feed, k, i) && Stored(feed)[k] == Books.Order(feed[i].price, feed[i].amount);
      }
    }
  }

  /** `convertToOrders`. */
  method ConvertToOrders(feed: seq<OrderPoint>) returns (dborders: map<string, Books.Order>)
    ensures dborders == Stored(feed)
    ensures feed == [] ==> dborders == map[]
    ensures forall k :: k in dborders ==> exists i :: 0 <= i < |feed| && Live(feed[i]) && feed[i].time == k &&
                                                     dborders[k] == Books.Order(feed[i].price, feed[i].amount)
  {
    dborders := map[];
    for n := 0 to |feed|
      invariant dborders == Stored(feed[..n])
    {
      assert feed[..n + 1][..n] == feed[..n];
      var v := feed[n];
      if v.amount > 0.0 {
        dborders := dborders[v.time := Books.Order(v.price, v.amount)];
      }
    }
    assert feed[..|feed|] == feed;
    StoredLast(feed);
  }
}
