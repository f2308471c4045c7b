/** The loop that opens the `Grind` of strats/orderscan.go and
    strats/stackbiasmm.go: one cancel per ALIVE order of the pair, in the
    order the exchange lists them. */
module Cancels {
  import opened Pairs
  import Books
  import Strat

  /** The cancels for the ALIVE orders of `orders`, in order. */
  function CancelAlive(exName: string, pair: Pair, orders: seq<Books.OrderStatus>): (r: seq<Strat.TradeAction>)
    ensures |r| <= |orders|
    ensures forall a :: a in r ==> a.op == Strat.CancelOpenOrder && a.exName == exName && a.pair == pair
  {
    if orders == [] then []
    else
      var o := orders[|orders| - 1];
      CancelAlive(exName, pair, orders[..|orders| - 1]) +
        (if o.state == Books.ALIVE then [Strat.CancelOrderAction(exName, pair, o.orderID)] else [])
  }

  /** Every ALIVE order is cancelled, and every cancel is for an ALIVE
      order. */
  lemma {:induction false} CancelAliveExact(exName: string, pair: Pair, orders: seq<Books.OrderStatus>)
    ensures forall i :: 0 <= i < |orders| && orders[i].state == Books.ALIVE ==>
              Strat.CancelOrderAction(exName, pair, orders[i].orderID) in CancelAlive(exName, pair, orders)
    ensures forall a :: a in CancelAlive(exName, pair, orders) ==>
              exists i :: 0 <= i < |orders| && orders[i].state == Books.ALIVE &&
                          a == Strat.CancelOrderAction(exName, pair, orders[i].orderID)
  {
    if orders != [] {
      var init := orders[..|orders| - 1];
      CancelAliveExact(exName, pair, init);
      assert forall i :: 0 <= i < |init| ==> init[i] == orders[i];
    }
  }

  /** The loop itself. */
  method CancelAliveOrders(exName: string, pair: Pair, orders: seq<Books.OrderStatus>)
    returns (actions: seq<Strat.TradeAction>)
    ensures actions == CancelAlive(exName, pair, orders)
  {
    actions := [];
    for i := 0 to |orders|
      invariant actions == CancelAlive(exName, pair, orders[..i])
    {
      assert orders[..i + 1][..i] == orders[..i];
      if orders[i].state == Books.ALIVE {
        actions := actions + [Strat.CancelOrderAction(exName, pair, orders[i].orderID)];
      }
    }
    assert orders[..|orders|] == orders;
  }
}
