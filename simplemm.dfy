/**
 * The simple market maker of strats/simplemm.go: on a valid book it bids
 * and offers 1000 at a fixed relative spread around the mid of the best
 * prices. It keeps no state of its own.
 */
module SimpleMarketMaker {
  import opened Pairs
  import Books
  import Strat

  datatype SimpleMM = SimpleMM(base: Strat.BaseStrat, pair: Pair, exName: string, spread: real)

  /** The size of both orders. */
  const Amount: real := 1000.0

  function NewSimpleMM(exName: string, pair: Pair, spread: real, tick: int): (s: SimpleMM)
    ensures s.exName == exName && s.pair == pair && s.spread == spread && s.base.tick == tick
  {
    SimpleMM(Strat.BaseStrat(tick), pair, exName, spread)
  }

  function GetExchangeNames(s: SimpleMM): (r: seq<string>)
    ensures r == [s.exName]
  {
    [s.exName]
  }

  function GetPairs(s: SimpleMM): (r: seq<Pair>)
    ensures r == [s.pair]
  {
    [s.pair]
  }

  /** The mid of the best prices. */
  function Mid(ob: Books.OrderBook): real
    requires Books.Valid(ob)
  {
    (ob.asks[0].price + ob.bids[0].price) / 2.0
  }

  /** `Grind`: nothing on an invalid book; otherwise a buy of 1000 at
      `spread` below the mid, then a sell of 1000 at `spread` above it. */
  function Grind(s: SimpleMM, ob: Books.OrderBook): (actions: seq<Strat.TradeAction>)
    ensures !Books.Valid(ob) <==> actions == []
    ensures Books.Valid(ob) ==>
              |actions| == 2 &&
              actions[0] == Strat.PlaceLimitOrderAction(s.exName, s.pair, Mid(ob) * (1.0 - s.spread), Amount) &&
              actions[1] == Strat.PlaceLimitOrderAction(s.exName, s.pair, Mid(ob) * (1.0 + s.spread), -Amount)
  {
    if Books.Valid(ob) then
      var bestBid := ob.bids[0].price;
      var bestAsk := ob.asks[0].price;
      var mid := (bestAsk + bestBid) / 2.0;
      var buyPrice := mid * (1.0 - s.spread);
      var sellPrice := mid * (1.0 + s.spread);
      assert buyPrice == Mid(ob) * (1.0 - s.spread) && sellPrice == Mid(ob) * (1.0 + s.spread);
      [Strat.PlaceLimitOrderAction(s.exName, s.pair, buyPrice, Amount),
       Strat.PlaceLimitOrderAction(s.exName, s.pair, sellPrice, -Amount)]
    else []
  }

  /** The two prices are symmetric about the mid, their distance is
      twice `spread` of the mid, and for a positive mid and spread the buy
      is below the sell. */
  lemma GrindSymmetric(s: SimpleMM, ob: Books.OrderBook)
    requires Books.Valid(ob)
    ensures var a := Grind(s, ob);
            var mid := Mid(ob);
            var buy := Strat.FloatParam(a[0], "price").value;
            var sell := Strat.FloatParam(a[1], "price").value;
            (buy + sell) / 2.0 == mid && sell - buy == 2.0 * mid * s.spread &&
            (mid > 0.0 && s.spread > 0.0 ==> buy < sell) &&
            Strat.FloatParam(a[0], "amount").value + Strat.FloatParam(a[1], "amount").value == 0.0
  {
    var mid := Mid(ob);
    assert mid * (1.0 - s.spread) == mid - mid * s.spread && mid * (1.0 + s.spread) == mid + mid * s.spread;
    assert mid > 0.0 && s.spread > 0.0 ==> mid * s.spread > 0.0;
  }
}
