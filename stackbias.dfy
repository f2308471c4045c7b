/**
 * The stack-bias market maker of strats/stackbiasmm.go. Each tick it
 * cancels its live orders, reads the book's price for a large and for its
 * trading size, biases the trading mid towards the large-size price and
 * against its position, and quotes around that mid at a width taken from
 * the moving average of the last ten trading spreads, which it keeps in
 * `spreadHistory`. The averaging is `Utils.AverageSlice`, whose code the
 * file repeats as `averageSlice`.
 */
module StackBias {
  import Num
  import Utils
  import opened Pairs
  import Books
  import Strat
  import Cancels

  /** `max` on ints. */
  function Max(i: int, j: int): (r: int)
    ensures r >= i && r >= j && (r == i || r == j)
  {
    if i >= j then i else j
  }

  /** The mean, 0 for no samples. */
  function Mean(sl: seq<real>): real
  {
    if sl == [] then 0.0 else Utils.Sum(sl) / |sl| as real
  }

  /** The samples the moving average reads: the last ten, or all when
      there are fewer. */
  function Window(h: seq<real>): (w: seq<real>)
    ensures |w| == if |h| < 10 then |h| else 10
    ensures h == h[..|h| - |w|] + w
  {
    h[Max(0, |h| - 10)..]
  }

  /** The size-weighted price in the large amount: each side's price
      weighted by the other side's depth. */
  function LargePrice(largeBid: real, largeAsk: real, largeBidAmount: real, largeAskAmount: real): (p: real)
    requires largeBidAmount + largeAskAmount != 0.0
    ensures largeBidAmount == largeAskAmount ==> p == (largeBid + largeAsk) / 2.0
  {
    (largeBid * largeAskAmount + largeAsk * largeBidAmount) / (largeBidAmount + largeAskAmount)
  }

  /** With both depths non-negative, the large-size price lies between
      the large bid and the large ask. */
  lemma LargePriceBetween(largeBid: real, largeAsk: real, largeBidAmount: real, largeAskAmount: real)
    requires largeBidAmount >= 0.0 && largeAskAmount >= 0.0 && largeBidAmount + largeAskAmount != 0.0
    requires largeBid <= largeAsk
    ensures largeBid <= LargePrice(largeBid, largeAsk, largeBidAmount, largeAskAmount) <= largeAsk
  {
    var total := largeBidAmount + largeAskAmount;
    var p := LargePrice(largeBid, largeAsk, largeBidAmount, largeAskAmount);
    assert p * total == largeBid * largeAskAmount + largeAsk * largeBidAmount;
    assert (p - largeBid) * total == (largeAsk - largeBid) * largeBidAmount;
    assert (largeAsk - p) * total == (largeAsk - largeBid) * largeAskAmount;
    assert total > 0.0;
    assert (largeAsk - largeBid) * largeBidAmount >= 0.0 && (largeAsk - largeBid) * largeAskAmount >= 0.0;

  }

  /** No position bias when the large spread is `wideSpread` or wider;
      otherwise the position as a share of `maxPosition`, against the
      position, in units of the average spread. */
  function PositionBias(largeBid: real, largeAsk: real, wideSpread: real, position: real, maxPosition: real,
                        averageSpread: real, positionBiasFactor: real): (b: real)
    requires largeAsk - largeBid < wideSpread ==> maxPosition != 0.0
    ensures largeAsk - largeBid >= wideSpread || position == 0.0 ==> b == 0.0
    ensures largeAsk - largeBid < wideSpread ==> b * maxPosition == -position * averageSpread * positionBiasFactor
  {
    if largeAsk - largeBid < wideSpread then -position / maxPosition * averageSpread * positionBiasFactor else 0.0
  }

  /** The two-way quote: the biased mid, kept inside the trading two-way,
      widened by `averageSpread * widener`. Answers (bid, ask). */
  function Quote(tradingBid: real, tradingAsk: real, largeBias: real, positionBias: real,
                 averageSpread: real, widener: real): (q: (real, real))
    ensures q.1 - q.0 == averageSpread * widener
    ensures tradingBid <= tradingAsk ==> tradingBid <= (q.0 + q.1) / 2.0 <= tradingAsk
    ensures var m := (tradingBid + tradingAsk) / 2.0 + largeBias + positionBias;
            tradingBid <= m <= tradingAsk ==> (q.0 + q.1) / 2.0 == m
  {
    var tradingMid := (tradingBid + tradingAsk) / 2.0;
    var ourMid := Num.Min(Num.Max(tradingMid + largeBias + positionBias, tradingBid), tradingAsk);
    (ourMid - averageSpread / 2.0 * widener, ourMid + averageSpread / 2.0 * widener)
  }

  /** The price `priceInAmount` answers on a non-empty ladder, and the
      depth it saw. */
  function PriceIn(amount: real, ladder: seq<Books.Order>): (real, real)
    requires |ladder| > 0
  {
    (Books.InAmount(amount, ladder).0.r, Books.InAmount(amount, ladder).1)
  }

  /** What the divisions of `Grind` need on a valid book: depth in the
      large amount on some side and, when the position bias is used, a
      non-zero `maxPosition`. */
  predicate Defined(ob: Books.OrderBook, largeAmount: real, wideSpread: real, maxPosition: real)
    requires Books.Valid(ob)
  {
    var (largeBid, largeBidAmount) := PriceIn(largeAmount, ob.bids);
    var (largeAsk, largeAskAmount) := PriceIn(largeAmount, ob.asks);
    largeBidAmount + largeAskAmount != 0.0 && (largeAsk - largeBid < wideSpread ==> maxPosition != 0.0)
  }

  /** The quote of `Grind` on a valid book, from the book, the position
      and the average spread. */
  function BookQuote(ob: Books.OrderBook, position: real, averageSpread: real, largeAmount: real, tradingAmount: real,
                     largeBiasFactor: real, maxPosition: real, positionBiasFactor: real, widener: real,
                     wideSpread: real): (q: (real, real))
    requires Books.Valid(ob) && Defined(ob, largeAmount, wideSpread, maxPosition)
  {
    var (largeBid, largeBidAmount) := PriceIn(largeAmount, ob.bids);
    var (largeAsk, largeAskAmount) := PriceIn(largeAmount, ob.asks);
    var tradingBid := PriceIn(tradingAmount, ob.bids).0;
    var tradingAsk := PriceIn(tradingAmount, ob.asks).0;
    var largeBias := (LargePrice(largeBid, largeAsk, largeBidAmount, largeAskAmount) - (tradingBid + tradingAsk) / 2.0)
                     * largeBiasFactor;
    var positionBias := PositionBias(largeBid, largeAsk, wideSpread, position, maxPosition, averageSpread, positionBiasFactor);
    Quote(tradingBid, tradingAsk, largeBias, positionBias, averageSpread, widener)
  }

  /** With the large spread `wideSpread` or wider, the quote does not
      depend on the position. */
  lemma WideIgnoresPosition(ob: Books.OrderBook, p1: real, p2: real, averageSpread: real, largeAmount: real,
                            tradingAmount: real, largeBiasFactor: real, maxPosition: real,
                            positionBiasFactor: real, widener: real, wideSpread: real)
    requires Books.Valid(ob) && Defined(ob, largeAmount, wideSpread, maxPosition)
    requires PriceIn(largeAmount, ob.asks).0 - PriceIn(largeAmount, ob.bids).0 >= wideSpread
    ensures BookQuote(ob, p1, averageSpread, largeAmount, tradingAmount, largeBiasFactor, maxPosition,
                      positionBiasFactor, widener, wideSpread)
         == BookQuote(ob, p2, averageSpread, largeAmount, tradingAmount, largeBiasFactor, maxPosition,
                      positionBiasFactor, widener, wideSpread)
  {
  }

  /** Against a long position the quote's mid is no higher than when
      flat, and against a short one no lower, for a non-negative spread
      and bias factor. */
  lemma LeansAgainstPosition(tradingBid: real, tradingAsk: real, largeBias: real, largeBid: real, largeAsk: real,
                             wideSpread: real, position: real, maxPosition: real, averageSpread: real,
                             positionBiasFactor: real, widener: real)
    requires largeAsk - largeBid < wideSpread && maxPosition > 0.0
    requires averageSpread >= 0.0 && positionBiasFactor >= 0.0
    ensures var flat := Quote(tradingBid, tradingAsk, largeBias, 0.0, averageSpread, widener);
            var q := Quote(tradingBid, tradingAsk, largeBias,
                           PositionBias(largeBid, largeAsk, wideSpread, position, maxPosition, averageSpread,
                                        positionBiasFactor), averageSpread, widener);
            (position >= 0.0 ==> q.0 <= flat.0 && q.1 <= flat.1) &&
            (position <= 0.0 ==> q.0 >= flat.0 && q.1 >= flat.1)
  {
    var b := PositionBias(largeBid, largeAsk, wideSpread, position, maxPosition, averageSpread, positionBiasFactor);
    assert position >= 0.0 ==> b <= 0.0 by {
      if position >= 0.0 {
        assert -position * averageSpread * positionBiasFactor <= 0.0 by {
          assert position * averageSpread >= 0.0;
          assert position * averageSpread * positionBiasFactor >= 0.0;
        }
      }
    }
    assert position <= 0.0 ==> b >= 0.0 by {
      if position <= 0.0 {
        assert -position * averageSpread * positionBiasFactor >= 0.0 by {
          assert -position * averageSpread >= 0.0;
          assert -position * averageSpread * positionBiasFactor >= 0.0;
        }
      }
    }
  }

  /** `priceInAmount` on a non-empty ladder, as `PriceIn` states it. */
  method WalkLadder(amount: real, ladder: seq<Books.Order>) returns (price: real, available: real)
    requires |ladder| > 0
    ensures (price, available) == PriceIn(amount, ladder)
  {
    var p;
    p, available := Books.PriceInAmount(amount, ladder);
    price := p.r;
  }

  /** The pricing steps of `Grind` on a valid book, once the average
      spread is known. */
  method QuoteBook(ob: Books.OrderBook, position: real, averageSpread: real, largeAmount: real, tradingAmount: real,
                   largeBiasFactor: real, maxPosition: real, positionBiasFactor: real, widener: real,
                   wideSpread: real) returns (ourBid: real, ourAsk: real)
    requires Books.Valid(ob) && Defined(ob, largeAmount, wideSpread, maxPosition)
    ensures (ourBid, ourAsk) == BookQuote(ob, position, averageSpread, largeAmount, tradingAmount, largeBiasFactor,
                                          maxPosition, positionBiasFactor, widener, wideSpread)
  {
    var largeBid, largeBidAmount := WalkLadder(largeAmount, ob.bids);
    var largeAsk, largeAskAmount := WalkLadder(largeAmount, ob.asks);
    var tradingBid, _ := WalkLadder(tradingAmount, ob.bids);
    var tradingAsk, _ := WalkLadder(tradingAmount, ob.asks);

    var tradingMid := (tradingBid + tradingAsk) / 2.0;
    var largeBias := (LargePrice(largeBid, largeAsk, largeBidAmount, largeAskAmount) - tradingMid) * largeBiasFactor;
    var positionBias := PositionBias(largeBid, largeAsk, wideSpread, position, maxPosition,
                                     averageSpread, positionBiasFactor);
    var q := Quote(tradingBid, tradingAsk, largeBias, positionBias, averageSpread, widener);
    ourBid, ourAsk := q.0, q.1;
  }

  /** The ten-sample moving average of `Grind`: `averageSlice` over the
      window of the last ten samples. */
  method MovingAverage(h: seq<real>) returns (avg: real)
    requires h != []
    ensures avg == Mean(Window(h))
  {
    var w := h[Max(0, |h| - 10)..|h|];
    assert w == Window(h);
    avg := Utils.AverageSlice(w);
    MeanOf(w, avg);
  }

  /** What `AverageSlice` promises of a non-empty slice is its mean. */
  lemma MeanOf(sl: seq<real>, avg: real)
    requires sl != [] && avg * |sl| as real == Utils.Sum(sl)
    ensures avg == Mean(sl)
  {
  }

  /** `StackBiasMM`: the spread history is its state. */
  class StackBiasMM {
    const pair: Pair
    const exName: string
    const tick: int
    const largeAmount: real
    const largeBiasFactor: real
    const tradingAmount: real
    const maxPosition: real
    const positionBiasFactor: real
    const widener: real
    const wideSpread: real
    var spreadHistory: seq<real>

    /** `NewStackBiasMM`, without the dump file. */
    constructor (exName: string, pair: Pair, tick: int, tradingAmount: real, maxPosition: real,
                 largeBiasFactor: real, positionBiasFactor: real)
      ensures this.exName == exName && this.pair == pair && this.tick == tick
      ensures this.tradingAmount == tradingAmount && this.maxPosition == maxPosition
      ensures this.largeBiasFactor == largeBiasFactor && this.positionBiasFactor == positionBiasFactor
      ensures largeAmount == 10.0 && widener == 1.5 && wideSpread == 10.0
      ensures spreadHistory == []
    {
      this.exName, this.pair, this.tick := exName, pair, tick;
      this.tradingAmount, this.maxPosition := tradingAmount, maxPosition;
      this.largeBiasFactor, this.positionBiasFactor := largeBiasFactor, positionBiasFactor;
      largeAmount, widener, wideSpread := 10.0, 1.5, 10.0;
      spreadHistory := [];
    }

    function GetExchangeNames(): (r: seq<string>)
      ensures r == [exName]
    {
      [exName]
    }

    function GetPairs(): (r: seq<Pair>)
      ensures r == [pair]
    {
      [pair]
    }

    function GetTick(): (r: int)
      ensures r == tick
    {
      tick
    }

    /** `Grind`: the cancels first; on an invalid book nothing more. On
        a valid one, the trading spread joins the history, and a sell of
        `tradingAmount` at the quote's ask and a buy at its bid follow,
        quoted at the mean of the last ten spreads. */
    method Grind(ob: Books.OrderBook, myOrders: seq<Books.OrderStatus>, position: real)
      returns (actions: seq<Strat.TradeAction>)
      requires Books.Valid(ob) ==> Defined(ob, largeAmount, wideSpread, maxPosition)
      modifies this
      ensures !Books.Valid(ob) ==> actions == Cancels.CancelAlive(exName, pair, myOrders) &&
                                   spreadHistory == old(spreadHistory)
      ensures Books.Valid(ob) ==>
                spreadHistory == old(spreadHistory) +
                                 [PriceIn(tradingAmount, ob.asks).0 - PriceIn(tradingAmount, ob.bids).0]
      ensures Books.Valid(ob) ==>
                var q := BookQuote(ob, position, Mean(Window(spreadHistory)), largeAmount, tradingAmount,
                                   largeBiasFactor, maxPosition, positionBiasFactor, widener, wideSpread);
                actions == Cancels.CancelAlive(exName, pair, myOrders) +
                           [Strat.PlaceLimitOrderAction(exName, pair, q.1, -tradingAmount),
                            Strat.PlaceLimitOrderAction(exName, pair, q.0, tradingAmount)]
    {
      actions := Cancels.CancelAliveOrders(exName, pair, myOrders);
      if !Books.Valid(ob) {
        return;
      }
      var tradingBid, _ := WalkLadder(tradingAmount, ob.bids);
      var tradingAsk, _ := WalkLadder(tradingAmount, ob.asks);
      var history := spreadHistory + [tradingAsk - tradingBid];
      spreadHistory := history;
      var averageSpread := MovingAverage(history);
      var ourBid, ourAsk := QuoteBook(ob, position, averageSpread, largeAmount, tradingAmount, largeBiasFactor,
                                      maxPosition, positionBiasFactor, widener, wideSpread);

      actions := actions + [Strat.PlaceLimitOrderAction(exName, pair, ourAsk, -tradingAmount)];
      actions := actions + [Strat.PlaceLimitOrderAction(exName, pair, ourBid, tradingAmount)];
    }
  }
}
