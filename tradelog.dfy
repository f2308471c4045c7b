/**
 * The trade log of tradelog.go: fills as an exchange reports them, their
 * per-pair summary with average prices and profit and loss, the net
 * position they add up to, and the conversions to transactions and
 * snapshots.
 */
module TradeLogs {
  import opened Wrappers
  import opened Num
  import opened Chrono
  import opened Coins
  import opened Pairs
  import opened Txns
  import opened Portfolios
  import opened Books
  import Evaluate
  import Sorting
  import Utils

  /** One fill. `time` is in nanoseconds since the Unix epoch. */
  datatype TradeLog = TradeLog(
    orderID: string, pair: Pair, price: real, quantity: real,
    commission: real, commissionAsset: Coin, time: int, side: Side, txnID: string)

  /** Bought and sold amounts and values of one pair, and the commission
      paid in each asset. */
  datatype TradeLogSummary = TradeLogSummary(
    pair: Pair, sellAmount: real, sellValue: real, buyAmount: real, buyValue: real,
    fee: map<Coin, real>)

  // ---------------------------------------------------------------------
  // Summary

  /** The quantity traded on `side` of `pair` by `ts`. */
  function Amount(ts: seq<TradeLog>, pair: Pair, side: Side): real
  {
    if ts == [] then 0.0
    else
      var t := ts[|ts| - 1];
      Amount(ts[..|ts| - 1], pair, side) + (if t.pair == pair && t.side == side then t.quantity else 0.0)
  }

  /** The quote value traded on `side` of `pair` by `ts`. */
  function Value(ts: seq<TradeLog>, pair: Pair, side: Side): real
  {
    if ts == [] then 0.0
    else
      var t := ts[|ts| - 1];
      Value(ts[..|ts| - 1], pair, side) + (if t.pair == pair && t.side == side then Worth(t.price, t.quantity) else 0.0)
  }

  /** The commission paid in `c` by the trades of `pair`. */
  function Fees(ts: seq<TradeLog>, pair: Pair, c: Coin): real
  {
    if ts == [] then 0.0
    else
      var t := ts[|ts| - 1];
      Fees(ts[..|ts| - 1], pair, c) + (if t.pair == pair && t.commissionAsset == c then t.commission else 0.0)
  }

  /** The commission assets of the trades of `pair`. */
  function FeeAssets(ts: seq<TradeLog>, pair: Pair): set<Coin>
  {
    set k | 0 <= k < |ts| && ts[k].pair == pair :: ts[k].commissionAsset
  }

  /** `TradeLogS.Summary(pair)`: the trades of other pairs are skipped;
      buys and sells are summed apart; every trade of the pair adds its
      commission to the entry of its commission asset. */
  method Summary(trades: seq<TradeLog>, pair: Pair) returns (r: TradeLogSummary)
    ensures r.pair == pair
    ensures r.buyAmount == Amount(trades, pair, BUY) && r.buyValue == Value(trades, pair, BUY)
    ensures r.sellAmount == Amount(trades, pair, SELL) && r.sellValue == Value(trades, pair, SELL)
    ensures r.fee.Keys == FeeAssets(trades, pair)
    ensures forall c :: Get(r.fee, c) == Fees(trades, pair, c)
  {
    var sellAmount, sellValue, buyAmount, buyValue := 0.0, 0.0, 0.0, 0.0;
    var fee: map<Coin, real> := map[];
    for i := 0 to |trades|
      invariant buyAmount == Amount(trades[..i], pair, BUY) && buyValue == Value(trades[..i], pair, BUY)
      invariant sellAmount == Amount(trades[..i], pair, SELL) && sellValue == Value(trades[..i], pair, SELL)
      invariant fee.Keys == FeeAssets(trades[..i], pair)
      invariant forall c :: Get(fee, c) == Fees(trades[..i], pair, c)
    {
      var v := trades[i];
      assert trades[..i] + [v] == trades[..i + 1];
      SummarySnoc(trades[..i], v, pair);
      if v.pair == pair {
        if v.side == BUY {
          buyAmount := buyAmount + v.quantity;
          buyValue := buyValue + Worth(v.price, v.quantity);
        } else if v.side == SELL {
          sellAmount := sellAmount + v.quantity;
          sellValue := sellValue + Worth(v.price, v.quantity);
        }
        fee := Credit(fee, v.commissionAsset, v.commission);
      }
    }
    assert trades[..|trades|] == trades;
    r := TradeLogSummary(pair, sellAmount, sellValue, buyAmount, buyValue, fee);
  }

  /** The sums of `Summary` one trade further on. */
  lemma SummarySnoc(ts: seq<TradeLog>, t: TradeLog, pair: Pair)
    ensures var ts1 := ts + [t];
      var hit := t.pair == pair;
      Amount(ts1, pair, BUY) == Amount(ts, pair, BUY) + (if hit && t.side == BUY then t.quantity else 0.0) &&
      Value(ts1, pair, BUY) == Value(ts, pair, BUY) + (if hit && t.side == BUY then Worth(t.price, t.quantity) else 0.0) &&
      Amount(ts1, pair, SELL) == Amount(ts, pair, SELL) + (if hit && t.side == SELL then t.quantity else 0.0) &&
      Value(ts1, pair, SELL) == Value(ts, pair, SELL) + (if hit && t.side == SELL then Worth(t.price, t.quantity) else 0.0) &&
      FeeAssets(ts1, pair) == FeeAssets(ts, pair) + (if hit then {t.commissionAsset} else {}) &&
      forall c :: Fees(ts1, pair, c) == Fees(ts, pair, c) + (if hit && t.commissionAsset == c then t.commission else 0.0)
  {
    var ts1 := ts + [t];
    assert ts1[..|ts1| - 1] == ts && ts1[|ts1| - 1] == t;
    FeeAssetsSnoc(ts, t, pair);
  }

  lemma FeeAssetsSnoc(ts: seq<TradeLog>, t: TradeLog, pair: Pair)
    ensures FeeAssets(ts + [t], pair) == FeeAssets(ts, pair) + (if t.pair == pair then {t.commissionAsset} else {})
  {
    var ts1 := ts + [t];
    forall c | c in FeeAssets(ts1, pair)
      ensures c in FeeAssets(ts, pair) + (if t.pair == pair then {t.commissionAsset} else {})
    {
      var k :| 0 <= k < |ts1| && ts1[k].pair == pair && ts1[k].commissionAsset == c;
      if k < |ts| {
        assert ts1[k] == ts[k];
      }
    }
    forall c | c in FeeAssets(ts, pair)
      ensures c in FeeAssets(ts1, pair)
    {
      var k :| 0 <= k < |ts| && ts[k].pair == pair && ts[k].commissionAsset == c;
      assert ts1[k] == ts[k];
    }
    if t.pair == pair {
      assert ts1[|ts|] == t;
    }
  }

  /** `AvgBuyPrice`: the bought value over the bought amount; the price
      paid on average, which times the amount gives back the value. */
  function AvgBuyPrice(s: TradeLogSummary): (r: Fl)
    ensures r.R? <==> s.buyAmount != 0.0
    ensures r.R? ==> r.r * s.buyAmount == s.buyValue
  {
    Div(s.buyValue, s.buyAmount)
  }

  /** `AvgSellPrice`: the sold value over the sold amount. */
  function AvgSellPrice(s: TradeLogSummary): (r: Fl)
    ensures r.R? <==> s.sellAmount != 0.0
    ensures r.R? ==> r.r * s.sellAmount == s.sellValue
  {
    Div(s.sellValue, s.sellAmount)
  }

  /** `NetExposure`: bought less sold. */
  function NetExposure(s: TradeLogSummary): real
  {
    s.buyAmount - s.sellAmount
  }

  /** `RealizedPL`: the average price difference on the amount both
      bought and sold. */
  function RealizedPL(s: TradeLogSummary): (r: Fl)
    ensures r.R? <==> s.buyAmount != 0.0 && s.sellAmount != 0.0
  {
    Mul(Sub(AvgSellPrice(s), AvgBuyPrice(s)), R(Min(s.buyAmount, s.sellAmount)))
  }

  /** `UnrealizedPL(mid)`: the open exposure marked at `mid` against the
      average sell price when short and the average buy price otherwise. */
  function UnrealizedPL(s: TradeLogSummary, mid: real): (r: Fl)
    ensures r.R? <==> (if NetExposure(s) < 0.0 then s.sellAmount != 0.0 else s.buyAmount != 0.0)
  {
    var exposure := NetExposure(s);
    if exposure < 0.0 then Mul(R(exposure), Sub(R(mid), AvgSellPrice(s)))
    else Mul(R(exposure), Sub(R(mid), AvgBuyPrice(s)))
  }

  /** Realized and unrealized profit make up the whole mark-to-market
      result: the cash taken in less the cash paid out, plus the open
      exposure valued at `mid`. */
  lemma PnLDecomposition(s: TradeLogSummary, mid: real)
    requires s.buyAmount != 0.0 && s.sellAmount != 0.0
    ensures RealizedPL(s).R? && UnrealizedPL(s, mid).R?
    ensures RealizedPL(s).r + UnrealizedPL(s, mid).r == s.sellValue - s.buyValue + NetExposure(s) * mid
  {
    var bp, sp := AvgBuyPrice(s).r, AvgSellPrice(s).r;
    var b, q := s.buyAmount, s.sellAmount;
    var e := b - q;
    assert bp * b == s.buyValue && sp * q == s.sellValue;
    if e < 0.0 {
      assert Min(b, q) == b;
      assert RealizedPL(s).r == sp * b - s.buyValue;
      assert UnrealizedPL(s, mid).r == e * mid - sp * b + s.sellValue;
    } else {
      assert Min(b, q) == q;
      assert RealizedPL(s).r == s.sellValue - bp * q;
      assert UnrealizedPL(s, mid).r == e * mid - s.buyValue + bp * q;
    }
  }

  /** `AvgCost` as written: the cash result over the exposure. */
  function AvgCost(s: TradeLogSummary): (r: Fl)
    ensures r.R? <==> NetExposure(s) != 0.0
    ensures r.R? ==> r.r * NetExposure(s) == s.sellValue - s.buyValue
  {
    Div(s.sellValue - s.buyValue, s.buyAmount - s.sellAmount)
  }

  /** The average cost of the open position: what was paid for it, net,
      per unit held. */
  function BreakEven(s: TradeLogSummary): (r: Fl)
    ensures r.R? <==> NetExposure(s) != 0.0
  {
    Div(s.buyValue - s.sellValue, s.buyAmount - s.sellAmount)
  }

  /** Marked at its average cost, an open position has made nothing; a
      single buy of one unit at 100 costs 100 on average. */
  lemma BreakEvenSpec(s: TradeLogSummary)
    ensures BreakEven(s).R? ==> s.sellValue - s.buyValue + NetExposure(s) * BreakEven(s).r == 0.0
    ensures BreakEven(TradeLogSummary(s.pair, 0.0, 0.0, 1.0, 100.0, map[])) == R(100.0)
  {
  }

  /** `AvgCost` has the sign of the break-even price reversed: on one unit
      bought at 100 it gives -100. */
  lemma AvgCostSignFlip(s: TradeLogSummary)
    ensures AvgCost(s).R? ==> AvgCost(s).r == -BreakEven(s).r
    ensures AvgCost(TradeLogSummary(s.pair, 0.0, 0.0, 1.0, 100.0, map[])) == R(-100.0)
  {
  }

  // ---------------------------------------------------------------------
  // Net position

  /** `qty * sign`: the quantity, negated for a sell. */
  function Signed(t: TradeLog): (r: real)
    ensures t.side == BUY ==> r == t.quantity
    ensures t.side == SELL ==> r == -t.quantity
  {
    if t.side == SELL then -t.quantity else t.quantity
  }

  /** The balances after one pass of `Net`: the coin moves by the signed
      quantity, the base by its value the other way, and the commission
      asset pays the commission. */
  function NetStep(m: map<Coin, real>, t: TradeLog): map<Coin, real>
  {
    Credit(Credit(Credit(m, t.pair.coin, Signed(t)), t.pair.base, -Worth(t.price, Signed(t))),
           t.commissionAsset, -t.commission)
  }

  function NetOf(ts: seq<TradeLog>): map<Coin, real>
  {
    if ts == [] then map[] else NetStep(NetOf(ts[..|ts| - 1]), ts[|ts| - 1])
  }

  /** `TradeLogS.Net`: a new portfolio holding each trade's movements. */
  method Net(trades: seq<TradeLog>) returns (port: Portfolio)
    ensures fresh(port)
    ensures port.balances == NetOf(trades) && port.locked == map[] && port.contracts == []
  {
    port := new Portfolio.Empty();
    for i := 0 to |trades|
      invariant port.balances == NetOf(trades[..i]) && port.locked == map[] && port.contracts == []
    {
      var t := trades[i];
      var sign := 1.0;
      if t.side == SELL {
        sign := -1.0;
      }
      ghost var m0 := port.balances;
      assert t.quantity * sign == Signed(t);
      assert t.quantity * sign * -1.0 * t.price == -Worth(t.price, Signed(t));
      port.AddBalance(t.pair.coin, t.quantity * sign);
      port.AddBalance(t.pair.base, t.quantity * sign * -1.0 * t.price);
      port.AddBalance(t.commissionAsset, t.commission * -1.0);
      assert port.balances == NetStep(m0, t);
      assert trades[..i + 1][..i] == trades[..i];
    }
    assert trades[..|trades|] == trades;
  }

  /** One pass of `Net` moves coin `c` by the trade's parts that are in `c`. */
  lemma NetStepAt(m: map<Coin, real>, t: TradeLog, c: Coin)
    ensures Get(NetStep(m, t), c) == Get(m, c) + (if t.pair.coin == c then Signed(t) else 0.0)
      - (if t.pair.base == c then Worth(t.price, Signed(t)) else 0.0)
      - (if t.commissionAsset == c then t.commission else 0.0)
  {
    var m1 := Credit(m, t.pair.coin, Signed(t));
    var m2 := Credit(m1, t.pair.base, -Worth(t.price, Signed(t)));
    CreditSpec(m, t.pair.coin, Signed(t));
    CreditSpec(m1, t.pair.base, -Worth(t.price, Signed(t)));
    CreditSpec(m2, t.commissionAsset, -t.commission);
  }

  lemma SignedWorth(t: TradeLog)
    ensures Worth(t.price, Signed(t)) == (if t.side == SELL then -Worth(t.price, t.quantity) else Worth(t.price, t.quantity))
  {
  }

  /** `NetMatchesSummary` for one coin. */
  lemma {:induction false} NetMatchesSummaryAt(ts: seq<TradeLog>, p: Pair, c: Coin)
    requires forall k :: 0 <= k < |ts| ==> ts[k].pair == p
    requires p.coin != p.base
    ensures Get(NetOf(ts), c) ==
      (if c == p.coin then Amount(ts, p, BUY) - Amount(ts, p, SELL) else 0.0)
      + (if c == p.base then Value(ts, p, SELL) - Value(ts, p, BUY) else 0.0)
      - Fees(ts, p, c)
  {
    if ts != [] {
      var t := ts[|ts| - 1];
      var ts0 := ts[..|ts| - 1];
      NetMatchesSummaryAt(ts0, p, c);
      NetStepAt(NetOf(ts0), t, c);
      assert t.pair == p;
      SignedWorth(t);
      assert Amount(ts, p, BUY) - Amount(ts, p, SELL) == Amount(ts0, p, BUY) - Amount(ts0, p, SELL) + Signed(t);
      assert Value(ts, p, SELL) - Value(ts, p, BUY) == Value(ts0, p, SELL) - Value(ts0, p, BUY) - Worth(t.price, Signed(t));
      assert Fees(ts, p, c) == Fees(ts0, p, c) + (if t.commissionAsset == c then t.commission else 0.0);
    }
  }

  /** On the trades of one pair, `Net` agrees with `Summary`: the coin
      holds the net exposure, the base the cash result, and each asset is
      charged its commission. */
  lemma NetMatchesSummary(ts: seq<TradeLog>, p: Pair)
    requires forall k :: 0 <= k < |ts| ==> ts[k].pair == p
    requires p.coin != p.base
    ensures Get(NetOf(ts), p.coin) == Amount(ts, p, BUY) - Amount(ts, p, SELL) - Fees(ts, p, p.coin)
    ensures Get(NetOf(ts), p.base) == Value(ts, p, SELL) - Value(ts, p, BUY) - Fees(ts, p, p.base)
    ensures forall c :: c != p.coin && c != p.base ==> Get(NetOf(ts), c) == -Fees(ts, p, c)
  {
    NetMatchesSummaryAt(ts, p, p.coin);
    NetMatchesSummaryAt(ts, p, p.base);
    forall c | c != p.coin && c != p.base
      ensures Get(NetOf(ts), c) == -Fees(ts, p, c)
    {
      NetMatchesSummaryAt(ts, p, c);
    }
  }

  // ---------------------------------------------------------------------
  // Conversions

  /** One trade as a transaction: the amount carries the side in its
      sign, the seller made a sell, and the order id becomes the id. */
  function ToTxn(trd: TradeLog): (r: Transaction)
    ensures r.pair == trd.pair && r.price == trd.price && r.timeStamp == trd.time && r.txnID == trd.orderID
    ensures Abs(r.amount) == Abs(trd.quantity)
    ensures trd.side == SELL ==> r.amount <= 0.0 && r.maker == Seller
    ensures trd.side == BUY ==> r.amount >= 0.0 && r.maker == Buyer
  {
    var sign := if trd.side == SELL then -1.0 else 1.0;
    var maker := if trd.side == SELL then Seller else Buyer;
    Transaction(trd.pair, trd.price, Abs(trd.quantity) * sign, trd.time, maker, trd.orderID)
  }

  function Converted(ts: seq<TradeLog>): (r: seq<Transaction>)
    ensures |r| == |ts|
  {
    seq(|ts|, i requires 0 <= i < |ts| => ToTxn(ts[i]))
  }

  /** `TradeLogS.ToTransactions`: one transaction per trade, in order. */
  method ToTransactions(trades: seq<TradeLog>) returns (txns: seq<Transaction>)
    ensures |txns| == |trades|
    ensures forall i :: 0 <= i < |trades| ==> txns[i] == ToTxn(trades[i])
  {
    txns := [];
    for i := 0 to |trades|
      invariant |txns| == i
      invariant forall k :: 0 <= k < i ==> txns[k] == ToTxn(trades[k])
    {
      var trd := trades[i];
      var sign := 1.0;
      var maker := Buyer;
      if trd.side == SELL {
        sign := -1.0;
        maker := Seller;
      }
      txns := txns + [Transaction(trd.pair, trd.price, Abs(trd.quantity) * sign, trd.time, maker, trd.orderID)];
    }
  }

  /** The commission paid in `c` by all of `ts`. */
  function Commissions(ts: seq<TradeLog>, c: Coin): real
  {
    if ts == [] then 0.0
    else
      var t := ts[|ts| - 1];
      Commissions(ts[..|ts| - 1], c) + (if t.commissionAsset == c then t.commission else 0.0)
  }

  /** Booked as transactions, trades of non-negative quantity move every
      coin as `Net` does, less the commissions, which a transaction does
      not carry. */
  lemma {:induction false} EffectOfTrades(ts: seq<TradeLog>, c: Coin)
    requires forall k :: 0 <= k < |ts| ==> ts[k].quantity >= 0.0
    ensures Evaluate.Effect(Converted(ts), c) == Get(NetOf(ts), c) + Commissions(ts, c)
  {
    if ts != [] {
      var t := ts[|ts| - 1];
      var ts0 := ts[..|ts| - 1];
      EffectOfTrades(ts0, c);
      assert Converted(ts)[..|ts| - 1] == Converted(ts0);
      NetStepAt(NetOf(ts0), t, c);
      assert ToTxn(t).amount == Signed(t);
    }
  }

  // ---------------------------------------------------------------------
  // Since

  /** The trades strictly before `t`, in order. */
  function Before(ts: seq<TradeLog>, t: int): (r: seq<TradeLog>)
  {
    if ts == [] then []
    else Before(ts[..|ts| - 1], t) + (if ts[|ts| - 1].time < t then [ts[|ts| - 1]] else [])
  }

  /** The trades at or after `t`, in order. */
  function After(ts: seq<TradeLog>, t: int): (r: seq<TradeLog>)
  {
    if ts == [] then []
    else After(ts[..|ts| - 1], t) + (if ts[|ts| - 1].time < t then [] else [ts[|ts| - 1]])
  }

  /** `Before` and `After` one trade further on. */
  lemma PartsSnoc(ts: seq<TradeLog>, x: TradeLog, t: int)
    ensures Before(ts + [x], t) == Before(ts, t) + (if x.time < t then [x] else [])
    ensures After(ts + [x], t) == After(ts, t) + (if x.time < t then [] else [x])
  {
    assert (ts + [x])[..|ts|] == ts;
  }

  /** Every trade before `t` is earlier than `t`, every trade after it
      is not. */
  lemma {:induction false} PartsTimes(ts: seq<TradeLog>, t: int)
    ensures forall k :: 0 <= k < |Before(ts, t)| ==> Before(ts, t)[k].time < t
    ensures forall k :: 0 <= k < |After(ts, t)| ==> After(ts, t)[k].time >= t
  {
    if ts != [] {
      var ts0 := ts[..|ts| - 1];
      PartsTimes(ts0, t);
    }
  }

  /** The two parts hold every trade once. */
  lemma {:induction false} PartitionSpec(ts: seq<TradeLog>, t: int)
    ensures multiset(Before(ts, t)) + multiset(After(ts, t)) == multiset(ts)
  {
    if ts != [] {
      var ts0 := ts[..|ts| - 1];
      var x := ts[|ts| - 1];
      PartitionSpec(ts0, t);
      assert ts == ts0 + [x];
      PartsSnoc(ts0, x, t);
      var b0, a0 := multiset(Before(ts0, t)), multiset(After(ts0, t));
      assert multiset(ts) == multiset(ts0) + multiset{x};
      if x.time < t {
        assert multiset(Before(ts, t)) == b0 + multiset{x} && multiset(After(ts, t)) == a0;
      } else {
        assert multiset(Before(ts, t)) == b0 && multiset(After(ts, t)) == a0 + multiset{x};
      }
    }
  }

  /** Nothing is before `t` exactly when no trade is. */
  lemma {:induction false} BeforeEmpty(ts: seq<TradeLog>, t: int)
    ensures Before(ts, t) == [] <==> forall k :: 0 <= k < |ts| ==> ts[k].time >= t
  {
    if ts != [] {
      var ts0 := ts[..|ts| - 1];
      BeforeEmpty(ts0, t);
      assert forall k :: 0 <= k < |ts0| ==> ts[k] == ts0[k];
    }
  }

  /** `TradeLogS.Since(t)`: the trades at or after `t`, and the position
      the trades before `t` build from an empty portfolio, which is the
      last generated snapshot; there is none when no trade is before `t`.
      Booking order does not matter, so the position is each coin's net
      movement over those trades. */
  method Since(trades: seq<TradeLog>, t: int) returns (position: Option<map<Coin, real>>, after: seq<TradeLog>)
    ensures after == After(trades, t)
    ensures position.Some? <==> Before(trades, t) != []
    ensures position.Some? ==> forall c :: Get(position.value, c) == Evaluate.Effect(Converted(Before(trades, t)), c)
  {
    var before;
    before, after := Partition(trades, t);
    position := PositionOf(before);
  }

  /** The position `Since` reports for the trades before the time: the
      last snapshot the converted trades generate from an empty
      portfolio, none when there is no trade. */
  method PositionOf(before: seq<TradeLog>) returns (position: Option<map<Coin, real>>)
    ensures position.Some? <==> before != []
    ensures position.Some? ==> forall c :: Get(position.value, c) == Evaluate.Effect(Converted(before), c)
  {
    var txns := ToTransactions(before);
    assert txns == Converted(before);
    var arr := new Transaction[|txns|](i requires 0 <= i < |txns| => txns[i]);
    assert arr[..] == txns;
    var empty := new Portfolio.Empty();
    var snapts := Evaluate.GenerateSnapshotTS(arr, empty);
    LastSnapshot(arr[..], txns);
    if |snapts| > 0 {
      position := Some(snapts[|snapts| - 1].balances);
    } else {
      position := None;
    }
  }

  /** The loop of `Since` that parts the trades at `t`. */
  method Partition(trades: seq<TradeLog>, t: int) returns (before: seq<TradeLog>, after: seq<TradeLog>)
    ensures before == Before(trades, t) && after == After(trades, t)
  {
    before := [];
    after := [];
    for i := 0 to |trades|
      invariant before == Before(trades[..i], t) && after == After(trades[..i], t)
    {
      var trd := trades[i];
      PartsSnoc(trades[..i], trd, t);
      assert trades[..i] + [trd] == trades[..i + 1];
      if trd.time < t {
        before := before + [trd];
      } else {
        after := after + [trd];
      }
    }
    assert trades[..|trades|] == trades;
  }

  /** The last snapshot of a time-ordered permutation of `txns`, booked
      from nothing, holds every coin's net movement over `txns`. */
  lemma LastSnapshot(sorted: seq<Transaction>, txns: seq<Transaction>)
    requires multiset(sorted) == multiset(txns) && Evaluate.TimeOrdered(sorted)
    ensures var r := Evaluate.Snapshots(sorted, map[], map[]);
      (r == [] <==> txns == []) &&
      (r != [] ==> forall c :: Get(r[|r| - 1].balances, c) == Evaluate.Effect(txns, c))
  {
    Evaluate.SnapshotsSpec(sorted, map[], map[]);
    assert |sorted| == |multiset(sorted)| == |txns|;
    if sorted != [] {
      var r := Evaluate.Snapshots(sorted, map[], map[]);
      forall c ensures Get(r[|r| - 1].balances, c) == Evaluate.Effect(txns, c) {
        Evaluate.BookedAllEffect(map[], sorted, c);
        Evaluate.EffectPermutation(sorted, txns, c);
      }
    }
  }

  // ---------------------------------------------------------------------
  // Minus, Pairs, Sort

  /** `time.Unix(v.Time.Unix(), 0)` applied to a trade. */
  function Align(v: TradeLog): (r: TradeLog)
    ensures r.time % Second == 0 && r.time <= v.time < r.time + Second
    ensures r == v.(time := r.time)
  {
    v.(time := WholeSeconds(v.time))
  }

  function AlignAll(s: seq<TradeLog>): (r: seq<TradeLog>)
    ensures |r| == |s|
  {
    seq(|s|, i requires 0 <= i < |s| => Align(s[i]))
  }

  /** The trades of `s` equal to no trade of `other`, in order. */
  function Unmatched(s: seq<TradeLog>, other: seq<TradeLog>): (r: seq<TradeLog>)
    ensures forall x :: x in r <==> x in s && x !in other
  {
    if s == [] then []
    else
      var r0 := Unmatched(s[..|s| - 1], other);
      assert s == s[..|s| - 1] + [s[|s| - 1]];
      if s[|s| - 1] in other then r0 else r0 + [s[|s| - 1]]
  }

  /** `TradeLogS.Minus`: aligns the argument's times to whole seconds in
      place, then keeps the receiver's trades, aligned the same way, that
      equal none of the argument's. */
  method Minus(trds1: seq<TradeLog>, trds2: array<TradeLog>) returns (res: seq<TradeLog>)
    modifies trds2
    ensures trds2[..] == AlignAll(old(trds2[..]))
    ensures res == Unmatched(AlignAll(trds1), trds2[..])
  {
    for i := 0 to trds2.Length
      invariant forall k :: 0 <= k < i ==> trds2[k] == Align(old(trds2[k]))
      invariant forall k :: i <= k < trds2.Length ==> trds2[k] == old(trds2[k])
    {
      trds2[i] := Align(trds2[i]);
    }
    assert forall k :: 0 <= k < trds2.Length ==> trds2[..][k] == AlignAll(old(trds2[..]))[k];
    res := [];
    var aligned := AlignAll(trds1);
    for i := 0 to |trds1|
      invariant trds2[..] == AlignAll(old(trds2[..]))
      invariant res == Unmatched(aligned[..i], trds2[..])
    {
      var v := Align(trds1[i]);
      assert aligned[..i + 1][..i] == aligned[..i];
      var found := Utils.Contains(trds2[..], v);
      if !found {
        res := res + [v];
      }
    }
    assert aligned[..|trds1|] == aligned;
  }

  /** `TradeLogS.Pairs`: the distinct pairs in the order they first
      appear; `firsts` gives, for each, the index of its first trade. */
  method PairsOf(tls: seq<TradeLog>) returns (pairs: seq<Pair>, ghost firsts: seq<nat>)
    ensures Distinct(pairs)
    ensures forall p :: p in pairs <==> exists k :: 0 <= k < |tls| && tls[k].pair == p
    ensures |firsts| == |pairs|
    ensures forall i :: 0 <= i < |pairs| ==> firsts[i] < |tls| && tls[firsts[i]].pair == pairs[i]
    ensures forall i, k :: 0 <= i < |pairs| && 0 <= k < firsts[i] ==> tls[k].pair != pairs[i]
    ensures forall i, j :: 0 <= i < j < |pairs| ==> firsts[i] < firsts[j]
  {
    pairs, firsts := [], [];
    for n := 0 to |tls|
      invariant Distinct(pairs) && |firsts| == |pairs|
      invariant forall p :: p in pairs <==> exists k :: 0 <= k < n && tls[k].pair == p
      invariant forall i :: 0 <= i < |pairs| ==> firsts[i] < n && tls[firsts[i]].pair == pairs[i]
      invariant forall i, k :: 0 <= i < |pairs| && 0 <= k < firsts[i] ==> tls[k].pair != pairs[i]
      invariant forall i, j :: 0 <= i < j < |pairs| ==> firsts[i] < firsts[j]
    {
      var found := Utils.Contains(pairs, tls[n].pair);
      if !found {
        pairs, firsts := pairs + [tls[n].pair], firsts + [n];
      }
    }
  }

  /** `TradeLogS.Sort`: orders the trades in place by time. */
  method Sort(t: array<TradeLog>)
    modifies t
    ensures multiset(t[..]) == multiset(old(t[..]))
    ensures forall i, j :: 0 <= i < j < t.Length ==> t[i].time <= t[j].time
  {
    var before := (a: TradeLog, b: TradeLog) => a.time < b.time;
    Sorting.ByKey(t[..], before, (a: TradeLog) => a.time as real);
    Sorting.SortSlice(t, before);
  }
}
