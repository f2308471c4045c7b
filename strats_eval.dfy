/**
 * strats/eval.go: the interval performance of a trade log marked with a
 * transaction tape. The bucketing and the marking are those of eval.go
 * (module Eval), reading each transaction as a quote of its pair, price
 * and time stamp. `GenPerf0` takes the tape for the span of the trades
 * from the market data service: BTC/USDT and every other coin of the
 * traded pairs against BTC; the service is the parameter `fetch`.
 */
module StratsEval {
  import opened Coins
  import opened Pairs
  import opened Txns
  import opened TradeLogs
  import opened Portfolios
  import opened Num
  import Eval
  import Evaluate

  /** `GetTransactions(pair, start, end)` of the market data service. */
  type FetchFn = (Pair, int, int) -> seq<Transaction>

  /** The tape read as quotes: pair, price and time stamp. */
  function TxnQuotes(txn: seq<Transaction>): (qs: seq<Eval.Quote>)
    ensures |qs| == |txn|
    ensures forall k :: 0 <= k < |txn| ==> qs[k] == Eval.Quote(txn[k].pair, txn[k].price, txn[k].timeStamp)
  {
    seq(|txn|, k requires 0 <= k < |txn| => Eval.Quote(txn[k].pair, txn[k].price, txn[k].timeStamp))
  }

  /** `inBTC` over a tape: the last rate of `coin` in BTC it gives up to
      and including the first transaction after `cut`, 1 for BTC and NaN
      when it gives none. */
  method InBTC(txn: seq<Transaction>, coin: Coin, cut: int) returns (rate: Fl)
    ensures rate == Eval.Rate(TxnQuotes(txn), coin, cut)
    ensures coin == BTC ==> rate == R(1.0)
  {
    rate := Eval.InBTC(TxnQuotes(txn), coin, cut);
  }

  /** `GenPerf`: sorts the caller's trade log in place, buckets it from a
      clone of `init` and marks every snapshot with the tape. */
  method GenPerf(tls: array<TradeLog>, init: Portfolio, interval: int, txn: seq<Transaction>, age: Eval.AgeFn)
    returns (perf: Eval.Perf, ghost orders: seq<seq<Coin>>)
    requires interval > 0
    modifies tls
    ensures multiset(tls[..]) == multiset(old(tls[..])) && Eval.InTimeOrder(tls[..])
    ensures Eval.Describes(perf, tls[..], Eval.Holding(init.balances, init.locked), interval, TxnQuotes(txn), age, orders)
  {
    Sort(tls);
    var ts := tls[..];
    perf, orders := Eval.Evaluated(ts, Eval.Holding(init.balances, init.locked), interval, TxnQuotes(txn), age);
  }

  /** `start` and `end` are the earliest and the latest time of `tls`. */
  ghost predicate Spans(tls: seq<TradeLog>, start: int, end: int)
  {
    (forall k :: 0 <= k < |tls| ==> start <= tls[k].time <= end) &&
    (exists k :: 0 <= k < |tls| && tls[k].time == start) &&
    (exists k :: 0 <= k < |tls| && tls[k].time == end)
  }

  /** `coins` are the coins `tls` trades, as coin or as base. */
  ghost predicate Trades(tls: seq<TradeLog>, coins: seq<Coin>)
  {
    forall c :: c in coins <==> exists k :: 0 <= k < |tls| && c in {tls[k].pair.coin, tls[k].pair.base}
  }

  /** The first loop of `GenPerf0`: the earliest and the latest trade
      time. */
  method Span(tls: seq<TradeLog>) returns (start: int, end: int)
    requires |tls| > 0
    ensures Spans(tls, start, end)
  {
    start, end := tls[0].time, tls[0].time;
    ghost var first, last := 0, 0;
    for i := 0 to |tls|
      invariant first < |tls| && tls[first].time == start
      invariant last < |tls| && tls[last].time == end
      invariant forall k :: 0 <= k < i ==> start <= tls[k].time <= end
    {
      if tls[i].time < start {
        start, first := tls[i].time, i;
      }
      if tls[i].time > end {
        end, last := tls[i].time, i;
      }
    }
  }

  /** The tape `GenPerf0` gathers before sorting: BTC/USDT, then each
      coin other than BTC and USDT against BTC, in the order of
      `coins`. */
  function Gathered(fetch: FetchFn, coins: seq<Coin>, start: int, end: int): (txn: seq<Transaction>)
  {
    if coins == [] then fetch(Pair(BTC, USDT), start, end)
    else
      var c := coins[|coins| - 1];
      Gathered(fetch, coins[..|coins| - 1], start, end) +
        (if c != BTC && c != USDT then fetch(Pair(c, BTC), start, end) else [])
  }

  /** The gathered tape holds every BTC/USDT transaction and every
      transaction of each other coin against BTC. */
  lemma {:induction false} GatheredHolds(fetch: FetchFn, coins: seq<Coin>, start: int, end: int)
    ensures forall c, t :: c in coins && c != BTC && c != USDT && t in fetch(Pair(c, BTC), start, end) ==>
              t in Gathered(fetch, coins, start, end)
    ensures forall t :: t in fetch(Pair(BTC, USDT), start, end) ==> t in Gathered(fetch, coins, start, end)
  {
    if coins != [] {
      var init := coins[..|coins| - 1];
      GatheredHolds(fetch, init, start, end);
      assert forall c :: c in coins ==> c in init || c == coins[|coins| - 1];
    }
  }

  /** The loop of `GenPerf0` that fetches the tape. */
  method Gather(fetch: FetchFn, traded: seq<Coin>, first: int, last: int) returns (all: seq<Transaction>)
    ensures all == Gathered(fetch, traded, first, last)
  {
    all := fetch(Pair(BTC, USDT), first, last);
    for i := 0 to |traded|
      invariant all == Gathered(fetch, traded[..i], first, last)
    {
      assert traded[..i + 1][..i] == traded[..i];
      if traded[i] != BTC && traded[i] != USDT {
        all := all + fetch(Pair(traded[i], BTC), first, last);
      }
    }
    assert traded[..|traded|] == traded;
  }

  /** `GenPerf0`: the zero `Perf` for an empty trade log; otherwise the
      tape over the trades' span, sorted by time, and `GenPerf` from an
      empty portfolio. */
  method GenPerf0(tls: array<TradeLog>, interval: int, fetch: FetchFn, age: Eval.AgeFn)
    returns (perf: Eval.Perf, ghost orders: seq<seq<Coin>>, ghost txn: seq<Transaction>,
             ghost start: int, ghost end: int, ghost coins: seq<Coin>)
    requires interval > 0
    modifies tls
    ensures tls.Length == 0 ==> perf == Eval.ZeroPerf
    ensures multiset(tls[..]) == multiset(old(tls[..])) && (tls.Length > 0 ==> Eval.InTimeOrder(tls[..]))
    ensures tls.Length > 0 ==> Spans(old(tls[..]), start, end)
    ensures tls.Length > 0 ==> Trades(old(tls[..]), coins)
    ensures tls.Length > 0 ==>
              multiset(txn) == multiset(Gathered(fetch, coins, start, end)) && Evaluate.TimeOrdered(txn) &&
              Eval.Describes(perf, tls[..], Eval.Holding(map[], map[]), interval, TxnQuotes(txn), age, orders)
  {
    ghost var orig := tls[..];
    var init := new Portfolio.Empty();
    var pairs, firsts := PairsOf(tls[..]);
    if tls.Length == 0 {
      return Eval.ZeroPerf, [], [], 0, 0, [];
    }
    var first, last := Span(tls[..]);
    var traded := AllCoins(pairs);
    start, end, coins := first, last, traded;
    var all := Gather(fetch, traded, first, last);
    var tape := new Transaction[|all|](k requires 0 <= k < |all| => all[k]);
    assert tape[..] == all;
    Evaluate.SortTransactions(tape);
    var sorted := tape[..];
    txn := sorted;
    CoinsOfPairs(orig, pairs, traded);
    perf, orders := GenPerf(tls, init, interval, sorted, age);
  }

  /** The coins `AllCoins` lists for the pairs of a trade log are those
      traded, as coin or as base. */
  lemma CoinsOfPairs(tls: seq<TradeLog>, pairs: seq<Pair>, coins: seq<Coin>)
    requires forall p :: p in pairs <==> exists k :: 0 <= k < |tls| && tls[k].pair == p
    requires coins == AllCoinsSpec(pairs, [])
    ensures Trades(tls, coins)
  {
    AllCoinsSpecDistinct(pairs, []);
    forall c | c in coins
      ensures exists k :: 0 <= k < |tls| && c in {tls[k].pair.coin, tls[k].pair.base}
    {
      var j :| 0 <= j < |pairs| && (c == pairs[j].base || c == pairs[j].coin);
      assert pairs[j] in pairs;
      var k :| 0 <= k < |tls| && tls[k].pair == pairs[j];
    }
    forall c | exists k :: 0 <= k < |tls| && c in {tls[k].pair.coin, tls[k].pair.base}
      ensures c in coins
    {
      var k :| 0 <= k < |tls| && c in {tls[k].pair.coin, tls[k].pair.base};
      assert tls[k].pair in pairs;
    }
  }

  /** `MaxDrawdown`: `MaxDD` of the USDT marks. */
  method MaxDrawdown(perf: Eval.Perf) returns (dd: real)
    requires |perf.mtmUSD| > 0
    requires forall i :: 0 <= i < |perf.mtmUSD| ==> perf.mtmUSD[i].R?
    ensures forall k, j :: 0 <= k <= j < |perf.mtmUSD| ==> perf.mtmUSD[k].r - perf.mtmUSD[j].r <= dd
    ensures exists k, j :: 0 <= k <= j < |perf.mtmUSD| && dd == perf.mtmUSD[k].r - perf.mtmUSD[j].r
    ensures dd >= 0.0
  {
    dd := Evaluate.MaxDD(Eval.Values(perf.mtmUSD));
  }
}
