/**
 * The trading statistics of trstat.go: for a whole portfolio, over its
 * performance series, and for a single coin, over the value series of
 * that coin alone.
 */
module TradeStats {
  import opened Wrappers
  import opened Num
  import opened Coins
  import opened Pairs
  import opened Txns
  import opened Portfolios
  import opened Evaluate
  import Sorting

  /** `TradestatPort`: the trades (sorted by the snapshot generation, which
      sorts the caller's slice), the valuation base and rates, and the
      performance series. */
  datatype TradestatPort = TradestatPort(
    mtmBase: Coin, ts: seq<Transaction>, ratesBook: ReferenceRateBook, permTS: seq<Performance>)

  /** `Tradestat`: snapshots of the trades from `p`, each valued at the
      base at the rates found for it (ghost `rates`, its coins taken in the
      map order `orders`); `None` exactly where the valuation meets a zero
      rate. */
  method Tradestat(mtmbase: Coin, ts: array<Transaction>, p: Portfolio, ratesbook: ReferenceRateBook)
    returns (r: Option<TradestatPort>, orders: seq<seq<Coin>>, ghost rates: seq<seq<real>>)
    modifies ts
    ensures multiset(ts[..]) == multiset(old(ts[..])) && TimeOrdered(ts[..])
    ensures var s := Snapshots(ts[..], old(p.balances), old(p.locked));
      |orders| == |s| && (forall i :: 0 <= i < |s| ==> Enumerates(orders[i], s[i].balances)) &&
      exists ss :: MarksOf(s, mtmbase, ratesbook, orders, rates, ss)
    ensures r.Some? <==> |rates| == |orders| && AllPriced(orders, rates, |rates|)
    ensures r.Some? ==> r.value.ts == ts[..] && r.value.mtmBase == mtmbase && r.value.ratesBook == ratesbook
    ensures r.Some? ==> var s := Snapshots(ts[..], old(p.balances), old(p.locked));
      |r.value.permTS| == |s| && Chained(r.value.permTS) &&
      forall i :: 0 <= i < |s| ==> ValuedAt(r.value.permTS[i], s[i], mtmbase, orders[i], rates[i])
  {
    var ssTS := GenerateSnapshotTS(ts, p);
    orders := OrdersOf(ssTS);
    var permTS;
    ghost var ss;
    permTS, rates, ss := EvaluateSnapshotTS(ssTS, mtmbase, ratesbook, orders);
    if permTS.None? {
      return None, orders, rates;
    }
    r := Some(TradestatPort(mtmbase, ts[..], ratesbook, permTS.value));
  }

  // ---------------------------------------------------------------------
  // AllCoin

  /** The coins of the trades' pairs, each trade giving its coin and then
      its base. */
  function Legs(ts: seq<Transaction>): (r: seq<Coin>)
    ensures |r| == 2 * |ts|
  {
    if ts == [] then [] else Legs(ts[..|ts| - 1]) + [ts[|ts| - 1].pair.coin, ts[|ts| - 1].pair.base]
  }

  /** The elements of `s` in the order they first appear, each once. */
  function Dedup(s: seq<Coin>): (r: seq<Coin>)
  {
    if s == [] then []
    else
      var r0 := Dedup(s[..|s| - 1]);
      if s[|s| - 1] in r0 then r0 else r0 + [s[|s| - 1]]
  }

  /** `Dedup` keeps every element once and adds none. */
  lemma {:induction false} DedupSpec(s: seq<Coin>)
    ensures Distinct(Dedup(s))
    ensures forall x :: x in Dedup(s) <==> x in s
  {
    if s != [] {
      var s0 := s[..|s| - 1];
      DedupSpec(s0);
      assert s == s0 + [s[|s| - 1]];
    }
  }

  lemma DedupSnoc(s: seq<Coin>, x: Coin)
    ensures Dedup(s + [x]) == if x in Dedup(s) then Dedup(s) else Dedup(s) + [x]
  {
    assert (s + [x])[..|s|] == s;
  }

  /** One pass of `AllCoin`: the coin and the base are each looked up in
      the coins listed so far, and each is appended when absent. */
  function AddLegs(coins: seq<Coin>, t: Transaction): seq<Coin>
  {
    coins + (if t.pair.coin in coins then [] else [t.pair.coin])
          + (if t.pair.base in coins then [] else [t.pair.base])
  }

  function AllCoinOf(ts: seq<Transaction>): seq<Coin>
  {
    if ts == [] then [] else AddLegs(AllCoinOf(ts[..|ts| - 1]), ts[|ts| - 1])
  }

  /** `AllCoin` lists every coin of every pair. When no trade has a pair
      whose coin is its base, it lists each once in first-appearance order,
      a trade's coin before its base. */
  lemma AllCoinSpec(ts: seq<Transaction>)
    ensures forall c :: c in AllCoinOf(ts) <==> c in Legs(ts)
    ensures (forall k :: 0 <= k < |ts| ==> ts[k].pair.coin != ts[k].pair.base) ==>
      AllCoinOf(ts) == Dedup(Legs(ts))
  {
    AllCoinHas(ts);
    if forall k :: 0 <= k < |ts| ==> ts[k].pair.coin != ts[k].pair.base {
      AllCoinDedup(ts);
    }
  }

  lemma {:induction false} AllCoinHas(ts: seq<Transaction>)
    ensures forall c :: c in AllCoinOf(ts) <==> c in Legs(ts)
  {
    if ts != [] {
      var t := ts[|ts| - 1];
      var ts0 := ts[..|ts| - 1];
      AllCoinHas(ts0);
      assert Legs(ts) == Legs(ts0) + [t.pair.coin] + [t.pair.base];
    }
  }

  lemma {:induction false} AllCoinDedup(ts: seq<Transaction>)
    requires forall k :: 0 <= k < |ts| ==> ts[k].pair.coin != ts[k].pair.base
    ensures AllCoinOf(ts) == Dedup(Legs(ts))
  {
    if ts != [] {
      var t := ts[|ts| - 1];
      var ts0 := ts[..|ts| - 1];
      assert forall k :: 0 <= k < |ts0| ==> ts0[k] == ts[k];
      AllCoinDedup(ts0);
      assert Legs(ts) == Legs(ts0) + [t.pair.coin] + [t.pair.base];
      DedupTwo(Legs(ts0), t.pair.coin, t.pair.base);
    }
  }

  /** A coin and a different base appended: each is added when not
      already there. */
  lemma DedupTwo(l0: seq<Coin>, c: Coin, b: Coin)
    requires c != b
    ensures var d0 := Dedup(l0);
      Dedup(l0 + [c] + [b]) == d0 + (if c in d0 then [] else [c]) + (if b in d0 then [] else [b])
  {
    DedupSnoc(l0, c);
    DedupSnoc(l0 + [c], b);
    var d0 := Dedup(l0);
    var d1 := if c in d0 then d0 else d0 + [c];
    assert b in d1 <==> b in d0;
  }

  /** The inner loop of `AllCoin`: how often each of `c` and `b` is in
      `coins`, of which only "never" matters. */
  method CountIn(coins: seq<Coin>, c: Coin, b: Coin) returns (indC: int, indB: int)
    ensures indC == 0 <==> c !in coins
    ensures indB == 0 <==> b !in coins
  {
    indC, indB := 0, 0;
    for j := 0 to |coins|
      invariant indC >= 0 && indB >= 0
      invariant indC == 0 <==> c !in coins[..j]
      invariant indB == 0 <==> b !in coins[..j]
    {
      assert coins[..j + 1] == coins[..j] + [coins[j]];
      if coins[j] != c {
        indC := indC + 0;
      } else {
        indC := indC + 1;
      }
      if coins[j] != b {
        indB := indB + 0;
      } else {
        indB := indB + 1;
      }
    }
    assert coins[..|coins|] == coins;
  }

  /** `TradestatPort.AllCoin`. */
  method AllCoin(pfst: TradestatPort) returns (coins: seq<Coin>)
    ensures coins == AllCoinOf(pfst.ts)
  {
    coins := [];
    for n := 0 to |pfst.ts|
      invariant coins == AllCoinOf(pfst.ts[..n])
    {
      var v := pfst.ts[n];
      assert pfst.ts[..n + 1][..n] == pfst.ts[..n];
      var indC, indB := CountIn(coins, v.pair.coin, v.pair.base);
      if indC == 0 {
        coins := coins + [v.pair.coin];
      }
      if indB == 0 {
        coins := coins + [v.pair.base];
      }
    }
    assert pfst.ts[..|pfst.ts|] == pfst.ts;
  }

  // ---------------------------------------------------------------------
  // Sums

  /** `TradestatPort.NetPnL`: the changes of the series added up, which
      for a chained series is its last value less its first. */
  method NetPnL(pfst: TradestatPort) returns (netPnL: real)
    ensures netPnL == SumPnL(pfst.permTS)
    ensures Chained(pfst.permTS) && |pfst.permTS| > 0 ==>
      netPnL == pfst.permTS[|pfst.permTS| - 1].pv - pfst.permTS[0].pv
  {
    netPnL := 0.0;
    for i := 0 to |pfst.permTS|
      invariant netPnL == SumPnL(pfst.permTS[..i])
    {
      assert pfst.permTS[..i + 1][..i] == pfst.permTS[..i];
      netPnL := netPnL + pfst.permTS[i].pnl;
    }
    assert pfst.permTS[..|pfst.permTS|] == pfst.permTS;
    if Chained(pfst.permTS) && |pfst.permTS| > 0 {
      Telescoping(pfst.permTS);
    }
  }

  /** The sizes of the trades, regardless of side. */
  function SumAbs(ts: seq<Transaction>): (r: real)
    ensures r >= 0.0
    ensures r == 0.0 <==> forall k :: 0 <= k < |ts| ==> ts[k].amount == 0.0
  {
    if ts == [] then 0.0
    else
      var r0 := SumAbs(ts[..|ts| - 1]);
      assert forall k :: 0 <= k < |ts| - 1 ==> ts[..|ts| - 1][k] == ts[k];
      r0 + Abs(ts[|ts| - 1].amount)
  }

  /** `TradestatPort.TotalTransactionAmount`. */
  method TotalTransactionAmount(pfst: TradestatPort) returns (totalAmount: real)
    ensures totalAmount == SumAbs(pfst.ts)
    ensures totalAmount >= 0.0
  {
    totalAmount := 0.0;
    for i := 0 to |pfst.ts|
      invariant totalAmount == SumAbs(pfst.ts[..i])
    {
      assert pfst.ts[..i + 1][..i] == pfst.ts[..i];
      totalAmount := totalAmount + Abs(pfst.ts[i].amount);
    }
    assert pfst.ts[..|pfst.ts|] == pfst.ts;
  }

  /** `TradestatPort.AveragePnL`: the net result per point of the series;
      no value for an empty series. */
  method AveragePnL(pfst: TradestatPort) returns (avg: Fl)
    ensures avg.R? <==> |pfst.permTS| > 0
    ensures avg.R? ==> avg.r * (|pfst.permTS| as real) == SumPnL(pfst.permTS)
  {
    var netPnL := NetPnL(pfst);
    avg := Div(netPnL, |pfst.permTS| as real);
  }

  // ---------------------------------------------------------------------
  // Drawdown of the portfolio

  function PVs(ps: seq<Performance>): (r: seq<real>)
    ensures |r| == |ps| && forall i :: 0 <= i < |ps| ==> r[i] == ps[i].pv
  {
    seq(|ps|, i requires 0 <= i < |ps| => ps[i].pv)
  }

  /** The entry `MaxDrawdown` appends for point `j`: the running maximum
      before the point, less the point, so negative at a new high. */
  function Entry(pv: seq<real>, j: nat): (e: real)
    requires j < |pv|
    ensures e <= Fall(pv, j)
    ensures e > 0.0 || Fall(pv, j) > 0.0 ==> e == Fall(pv, j)
  {
    if j == 0 then pv[0] - pv[0] else Peak(pv, j - 1) - pv[j]
  }

  /** The drawdown series as `MaxDrawdown` builds it: a leading 0, then
      one entry per point. */
  function Drawdown(pv: seq<real>): (r: seq<real>)
    ensures |r| == |pv| + 1 && r[0] == 0.0
    ensures forall j :: 0 <= j < |pv| ==> r[j + 1] == Entry(pv, j)
  {
    [0.0] + seq(|pv|, j requires 0 <= j < |pv| => Entry(pv, j))
  }

  /** The largest entry of the drawdown series is the largest fall from an
      earlier (or the same) point to a later one. */
  lemma DrawdownMax(pv: seq<real>, m: real) returns (k: nat, j: nat)
    requires |pv| > 0
    requires m in Drawdown(pv) && forall x :: x in Drawdown(pv) ==> x <= m
    ensures forall k', j' :: 0 <= k' <= j' < |pv| ==> pv[k'] - pv[j'] <= m
    ensures k <= j < |pv| && m == pv[k] - pv[j]
  {
    var d := Drawdown(pv);
    assert d[0] in d;
    forall k', j' | 0 <= k' <= j' < |pv|
      ensures pv[k'] - pv[j'] <= m
    {
      if Fall(pv, j') > 0.0 {
        assert d[j' + 1] in d;
      }
    }
    if m == 0.0 {
      k, j := 0, 0;
    } else {
      var i :| 0 <= i < |d| && d[i] == m;
      assert i != 0 by {
        assert d[0] == 0.0;
      }
      j := i - 1;
      assert d[j + 1] == Entry(pv, j);
      assert Entry(pv, j) == Fall(pv, j);
      k := PeakAttained(pv, j);
    }
  }

  predicate Ascending(s: seq<real>)
  {
    forall i, j :: 0 <= i < j < |s| ==> s[i] <= s[j]
  }

  /** Sorts the backing array of a series in place, ascending. */
  method SortReals(a: array<real>)
    modifies a
    ensures multiset(a[..]) == multiset(old(a[..]))
    ensures Ascending(a[..])
  {
    var less := (x: real, y: real) => x < y;
    Sorting.ByKey(a[..], less, (x: real) => x);
    Sorting.SortSlice(a, less);
  }

  /** The series in the backing array that `drawdown` and `cloneDD`
      share, after `sort.Float64s(cloneDD)`. */
  method SortShared(drawdown: seq<real>) returns (dd: seq<real>)
    ensures multiset(dd) == multiset(drawdown) && Ascending(dd)
  {
    var backing := new real[|drawdown|](i requires 0 <= i < |drawdown| => drawdown[i]);
    assert backing[..] == drawdown;
    SortReals(backing);
    dd := backing[..];
  }

  /** The loop of `MaxDrawdown`: the drawdown series of the values. */
  method DrawdownSeries(pv: seq<real>) returns (drawdown: seq<real>)
    requires |pv| > 0
    ensures drawdown == Drawdown(pv)
  {
    drawdown := [];
    var maxsofar := 0.0;
    for i := 0 to |pv|
      invariant |drawdown| == (if i == 0 then 0 else i + 1)
      invariant i > 0 ==> drawdown[0] == 0.0 && maxsofar == Peak(pv, i - 1)
      invariant forall j :: 0 <= j < i ==> drawdown[j + 1] == Entry(pv, j)
    {
      if i == 0 {
        maxsofar := pv[0];
        drawdown := drawdown + [0.0];
      }
      // both branches of the source append the same entry
      drawdown := drawdown + [Entry(pv, i)];
      if pv[i] > maxsofar {
        maxsofar := pv[i];
      }
    }
    DrawdownIs(pv, drawdown);
  }

  /** A series with a leading 0 and then each entry is `Drawdown`. */
  lemma DrawdownIs(pv: seq<real>, d: seq<real>)
    requires |d| == |pv| + 1 && d[0] == 0.0
    requires forall j :: 0 <= j < |pv| ==> d[j + 1] == Entry(pv, j)
    ensures d == Drawdown(pv)
  {
    var r := Drawdown(pv);
    forall k | 0 <= k < |d|
      ensures d[k] == r[k]
    {
      if k > 0 {
        assert d[(k - 1) + 1] == Entry(pv, k - 1);
      }
    }
  }

  /** `TradestatPort.MaxDrawdown` as written: `cloneDD := drawdown` shares
      the backing array, so sorting the clone sorts the series that is
      returned too. The series holds the drawdown entries in ascending
      order; the maximum is its last element, the largest fall of the
      values, and never negative. An empty series indexes out of range. */
  method MaxDrawdown(pfst: TradestatPort) returns (dd: seq<real>, maxDD: real)
    requires |pfst.permTS| > 0
    ensures |dd| == |pfst.permTS| + 1
    ensures multiset(dd) == multiset(Drawdown(PVs(pfst.permTS))) && Ascending(dd)
    ensures maxDD == dd[|dd| - 1]
    ensures var pv := PVs(pfst.permTS);
      (forall k, j :: 0 <= k <= j < |pv| ==> pv[k] - pv[j] <= maxDD) &&
      (exists k, j :: 0 <= k <= j < |pv| && maxDD == pv[k] - pv[j])
    ensures maxDD >= 0.0
  {
    var pv := PVs(pfst.permTS);
    var drawdown := DrawdownSeries(pv);
    dd := SortShared(drawdown);
    maxDD := dd[|dd| - 1];
    SortedDrawdown(pv, dd);
  }

  /** The last entry of an ascending permutation of the drawdown series is
      the largest fall of the values, and not negative. */
  lemma SortedDrawdown(pv: seq<real>, dd: seq<real>)
    requires |pv| > 0 && multiset(dd) == multiset(Drawdown(pv)) && Ascending(dd)
    ensures |dd| == |pv| + 1
    ensures (forall k, j :: 0 <= k <= j < |pv| ==> pv[k] - pv[j] <= dd[|dd| - 1]) &&
      (exists k, j :: 0 <= k <= j < |pv| && dd[|dd| - 1] == pv[k] - pv[j])
    ensures dd[|dd| - 1] >= 0.0
  {
    var drawdown := Drawdown(pv);
    assert |dd| == |multiset(dd)| == |drawdown|;
    var m := dd[|dd| - 1];
    LastIsMax(dd, drawdown);
    var k, j := DrawdownMax(pv, m);
    ZeroIn(drawdown, m);
  }

  /** The last element of an ascending permutation of `s` is an element of
      `s` and no smaller than any. */
  lemma LastIsMax(dd: seq<real>, s: seq<real>)
    requires |dd| > 0 && multiset(dd) == multiset(s) && Ascending(dd)
    ensures dd[|dd| - 1] in s && forall x :: x in s ==> x <= dd[|dd| - 1]
  {
    assert dd[|dd| - 1] in multiset(s);
    forall x | x in s
      ensures x <= dd[|dd| - 1]
    {
      assert x in multiset(dd);
      var i :| 0 <= i < |dd| && dd[i] == x;
    }
  }

  lemma ZeroIn(d: seq<real>, m: real)
    requires |d| > 0 && d[0] == 0.0 && forall x :: x in d ==> x <= m
    ensures m >= 0.0
  {
    assert d[0] in d;
  }

  /** `MaxDrawdown` as evidently intended: the series keeps time order,
      and the maximum is the largest fall. */
  method MaxDrawdownInOrder(pfst: TradestatPort) returns (dd: seq<real>, maxDD: real)
    requires |pfst.permTS| > 0
    ensures dd == Drawdown(PVs(pfst.permTS))
    ensures var pv := PVs(pfst.permTS);
      (forall k, j :: 0 <= k <= j < |pv| ==> pv[k] - pv[j] <= maxDD) &&
      (exists k, j :: 0 <= k <= j < |pv| && maxDD == pv[k] - pv[j])
    ensures maxDD >= 0.0
  {
    var pv := PVs(pfst.permTS);
    dd := DrawdownSeries(pv);
    maxDD := Largest(dd);
    forall x | x in dd
      ensures x <= maxDD
    {
      var i :| 0 <= i < |dd| && dd[i] == x;
    }
    var k, j := DrawdownMax(pv, maxDD);
    assert dd[0] in dd;
  }

  /** The time-ordered drawdown series of values 2, 1, 2 is not ascending,
      so the series `MaxDrawdown` returns, which always is, differs from
      it. */
  lemma DrawdownOrderLost()
    ensures Drawdown([2.0, 1.0, 2.0]) == [0.0, 0.0, 1.0, 0.0]
    ensures !Ascending(Drawdown([2.0, 1.0, 2.0]))
  {
    var pv := [2.0, 1.0, 2.0];
    assert Entry(pv, 0) == 0.0 && Entry(pv, 1) == 1.0 && Entry(pv, 2) == 0.0;
    var d := Drawdown(pv);
    assert d[2] > d[3];
  }

  // ---------------------------------------------------------------------
  // Wins and losses

  /** The counters of a win/loss scan. */
  datatype Counters = Counters(winNum: real, lossNum: real, winAmount: real, lossAmount: real)

  /** How the change at `i > 0` updates the counters: a rise is a win, a
      fall a loss, no change neither. */
  function Tally(c: Counters, pv: seq<real>, i: nat): Counters
    requires 0 < i < |pv|
  {
    var change := pv[i] - pv[i - 1];
    if change > 0.0 then c.(winNum := c.winNum + 1.0, winAmount := c.winAmount + change)
    else if change < 0.0 then c.(lossNum := c.lossNum + 1.0, lossAmount := c.lossAmount + change)
    else c
  }

  /** The counters after the changes of `pv`, oldest first. */
  function Tallied(pv: seq<real>): Counters
  {
    if |pv| <= 1 then Counters(0.0, 0.0, 0.0, 0.0) else Tally(Tallied(pv[..|pv| - 1]), pv, |pv| - 1)
  }

  /** Wins and losses together are at most the changes; the won amount is
      non-negative and positive exactly when something was won, the lost
      amount likewise non-positive; together they add up to the last value
      less the first. */
  lemma {:induction false} TalliedSpec(pv: seq<real>)
    requires |pv| > 0
    ensures var c := Tallied(pv);
      0.0 <= c.winNum && 0.0 <= c.lossNum && c.winNum + c.lossNum <= (|pv| - 1) as real &&
      c.winAmount >= 0.0 && (c.winAmount > 0.0 <==> c.winNum > 0.0) &&
      c.lossAmount <= 0.0 && (c.lossAmount < 0.0 <==> c.lossNum > 0.0) &&
      c.winAmount + c.lossAmount == pv[|pv| - 1] - pv[0]
  {
    if |pv| > 1 {
      var pv0 := pv[..|pv| - 1];
      TalliedSpec(pv0);
      assert pv0[0] == pv[0] && pv0[|pv0| - 1] == pv[|pv| - 2];
      assert Tallied(pv) == Tally(Tallied(pv0), pv, |pv| - 1);
    }
  }

  /** The counting loop of `WLRatio`. */
  method CountChanges(pv: seq<real>) returns (c: Counters)
    ensures c == Tallied(pv)
  {
    c := Counters(0.0, 0.0, 0.0, 0.0);
    for i := 0 to |pv|
      invariant c == Tallied(pv[..i])
    {
      assert pv[..i + 1][..i] == pv[..i];
      if i > 0 {
        var change := pv[i] - pv[i - 1];
        if change > 0.0 {
          c := c.(winNum := c.winNum + 1.0, winAmount := c.winAmount + change);
        } else if change < 0.0 {
          c := c.(lossNum := c.lossNum + 1.0, lossAmount := c.lossAmount + change);
        }
      }
    }
    assert pv[..|pv|] == pv;
  }

  /** The four results of a win/loss scan over `n` points. */
  datatype WinLoss = WinLoss(avgWinLoss: Fl, winRate: Fl, lossRate: Fl, wl: Fl)

  function Ratios(c: Counters, n: real): WinLoss
  {
    WinLoss(Quotient(Div(c.winAmount, c.winNum), Div(c.lossAmount, c.lossNum)),
            Div(c.winNum, n), Div(c.lossNum, n), Div(c.winNum, c.lossNum))
  }

  /** `TradestatPort.WLRatio`: the average win over the average loss (a
      loss being negative, never positive), the shares of rises and of
      falls among the points, which leave room for at least one point that
      is neither, and wins over losses. */
  method WLRatio(pfst: TradestatPort) returns (r: WinLoss)
    ensures r == Ratios(Tallied(PVs(pfst.permTS)), |pfst.permTS| as real)
    ensures r.winRate.R? <==> |pfst.permTS| > 0
    ensures r.winRate.R? ==> 0.0 <= r.winRate.r && 0.0 <= r.lossRate.r && r.winRate.r + r.lossRate.r < 1.0
    ensures r.avgWinLoss.R? ==> r.avgWinLoss.r <= 0.0
  {
    var pv := PVs(pfst.permTS);
    var c := CountChanges(pv);
    r := Ratios(c, |pfst.permTS| as real);
    RatiosSpec(pv);
  }

  lemma RatiosSpec(pv: seq<real>)
    ensures var r := Ratios(Tallied(pv), |pv| as real);
      (r.winRate.R? <==> |pv| > 0) &&
      (r.winRate.R? ==> 0.0 <= r.winRate.r && 0.0 <= r.lossRate.r && r.winRate.r + r.lossRate.r < 1.0) &&
      (r.avgWinLoss.R? ==> r.avgWinLoss.r <= 0.0)
  {
    var c := Tallied(pv);
    if |pv| > 0 {
      TalliedSpec(pv);
      SharesBound(c.winNum, c.lossNum, |pv| as real);
      if c.winNum != 0.0 && c.lossNum != 0.0 {
        Signs(c.winAmount, c.winNum, c.lossAmount, c.lossNum);
      }
    }
  }

  /** Two shares of `n` whose counts leave one over add up to less than 1. */
  lemma SharesBound(a: real, b: real, n: real)
    requires n > 0.0 && a >= 0.0 && b >= 0.0 && a + b <= n - 1.0
    ensures a / n >= 0.0 && b / n >= 0.0 && a / n + b / n < 1.0
  {
    var x, y := a / n, b / n;
    assert x * n == a && y * n == b;
    var z := x + y;
    assert z * n == x * n + y * n;
    assert x * n + y * n == a + b;
    assert z * n == a + b;
    assert a + b < n;
    BelowOne(z, n);
  }

  lemma BelowOne(z: real, n: real)
    requires n > 0.0 && z * n < n
    ensures z < 1.0
  {
  }

  /** A non-negative average over a negative one is not positive. */
  lemma Signs(wa: real, wn: real, la: real, ln: real)
    requires wa >= 0.0 && wn > 0.0 && la < 0.0 && ln > 0.0
    ensures wa / wn >= 0.0 && la / ln < 0.0 && (wa / wn) / (la / ln) <= 0.0
  {
    var aw, al := wa / wn, la / ln;
    assert aw * wn == wa && al * ln == la;
    var q := aw / al;
    assert q * al == aw;
  }

  // ---------------------------------------------------------------------
  // Single coin

  /** `GetTrNumber`: the trades whose pair has `coin` on either side. */
  function Involving(txn: seq<Transaction>, coin: Coin): (n: nat)
    ensures n <= |txn|
    ensures n == 0 <==> forall k :: 0 <= k < |txn| ==> txn[k].pair.coin != coin && txn[k].pair.base != coin
  {
    if txn == [] then 0
    else
      var t := txn[|txn| - 1];
      var n0 := Involving(txn[..|txn| - 1], coin);
      assert forall k :: 0 <= k < |txn| - 1 ==> txn[..|txn| - 1][k] == txn[k];
      n0 + (if t.pair.coin == coin || t.pair.base == coin then 1 else 0)
  }

  method GetTrNumber(coin: Coin, txn: seq<Transaction>) returns (count: nat)
    ensures count == Involving(txn, coin)
  {
    count := 0;
    for i := 0 to |txn|
      invariant count == Involving(txn[..i], coin)
    {
      assert txn[..i + 1][..i] == txn[..i];
      if txn[i].pair.coin == coin || txn[i].pair.base == coin {
        count := count + 1;
      }
    }
    assert txn[..|txn|] == txn;
  }

  /** `CoinPV`: the value of the holding of one coin at a time. */
  datatype CoinPV = CoinPV(time: int, pv: real)

  /** The snapshots holding a non-zero balance of `coin`, in order. */
  function Held(s: seq<Snapshot>, coin: Coin): (r: seq<Snapshot>)
    ensures |r| <= |s|
    ensures forall k :: 0 <= k < |r| ==> Get(r[k].balances, coin) != 0.0
  {
    if s == [] then []
    else
      var r0 := Held(s[..|s| - 1], coin);
      if Get(s[|s| - 1].balances, coin) != 0.0 then r0 + [s[|s| - 1]] else r0
  }

  /** One point of the coin's value series: the snapshot's time, and its
      balance of the coin at the rate `LookupRate` finds for the coin in
      the base then. */
  ghost predicate PointOf(book: ReferenceRateBook, coin: Coin, mtmBase: Coin, snap: Snapshot,
                          x: CoinPV, rate: real, sorted: seq<ReferenceRate>)
  {
    x.time == snap.time && LooksUp(book, Pair(coin, mtmBase), snap.time, rate, sorted) &&
    x.pv == Worth(rate, Get(snap.balances, coin))
  }

  /** The value series of `coin`: one point per snapshot that holds it. */
  ghost predicate CoinSeries(book: ReferenceRateBook, coin: Coin, mtmBase: Coin, s: seq<Snapshot>,
                             cpv: seq<CoinPV>, rates: seq<real>, sortings: seq<seq<ReferenceRate>>)
  {
    var held := Held(s, coin);
    |cpv| == |held| && |rates| == |held| && |sortings| == |held| &&
    forall k :: 0 <= k < |held| ==> PointOf(book, coin, mtmBase, held[k], cpv[k], rates[k], sortings[k])
  }

  /** A snapshot that holds the coin adds its point to the series; one
      that does not leaves the series as it is. */
  lemma CoinSeriesSnoc(book: ReferenceRateBook, coin: Coin, mtmBase: Coin, s: seq<Snapshot>, v: Snapshot,
                       cpv: seq<CoinPV>, rates: seq<real>, sortings: seq<seq<ReferenceRate>>,
                       x: CoinPV, rate: real, sorted: seq<ReferenceRate>)
    requires CoinSeries(book, coin, mtmBase, s, cpv, rates, sortings)
    ensures Get(v.balances, coin) == 0.0 ==> CoinSeries(book, coin, mtmBase, s + [v], cpv, rates, sortings)
    ensures Get(v.balances, coin) != 0.0 && PointOf(book, coin, mtmBase, v, x, rate, sorted) ==>
      CoinSeries(book, coin, mtmBase, s + [v], cpv + [x], rates + [rate], sortings + [sorted])
  {
    assert (s + [v])[..|s|] == s;
  }

  /** The loop of `GetNetPnL`. */
  method ValueSeries(coin: Coin, mtmBase: Coin, ratesbook: ReferenceRateBook, ssTS: seq<Snapshot>)
    returns (cpv: seq<CoinPV>, ghost rates: seq<real>, ghost sortings: seq<seq<ReferenceRate>>)
    ensures CoinSeries(ratesbook, coin, mtmBase, ssTS, cpv, rates, sortings)
  {
    cpv, rates, sortings := [], [], [];
    for i := 0 to |ssTS|
      invariant CoinSeries(ratesbook, coin, mtmBase, ssTS[..i], cpv, rates, sortings)
    {
      var v := ssTS[i];
      assert ssTS[..i + 1] == ssTS[..i] + [v];
      if Get(v.balances, coin) != 0.0 {
        var rate, sorted := LookupRate(Pair(coin, mtmBase), v.time, ratesbook);
        var x := CoinPV(v.time, Worth(rate, Get(v.balances, coin)));
        CoinSeriesSnoc(ratesbook, coin, mtmBase, ssTS[..i], v, cpv, rates, sortings, x, rate, sorted);
        cpv, rates, sortings := cpv + [x], rates + [rate], sortings + [sorted];
      } else {
        CoinSeriesSnoc(ratesbook, coin, mtmBase, ssTS[..i], v, cpv, rates, sortings, CoinPV(0, 0.0), 0.0, []);
      }
    }
    assert ssTS[..|ssTS|] == ssTS;
  }

  /** The last value of a series less the first; none for no series. */
  function NetChange(cpv: seq<CoinPV>): (r: Option<real>)
    ensures r.Some? <==> |cpv| > 0
    ensures r.Some? ==> r.value + cpv[0].pv == cpv[|cpv| - 1].pv
  {
    if |cpv| == 0 then None else Some(cpv[|cpv| - 1].pv - cpv[0].pv)
  }

  /** `GetNetPnL`: the last value of the coin's series less the first;
      `None` where Go indexes an empty series. */
  method GetNetPnL(coin: Coin, mtmBase: Coin, ratesbook: ReferenceRateBook, ts: array<Transaction>, p: Portfolio)
    returns (netPnL: Option<real>, coinpvTS: seq<CoinPV>, ghost rates: seq<real>, ghost sortings: seq<seq<ReferenceRate>>)
    modifies ts
    ensures multiset(ts[..]) == multiset(old(ts[..])) && TimeOrdered(ts[..])
    ensures CoinSeries(ratesbook, coin, mtmBase, Snapshots(ts[..], p.balances, p.locked), coinpvTS, rates, sortings)
    ensures netPnL == NetChange(coinpvTS)
  {
    var ssTS := GenerateSnapshotTS(ts, p);
    coinpvTS, rates, sortings := ValueSeries(coin, mtmBase, ratesbook, ssTS);
    if |coinpvTS| == 0 {
      return None, coinpvTS, rates, sortings;
    }
    netPnL := Some(coinpvTS[|coinpvTS| - 1].pv - coinpvTS[0].pv);
  }

  /** `GetAvgPnL`: the coin's net result per trade involving it. */
  /** A result over a number of trades; no value for none. */
  function PerTrade(net: real, num: nat): (r: Fl)
    ensures r.R? <==> num > 0
    ensures r.R? ==> r.r * (num as real) == net
  {
    Div(net, num as real)
  }

  method GetAvgPnL(coin: Coin, mtmBase: Coin, ratesbook: ReferenceRateBook, ts: array<Transaction>, p: Portfolio)
    returns (avg: Option<Fl>, ghost coinpvTS: seq<CoinPV>, ghost rates: seq<real>, ghost sortings: seq<seq<ReferenceRate>>)
    modifies ts
    ensures multiset(ts[..]) == multiset(old(ts[..]))
    ensures CoinSeries(ratesbook, coin, mtmBase, Snapshots(ts[..], p.balances, p.locked), coinpvTS, rates, sortings)
    ensures avg.Some? <==> NetChange(coinpvTS).Some?
    ensures avg.Some? ==> avg.value == PerTrade(NetChange(coinpvTS).value, Involving(ts[..], coin))
  {
    var netPnL;
    netPnL, coinpvTS, rates, sortings := GetNetPnL(coin, mtmBase, ratesbook, ts, p);
    if netPnL.None? {
      return None, coinpvTS, rates, sortings;
    }
    var num := GetTrNumber(coin, ts[..]);
    avg := Some(PerTrade(netPnL.value, num));
  }

  /** The coin's values. */
  function Values(cpv: seq<CoinPV>): (r: seq<real>)
    ensures |r| == |cpv| && forall i :: 0 <= i < |cpv| ==> r[i] == cpv[i].pv
  {
    seq(|cpv|, i requires 0 <= i < |cpv| => cpv[i].pv)
  }

  /** The entry `GetMaxDrawdown` appends for point `j`: one less the
      point over the running maximum before it; no value over a zero
      maximum. */
  function RelEntry(pv: seq<real>, j: nat): (e: Fl)
    requires j < |pv|
    ensures e.R? <==> (if j == 0 then pv[0] else Peak(pv, j - 1)) != 0.0
  {
    Sub(R(1.0), Div(pv[j], if j == 0 then pv[0] else Peak(pv, j - 1)))
  }

  function RelDrawdown(pv: seq<real>): (r: seq<Fl>)
    ensures |r| == |pv| + 1 && r[0] == R(0.0)
    ensures forall j :: 0 <= j < |pv| ==> r[j + 1] == RelEntry(pv, j)
  {
    [R(0.0)] + seq(|pv|, j requires 0 <= j < |pv| => RelEntry(pv, j))
  }

  /** `sort.Float64s` order: no value first, then numbers ascending. */
  function FlLess(a: Fl, b: Fl): bool
  {
    (a.NaN? && b.R?) || (a.R? && b.R? && a.r < b.r)
  }

  lemma FlLessStrictWeak(s: seq<Fl>)
    ensures Sorting.StrictWeakOn(s, FlLess)
  {
  }

  /** `sort.Float64s` on the backing array of a series. */
  method SortFl(a: array<Fl>)
    modifies a
    ensures multiset(a[..]) == multiset(old(a[..]))
    ensures forall i, j :: 0 <= i < j < a.Length ==> !FlLess(a[j], a[i])
  {
    FlLessStrictWeak(a[..]);
    Sorting.SortSlice(a, FlLess);
  }

  /** The loop of `GetMaxDrawdown`, and its sorting of the shared backing
      array: the relative drawdowns in `sort.Float64s` order. The maximum
      is the last entry: a number, never negative, and no entry is
      above it. */
  method RelativeDrawdown(pv: seq<real>) returns (dd: seq<Fl>, maxDD: Fl)
    requires |pv| > 0
    ensures multiset(dd) == multiset(RelDrawdown(pv))
    ensures forall i, j :: 0 <= i < j < |dd| ==> !FlLess(dd[j], dd[i])
    ensures maxDD == dd[|dd| - 1]
    ensures maxDD.R? && maxDD.r >= 0.0
    ensures forall x :: x in dd ==> !FlLess(maxDD, x)
  {
    var drawdown := RelDrawdownSeries(pv);
    dd := SortSharedFl(drawdown);
    maxDD := dd[|dd| - 1];
    FlLastIsMax(dd, drawdown);
  }

  /** The series in the backing array that `drawdown` and `cloneDD`
      share, after `sort.Float64s(cloneDD)`. */
  method SortSharedFl(drawdown: seq<Fl>) returns (dd: seq<Fl>)
    ensures multiset(dd) == multiset(drawdown)
    ensures forall i, j :: 0 <= i < j < |dd| ==> !FlLess(dd[j], dd[i])
  {
    var backing := new Fl[|drawdown|](i requires 0 <= i < |drawdown| => drawdown[i]);
    assert backing[..] == drawdown;
    SortFl(backing);
    dd := backing[..];
  }

  /** The loop of `GetMaxDrawdown` that builds the relative drawdowns. */
  method RelDrawdownSeries(pv: seq<real>) returns (drawdown: seq<Fl>)
    requires |pv| > 0
    ensures drawdown == RelDrawdown(pv)
  {
    drawdown := [];
    var maxsofar := 0.0;
    for i := 0 to |pv|
      invariant |drawdown| == (if i == 0 then 0 else i + 1)
      invariant i > 0 ==> drawdown[0] == R(0.0) && maxsofar == Peak(pv, i - 1)
      invariant forall j :: 0 <= j < i ==> drawdown[j + 1] == RelEntry(pv, j)
    {
      if i == 0 {
        maxsofar := pv[0];
        drawdown := drawdown + [R(0.0)];
      }
      // both branches of the source append the same entry
      drawdown := drawdown + [RelEntry(pv, i)];
      if pv[i] > maxsofar {
        maxsofar := pv[i];
      }
    }
    RelDrawdownIs(pv, drawdown);
  }

  /** A series with a leading 0 and then each relative entry is
      `RelDrawdown`. */
  lemma RelDrawdownIs(pv: seq<real>, d: seq<Fl>)
    requires |d| == |pv| + 1 && d[0] == R(0.0)
    requires forall j :: 0 <= j < |pv| ==> d[j + 1] == RelEntry(pv, j)
    ensures d == RelDrawdown(pv)
  {
    var r := RelDrawdown(pv);
    forall k | 0 <= k < |d|
      ensures d[k] == r[k]
    {
      if k > 0 {
        assert d[(k - 1) + 1] == RelEntry(pv, k - 1);
      }
    }
  }

  /** The last entry of a `sort.Float64s`-ordered permutation of a series
      starting at zero is a number, never negative, and no entry is above
      it. */
  lemma FlLastIsMax(dd: seq<Fl>, s: seq<Fl>)
    requires |dd| > 0 && multiset(dd) == multiset(s) && |s| > 0 && s[0] == R(0.0)
    requires forall i, j :: 0 <= i < j < |dd| ==> !FlLess(dd[j], dd[i])
    ensures forall x :: x in dd ==> !FlLess(dd[|dd| - 1], x)
    ensures dd[|dd| - 1].R? && dd[|dd| - 1].r >= 0.0
  {
    var m := dd[|dd| - 1];
    forall x | x in dd
      ensures !FlLess(m, x)
    {
      var i :| 0 <= i < |dd| && dd[i] == x;
    }
    assert s[0] in multiset(s);
    assert R(0.0) in dd;
  }

  /** `GetMaxDrawdown`, with the same sharing of the backing array as
      `MaxDrawdown`; `None` where `GetNetPnL` indexes an empty series. */
  method GetMaxDrawdown(coin: Coin, mtmBase: Coin, ratesbook: ReferenceRateBook, ts: array<Transaction>, p: Portfolio)
    returns (res: Option<(seq<Fl>, Fl)>, ghost coinpvTS: seq<CoinPV>, ghost rates: seq<real>, ghost sortings: seq<seq<ReferenceRate>>)
    modifies ts
    ensures multiset(ts[..]) == multiset(old(ts[..]))
    ensures CoinSeries(ratesbook, coin, mtmBase, Snapshots(ts[..], p.balances, p.locked), coinpvTS, rates, sortings)
    ensures res.Some? <==> |coinpvTS| > 0
    ensures res.Some? ==> multiset(res.value.0) == multiset(RelDrawdown(Values(coinpvTS)))
    ensures res.Some? ==> var (dd, maxDD) := res.value;
      |dd| > 0 && maxDD == dd[|dd| - 1] && maxDD.R? && maxDD.r >= 0.0 &&
      forall x :: x in dd ==> !FlLess(maxDD, x)
  {
    var netPnL, cpv;
    netPnL, cpv, rates, sortings := GetNetPnL(coin, mtmBase, ratesbook, ts, p);
    coinpvTS := cpv;
    if |cpv| == 0 {
      return None, coinpvTS, rates, sortings;
    }
    var dd, maxDD := RelativeDrawdown(Values(cpv));
    res := Some((dd, maxDD));
  }

  // ---------------------------------------------------------------------
  // GetWLRatio

  /** The state of `GetWLRatio`'s inner loop `for i > 0 { ... }`: the
      index of the outer loop and the counters. */
  datatype InnerState = InnerState(i: int, c: Counters)

  /** One pass of the inner loop's body: it tallies the change at `i` and
      never assigns `i`. */
  function InnerPass(st: InnerState, pv: seq<real>): (r: InnerState)
    requires 0 < st.i < |pv|
    ensures r.i == st.i
  {
    InnerState(st.i, Tally(st.c, pv, st.i))
  }

  function InnerPasses(st: InnerState, pv: seq<real>, n: nat): (r: InnerState)
    requires 0 < st.i < |pv|
    ensures r.i == st.i
  {
    if n == 0 then st else InnerPass(InnerPasses(st, pv, n - 1), pv)
  }

  /** As written, the inner loop never ends once `i > 0`: after any
      number of passes its guard still holds, and a non-zero change is
      counted once more on every pass. */
  lemma {:induction false} InnerLoopDiverges(st: InnerState, pv: seq<real>, n: nat)
    requires 0 < st.i < |pv|
    ensures InnerPasses(st, pv, n).i == st.i > 0
    ensures pv[st.i] != pv[st.i - 1] ==>
      var c := InnerPasses(st, pv, n).c;
      c.winNum + c.lossNum == st.c.winNum + st.c.lossNum + n as real
  {
    if n > 0 {
      InnerLoopDiverges(st, pv, n - 1);
    }
  }

  /** `GetWLRatio` as evidently intended, with the inner loop read as
      `if i > 0`: the scan of `WLRatio` over the coin's value series, with
      the rates taken over the trades involving the coin; `None` where
      `GetNetPnL` indexes an empty series. */
  method GetWLRatio(coin: Coin, mtmBase: Coin, ratesbook: ReferenceRateBook, ts: array<Transaction>, p: Portfolio)
    returns (r: Option<WinLoss>, ghost coinpvTS: seq<CoinPV>, ghost rates: seq<real>, ghost sortings: seq<seq<ReferenceRate>>)
    modifies ts
    ensures multiset(ts[..]) == multiset(old(ts[..]))
    ensures CoinSeries(ratesbook, coin, mtmBase, Snapshots(ts[..], p.balances, p.locked), coinpvTS, rates, sortings)
    ensures r.Some? <==> |coinpvTS| > 0
    ensures r.Some? ==> r.value == Ratios(Tallied(Values(coinpvTS)), Involving(ts[..], coin) as real)
  {
    var netPnL, cpv;
    netPnL, cpv, rates, sortings := GetNetPnL(coin, mtmBase, ratesbook, ts, p);
    coinpvTS := cpv;
    if |cpv| == 0 {
      return None, coinpvTS, rates, sortings;
    }
    var c := CountChanges(Values(cpv));
    var trnum := GetTrNumber(coin, ts[..]);
    r := Some(Ratios(c, trnum as real));
  }
}
