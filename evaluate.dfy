/**
 * The evaluation of a backtest in evaluate.go: drawdown of a value
 * series, the portfolio snapshots a trade list produces, reference rates
 * and their nearest-time lookup, and the marking of snapshots to a base
 * coin.
 */
module Evaluate {
  import opened Wrappers
  import opened Num
  import opened Chrono
  import opened Coins
  import opened Pairs
  import opened Txns
  import opened Portfolios
  import Sorting

  // ---------------------------------------------------------------------
  // Drawdown

  /** The running maximum of `pv[..j + 1]`, updated as `MaxDD` does. */
  function Peak(pv: seq<real>, j: nat): (m: real)
    requires j < |pv|
    ensures forall k :: 0 <= k <= j ==> pv[k] <= m
  {
    if j == 0 then pv[0]
    else
      var m := Peak(pv, j - 1);
      if pv[j] > m then pv[j] else m
  }

  /** The drop of `pv[j]` below the running maximum. */
  function Fall(pv: seq<real>, j: nat): real
    requires j < |pv|
  {
    Peak(pv, j) - pv[j]
  }

  /** The running maximum is one of the values seen. */
  lemma {:induction false} PeakAttained(pv: seq<real>, j: nat) returns (k: nat)
    requires j < |pv|
    ensures k <= j && pv[k] == Peak(pv, j)
  {
    if j == 0 {
      k := 0;
    } else {
      k := PeakAttained(pv, j - 1);
      if pv[j] > Peak(pv, j - 1) {
        k := j;
      }
    }
  }

  /** `floats.Max`: the largest entry; it panics on an empty slice. */
  method Largest(s: seq<real>) returns (m: real)
    requires |s| > 0
    ensures forall i :: 0 <= i < |s| ==> s[i] <= m
    ensures exists i :: 0 <= i < |s| && s[i] == m
  {
    m := s[0];
    ghost var at := 0;
    for i := 0 to |s|
      invariant 0 <= at < |s| && s[at] == m
      invariant forall k :: 0 <= k < i ==> s[k] <= m
    {
      if s[i] > m {
        m := s[i];
        at := i;
      }
    }
  }

  /** `MaxDD`: the largest fall from an earlier (or the same) point to a
      later one; never negative, and 0 for a non-decreasing series. */
  method MaxDD(pv: seq<real>) returns (dd: real)
    requires |pv| > 0
    ensures forall k, j :: 0 <= k <= j < |pv| ==> pv[k] - pv[j] <= dd
    ensures exists k, j :: 0 <= k <= j < |pv| && dd == pv[k] - pv[j]
    ensures dd >= 0.0
    ensures (forall k, j :: 0 <= k <= j < |pv| ==> pv[k] <= pv[j]) ==> dd == 0.0
  {
    var drawdown: seq<real> := [];
    var maxsofar := 0.0;
    for i := 0 to |pv|
      invariant |drawdown| == i
      invariant i > 0 ==> maxsofar == Peak(pv, i - 1)
      invariant forall j :: 0 <= j < i ==> drawdown[j] == Fall(pv, j)
    {
      if i == 0 || pv[i] > maxsofar {
        maxsofar := pv[i];
      }
      assert maxsofar - pv[i] == Fall(pv, i);
      drawdown := drawdown + [maxsofar - pv[i]];
    }
    dd := Largest(drawdown);
    forall k, j | 0 <= k <= j < |pv|
      ensures pv[k] - pv[j] <= dd
    {
      assert drawdown[j] <= dd;
    }
    var j :| 0 <= j < |drawdown| && drawdown[j] == dd;
    var k := PeakAttained(pv, j);
    assert dd == pv[k] - pv[j];
    assert pv[0] - pv[0] <= dd;
  }

  // ---------------------------------------------------------------------
  // Snapshots

  /** `Snapshot`: the balances (and locks) of a portfolio at a time, as
      the values they hold when the snapshot series is built. Go's opening
      snapshot shares its portfolio with the caller's initial one rather
      than a copy; that sharing is not modelled. */
  datatype Snapshot = Snapshot(time: int, balances: map<Coin, real>, locked: map<Coin, real>)

  /** The balances after `GenerateSnapshot` books one trade: the coin
      gains the amount and the base pays its value. */
  function Booked(m: map<Coin, real>, t: Transaction): map<Coin, real>
  {
    Credit(Credit(m, t.pair.coin, t.amount), t.pair.base, -Worth(t.price, t.amount))
  }

  /** The balances after booking every trade of `ts` in order. */
  function BookedAll(m: map<Coin, real>, ts: seq<Transaction>): map<Coin, real>
  {
    if ts == [] then m else Booked(BookedAll(m, ts[..|ts| - 1]), ts[|ts| - 1])
  }

  /** What booking one trade adds to the balance of `c`. */
  function Contrib(t: Transaction, c: Coin): real
  {
    (if t.pair.coin == c then t.amount else 0.0)
      - (if t.pair.base == c then Worth(t.price, t.amount) else 0.0)
  }

  /** What the trades of `ts` add to the balance of `c`, trade by trade. */
  function Effect(ts: seq<Transaction>, c: Coin): real
  {
    if ts == [] then 0.0 else Effect(ts[..|ts| - 1], c) + Contrib(ts[|ts| - 1], c)
  }

  /** The effect of two runs of trades is the sum of their effects. */
  lemma {:induction false} EffectAppend(a: seq<Transaction>, b: seq<Transaction>, c: Coin)
    ensures Effect(a + b, c) == Effect(a, c) + Effect(b, c)
  {
    if b != [] {
      var b0 := b[..|b| - 1];
      assert (a + b)[..|a + b| - 1] == a + b0;
      EffectAppend(a, b0, c);
    } else {
      assert a + b == a;
    }
  }

  /** The effect of trades does not depend on their order, so booking a
      permutation of them ends in the same balances. */
  lemma {:induction false} EffectPermutation(a: seq<Transaction>, b: seq<Transaction>, c: Coin)
    requires multiset(a) == multiset(b)
    ensures Effect(a, c) == Effect(b, c)
    decreases |a|
  {
    if a == [] {
      assert |b| == |multiset(b)| == 0;
    } else {
      var x := a[|a| - 1];
      var a0 := a[..|a| - 1];
      assert a == a0 + [x];
      assert x in multiset(b);
      var k := Sorting.IndexOf(b, x);
      var b0 := b[..k] + b[k + 1..];
      assert b == b[..k] + [x] + b[k + 1..];
      assert multiset(a0) == multiset(a) - multiset{x};
      assert multiset(b0) == multiset(b) - multiset{x};
      EffectPermutation(a0, b0, c);
      EffectAppend(b[..k] + [x], b[k + 1..], c);
      EffectAppend(b[..k], [x], c);
      EffectAppend(b[..k], b[k + 1..], c);
      assert Effect([x], c) == Contrib(x, c) by {
        assert [x][..0] == [];
      }
    }
  }

  /** Booking trades changes each coin by exactly their net effect on it. */
  lemma {:induction false} BookedAllEffect(m: map<Coin, real>, ts: seq<Transaction>, c: Coin)
    ensures Get(BookedAll(m, ts), c) == Get(m, c) + Effect(ts, c)
  {
    if ts != [] {
      var t := ts[|ts| - 1];
      var m0 := BookedAll(m, ts[..|ts| - 1]);
      BookedAllEffect(m, ts[..|ts| - 1], c);
      CreditSpec(m0, t.pair.coin, t.amount);
      CreditSpec(Credit(m0, t.pair.coin, t.amount), t.pair.base, -Worth(t.price, t.amount));
    }
  }

  /** `GenerateSnapshot`: books one trade into `p` and stamps its time. */
  method GenerateSnapshot(t: Transaction, p: Portfolio) returns (snap: Snapshot)
    modifies p
    ensures p.balances == Booked(old(p.balances), t)
    ensures p.locked == old(p.locked) && p.contracts == old(p.contracts)
    ensures snap == Snapshot(t.timeStamp, p.balances, p.locked)
  {
    p.AddBalance(t.pair.coin, t.amount);
    p.RemoveBalance(t.pair.base, Worth(t.price, t.amount));
    snap := Snapshot(t.timeStamp, p.balances, p.locked);
  }

  /** Trade times never decrease along `ts`. */
  predicate TimeOrdered(ts: seq<Transaction>)
  {
    forall i, j :: 0 <= i < j < |ts| ==> ts[i].timeStamp <= ts[j].timeStamp
  }

  /** The series `GenerateSnapshotTS` builds from time-ordered trades: an
      opening snapshot one second before the first trade, then each trade
      booked into the last snapshot, which it replaces when the times
      agree and follows otherwise. */
  function Snapshots(ts: seq<Transaction>, bal: map<Coin, real>, locked: map<Coin, real>): (r: seq<Snapshot>)
    ensures ts != [] ==> |r| >= 2
  {
    if ts == [] then []
    else if |ts| == 1 then AddTrade([Snapshot(ts[0].timeStamp - Second, bal, locked)], ts[0])
    else AddTrade(Snapshots(ts[..|ts| - 1], bal, locked), ts[|ts| - 1])
  }

  /** One trade booked into the last snapshot of `s`: the result replaces
      it when the times agree and follows it otherwise. */
  function AddTrade(s: seq<Snapshot>, t: Transaction): (r: seq<Snapshot>)
    requires |s| > 0
    ensures |r| == Keep(s, t) + 1
  {
    var last := s[|s| - 1];
    s[..Keep(s, t)] + [Snapshot(t.timeStamp, Booked(last.balances, t), last.locked)]
  }

  /** How many trades of `ts` happen at or before `time`. */
  function UpTo(ts: seq<Transaction>, time: int): (n: nat)
    ensures n <= |ts|
  {
    if ts == [] then 0
    else UpTo(ts[..|ts| - 1], time) + (if ts[|ts| - 1].timeStamp <= time then 1 else 0)
  }

  lemma {:induction false} UpToAll(ts: seq<Transaction>, time: int)
    requires forall i :: 0 <= i < |ts| ==> ts[i].timeStamp <= time
    ensures UpTo(ts, time) == |ts|
  {
    if ts != [] {
      UpToAll(ts[..|ts| - 1], time);
    }
  }

  /** The properties of the snapshot series, for time-ordered trades. */
  ghost predicate SeriesOf(r: seq<Snapshot>, ts: seq<Transaction>, bal: map<Coin, real>, locked: map<Coin, real>)
  {
    |ts| > 0 && |r| >= 2 &&
    r[0] == Snapshot(ts[0].timeStamp - Second, bal, locked) &&
    r[|r| - 1].time == ts[|ts| - 1].timeStamp &&
    Increasing(r) && TimesAfterFirst(r) == TradeTimes(ts) && Cumulative(r, ts, bal) &&
    (forall k :: 0 <= k < |r| ==> r[k].locked == locked)
  }

  /** `GenerateSnapshotTS` on time-ordered trades: nothing for no trades;
      otherwise the initial portfolio one second before the first trade,
      then one snapshot per distinct trade time, in strictly increasing
      time, each holding the initial balances with every trade up to its
      time booked; the last one holds every trade. */
  lemma {:induction false} SnapshotsSpec(ts: seq<Transaction>, bal: map<Coin, real>, locked: map<Coin, real>)
    requires TimeOrdered(ts)
    ensures ts == [] ==> Snapshots(ts, bal, locked) == []
    ensures ts != [] ==> SeriesOf(Snapshots(ts, bal, locked), ts, bal, locked)
    ensures ts != [] ==> var r := Snapshots(ts, bal, locked); r[|r| - 1].balances == BookedAll(bal, ts)
  {
    if ts != [] {
      var t := ts[|ts| - 1];
      if |ts| == 1 {
        assert ts == [t];
        SnapshotsOne(t, bal, locked);
      } else {
        var ts0 := ts[..|ts| - 1];
        assert ts0 + [t] == ts;
        SnapshotsSpec(ts0, bal, locked);
        SnapshotsSnoc(ts0, t, bal, locked);
        SeriesSnoc(Snapshots(ts0, bal, locked), Snapshots(ts, bal, locked), ts0, t, bal, locked);
      }
    }
  }

  /** The series of a single trade: the opening snapshot and the trade. */
  lemma SnapshotsOne(t: Transaction, bal: map<Coin, real>, locked: map<Coin, real>)
    ensures SeriesOf(Snapshots([t], bal, locked), [t], bal, locked)
    ensures var r := Snapshots([t], bal, locked); r[|r| - 1].balances == BookedAll(bal, [t])
  {
    var r := Snapshots([t], bal, locked);
    assert r == [Snapshot(t.timeStamp - Second, bal, locked), Snapshot(t.timeStamp, Booked(bal, t), locked)];
    assert TimesAfterFirst(r) == {t.timeStamp} by {
      forall x | x in TimesAfterFirst(r)
        ensures x == t.timeStamp
      {
      }
      assert r[1].time in TimesAfterFirst(r);
    }
    assert [t] == [] + [t];
    TradeTimesSnoc([], t);
    assert [t][..0] == [];
    assert BookedAll(bal, [t]) == Booked(BookedAll(bal, []), t) == Booked(bal, t);
    UpToAll([t], t.timeStamp);
    assert [t][..1] == [t];
  }

  /** How much of the series a new trade at `t` keeps: all of it, or all
      but the last snapshot when that one has the same time. */
  function Keep(s: seq<Snapshot>, t: Transaction): (n: nat)
    requires |s| > 0
    ensures n == |s| || n == |s| - 1
  {
    if s[|s| - 1].time != t.timeStamp then |s| else |s| - 1
  }

  /** `Snapshots` after one more trade. */
  lemma SnapshotsSnoc(ts: seq<Transaction>, t: Transaction, bal: map<Coin, real>, locked: map<Coin, real>)
    requires ts != []
    ensures Snapshots(ts + [t], bal, locked) == AddTrade(Snapshots(ts, bal, locked), t)
  {
    assert (ts + [t])[..|ts|] == ts;
  }

  /** The set of times of `s` after its opening snapshot. */
  function TimesAfterFirst(s: seq<Snapshot>): set<int>
  {
    set k | 1 <= k < |s| :: s[k].time
  }

  /** The set of trade times of `ts`. */
  function TradeTimes(ts: seq<Transaction>): set<int>
  {
    set i | 0 <= i < |ts| :: ts[i].timeStamp
  }

  lemma TradeTimesSnoc(ts: seq<Transaction>, t: Transaction)
    ensures TradeTimes(ts + [t]) == TradeTimes(ts) + {t.timeStamp}
  {
    var ts1 := ts + [t];
    forall x | x in TradeTimes(ts1)
      ensures x in TradeTimes(ts) + {t.timeStamp}
    {
      var i :| 0 <= i < |ts1| && ts1[i].timeStamp == x;
      if i < |ts| {
        assert ts[i].timeStamp == x;
      }
    }
    forall x | x in TradeTimes(ts) + {t.timeStamp}
      ensures x in TradeTimes(ts1)
    {
      if x == t.timeStamp {
        assert ts1[|ts|].timeStamp == x;
      } else {
        var i :| 0 <= i < |ts| && ts[i].timeStamp == x;
        assert ts1[i].timeStamp == x;
      }
    }
  }

  lemma TimesSnoc(s: seq<Snapshot>, t: Transaction, snap: Snapshot)
    requires |s| >= 2 && snap.time == t.timeStamp
    ensures TimesAfterFirst(s[..Keep(s, t)] + [snap]) == TimesAfterFirst(s) + {t.timeStamp}
  {
    var keep := Keep(s, t);
    var r := s[..keep] + [snap];
    forall x | x in TimesAfterFirst(s) + {t.timeStamp}
      ensures x in TimesAfterFirst(r)
    {
      if x == t.timeStamp {
        assert r[|r| - 1].time == x;
      } else {
        var k :| 1 <= k < |s| && s[k].time == x;
        assert r[k].time == x;
      }
    }
    forall x | x in TimesAfterFirst(r)
      ensures x in TimesAfterFirst(s) + {t.timeStamp}
    {
      var k :| 1 <= k < |r| && r[k].time == x;
      if k < keep {
        assert r[k] == s[k];
      }
    }
  }

  /** Strictly increasing times. */
  predicate Increasing(s: seq<Snapshot>)
  {
    forall i, j :: 0 <= i < j < |s| ==> s[i].time < s[j].time
  }

  lemma IncreasingSnoc(s: seq<Snapshot>, t: Transaction, snap: Snapshot)
    requires |s| > 0 && Increasing(s) && s[|s| - 1].time <= t.timeStamp && snap.time == t.timeStamp
    ensures Increasing(s[..Keep(s, t)] + [snap])
  {
    var keep := Keep(s, t);
    var r := s[..keep] + [snap];
    forall i, j | 0 <= i < j < |r|
      ensures r[i].time < r[j].time
    {
      assert r[i] == s[i];
      if j < keep {
        assert r[j] == s[j];
      } else if i < |s| - 1 {
        assert s[i].time < s[|s| - 1].time;
      }
    }
  }

  /** Every snapshot after the first holds the trades up to its time. */
  ghost predicate Cumulative(s: seq<Snapshot>, ts: seq<Transaction>, bal: map<Coin, real>)
  {
    forall k :: 1 <= k < |s| ==> s[k].balances == BookedAll(bal, ts[..UpTo(ts, s[k].time)])
  }

  /** A trade after an earlier time leaves the trades up to that time. */
  lemma UpToSnoc(ts: seq<Transaction>, t: Transaction, time: int)
    requires time < t.timeStamp
    ensures UpTo(ts + [t], time) == UpTo(ts, time)
    ensures (ts + [t])[..UpTo(ts, time)] == ts[..UpTo(ts, time)]
  {
    assert (ts + [t])[..|ts|] == ts;
  }

  lemma CumulativeSnoc(s: seq<Snapshot>, ts: seq<Transaction>, t: Transaction, bal: map<Coin, real>, snap: Snapshot)
    requires |s| > 0 && Increasing(s) && s[|s| - 1].time <= t.timeStamp && Cumulative(s, ts, bal)
    requires TimeOrdered(ts + [t])
    requires snap.time == t.timeStamp && snap.balances == BookedAll(bal, ts + [t])
    ensures Cumulative(s[..Keep(s, t)] + [snap], ts + [t], bal)
  {
    var keep := Keep(s, t);
    var r := s[..keep] + [snap];
    var ts1 := ts + [t];
    forall k | 1 <= k < |r|
      ensures r[k].balances == BookedAll(bal, ts1[..UpTo(ts1, r[k].time)])
    {
      if k < keep {
        assert r[k] == s[k];
        if k < |s| - 1 {
          assert s[k].time < s[|s| - 1].time;
        }
        UpToSnoc(ts, t, s[k].time);
      } else {
        UpToAll(ts1, t.timeStamp);
        assert ts1[..|ts1|] == ts1;
      }
    }
  }

  /** One more trade, no earlier than the others, extends the series. */
  lemma SeriesSnoc(s: seq<Snapshot>, r: seq<Snapshot>, ts: seq<Transaction>, t: Transaction,
                   bal: map<Coin, real>, locked: map<Coin, real>)
    requires TimeOrdered(ts + [t]) && SeriesOf(s, ts, bal, locked)
    requires s[|s| - 1].balances == BookedAll(bal, ts)
    requires r == AddTrade(s, t)
    ensures SeriesOf(r, ts + [t], bal, locked)
    ensures r[|r| - 1].balances == BookedAll(bal, ts + [t])
  {
    var ts1 := ts + [t];
    var snap := r[|r| - 1];
    assert ts1[..|ts|] == ts;
    assert snap.balances == BookedAll(bal, ts1);
    assert ts[|ts| - 1].timeStamp <= t.timeStamp;
    TimesSnoc(s, t, snap);
    TradeTimesSnoc(ts, t);
    IncreasingSnoc(s, t, snap);
    CumulativeSnoc(s, ts, t, bal, snap);
    assert r[0] == s[0] && ts1[0] == ts[0];
  }

  /** `Transactions.Sort`, taken to be `sort.Slice` by trade time. */
  method SortTransactions(ts: array<Transaction>)
    modifies ts
    ensures multiset(ts[..]) == multiset(old(ts[..]))
    ensures TimeOrdered(ts[..])
  {
    var before := (a: Transaction, b: Transaction) => a.timeStamp < b.timeStamp;
    Sorting.ByKey(ts[..], before, (a: Transaction) => a.timeStamp as real);
    Sorting.SortSlice(ts, before);
  }

  /** `GenerateSnapshotTS`: sorts the caller's trades in place, then books
      them one at a time into clones of the initial portfolio, which is
      itself left as it was. */
  method GenerateSnapshotTS(ts: array<Transaction>, initPort: Portfolio) returns (snapts: seq<Snapshot>)
    modifies ts
    ensures multiset(ts[..]) == multiset(old(ts[..]))
    ensures TimeOrdered(ts[..])
    ensures snapts == Snapshots(ts[..], initPort.balances, initPort.locked)
  {
    SortTransactions(ts);
    ghost var sorted := ts[..];
    snapts := [];
    var p := initPort;
    for i := 0 to ts.Length
      invariant ts[..] == sorted
      invariant snapts == Snapshots(ts[..i], initPort.balances, initPort.locked)
      invariant i > 0 ==> |snapts| > 0 && p.balances == snapts[|snapts| - 1].balances
      invariant i > 0 ==> snapts[|snapts| - 1].locked == initPort.locked
      invariant i == 0 ==> p == initPort
      invariant p.locked == initPort.locked
      invariant initPort.balances == old(initPort.balances) && initPort.locked == old(initPort.locked)
    {
      var t := ts[i];
      if i == 0 {
        assert ts[..1] == [t];
      } else {
        assert ts[..i + 1] == ts[..i] + [t];
        SnapshotsSnoc(ts[..i], t, initPort.balances, initPort.locked);
      }
      snapts, p := BookNext(snapts, p, t);
    }
    assert ts[..ts.Length] == ts[..];
  }

  /** One pass of the loop of `GenerateSnapshotTS`: the trade is booked
      into a clone of `p`, after an opening snapshot of `p` for the first
      trade. */
  method BookNext(snapts: seq<Snapshot>, p: Portfolio, t: Transaction) returns (r: seq<Snapshot>, pClone: Portfolio)
    requires snapts != [] ==> p.balances == snapts[|snapts| - 1].balances && p.locked == snapts[|snapts| - 1].locked
    ensures fresh(pClone) && |r| > 0
    ensures pClone.balances == r[|r| - 1].balances && pClone.locked == p.locked == r[|r| - 1].locked
    ensures r == AddTrade(if snapts == [] then [Snapshot(t.timeStamp - Second, p.balances, p.locked)] else snapts, t)
  {
    pClone := p.Clone();
    var snapNew := GenerateSnapshot(t, pClone);
    r := snapts;
    if |r| == 0 {
      r := r + [Snapshot(snapNew.time - Second, p.balances, p.locked)];
    }
    if r[|r| - 1].time != snapNew.time {
      r := r + [snapNew];
    } else {
      r := r[..|r| - 1] + [snapNew];
    }
  }

  /** `SnapshotTS.Minus`: every snapshot less the initial portfolio, at
      the same times, by `Portfolio.Subtract`. */
  method MinusTS(s: seq<Snapshot>, initPort: Portfolio) returns (r: seq<Snapshot>)
    ensures |r| == |s|
    ensures forall k :: 0 <= k < |r| ==> r[k].time == s[k].time && r[k].locked == s[k].locked
    ensures forall k :: 0 <= k < |r| ==> r[k].balances.Keys == s[k].balances.Keys + initPort.balances.Keys
    ensures forall k, c :: 0 <= k < |r| ==> Get(r[k].balances, c) == Get(s[k].balances, c) - Get(initPort.balances, c)
  {
    r := [];
    for i := 0 to |s|
      invariant |r| == i
      invariant forall k :: 0 <= k < i ==> r[k].time == s[k].time && r[k].locked == s[k].locked
      invariant forall k :: 0 <= k < i ==> r[k].balances == Combine(s[k].balances, initPort.balances, -1.0)
    {
      var port := new Portfolio.FromMaps(s[i].balances, s[i].locked);
      var d := port.Subtract(initPort);
      r := r + [Snapshot(s[i].time, d.balances, d.locked)];
    }
    forall k, c | 0 <= k < |r|
      ensures Get(r[k].balances, c) == Get(s[k].balances, c) - Get(initPort.balances, c)
    {
      CombineSpec(s[k].balances, initPort.balances, -1.0, c);
    }
  }

  // ---------------------------------------------------------------------
  // Reference rates

  /** `ReferenceRate`: the price of a pair at a time. */
  datatype ReferenceRate = ReferenceRate(time: int, price: real)

  /** `ReferenceRateBook`: a rate series per pair. */
  type ReferenceRateBook = map<Pair, seq<ReferenceRate>>

  /** `RefRatesFromTxn`: one rate per trade, at its time and price, in
      trade order. */
  method RefRatesFromTxn(txn: seq<Transaction>) returns (res: seq<ReferenceRate>)
    ensures |res| == |txn|
    ensures forall i :: 0 <= i < |res| ==> res[i].time == txn[i].timeStamp && res[i].price == txn[i].price
  {
    res := [];
    for i := 0 to |txn|
      invariant |res| == i
      invariant forall k :: 0 <= k < i ==> res[k].time == txn[k].timeStamp && res[k].price == txn[k].price
    {
      res := res + [ReferenceRate(txn[i].timeStamp, txn[i].price)];
    }
  }

  /** Rate times never decrease along `v`. */
  predicate RatesOrdered(v: seq<ReferenceRate>)
  {
    forall i, j :: 0 <= i < j < |v| ==> v[i].time <= v[j].time
  }

  /** `ReferenceRateTS.Sort`: `sort.Slice` by time, in place. */
  method SortRates(a: array<ReferenceRate>)
    modifies a
    ensures multiset(a[..]) == multiset(old(a[..]))
    ensures RatesOrdered(a[..])
  {
    var before := (x: ReferenceRate, y: ReferenceRate) => x.time < y.time;
    Sorting.ByKey(a[..], before, (x: ReferenceRate) => x.time as real);
    Sorting.SortSlice(a, before);
  }

  /** The rates of `v` with a non-zero price, in order. */
  function NonZero(v: seq<ReferenceRate>): (r: seq<ReferenceRate>)
    ensures |r| <= |v|
    ensures forall x :: x in r <==> x in v && x.price != 0.0
  {
    if v == [] then []
    else NonZero(v[..|v| - 1]) + (if v[|v| - 1].price != 0.0 then [v[|v| - 1]] else [])
  }

  lemma {:induction false} NonZeroOrdered(v: seq<ReferenceRate>)
    requires RatesOrdered(v)
    ensures RatesOrdered(NonZero(v))
  {
    if v != [] {
      var v0 := v[..|v| - 1];
      assert RatesOrdered(v0);
      NonZeroOrdered(v0);
      forall x | x in NonZero(v0)
        ensures x.time <= v[|v| - 1].time
      {
        var i :| 0 <= i < |v0| && v0[i] == x;
      }
    }
  }

  /** The index of the first rate at or after `tm`, `|v|` when none is. */
  function FirstAtOrAfter(v: seq<ReferenceRate>, tm: int): (j: nat)
    ensures j <= |v|
    ensures forall k :: 0 <= k < j ==> v[k].time < tm
    ensures j < |v| ==> v[j].time >= tm
  {
    if v == [] then 0 else if v[0].time >= tm then 0 else 1 + FirstAtOrAfter(v[1..], tm)
  }

  /** The rate `LookupRate` picks among the non-zero rates `v`, sorted by
      time: none gives 0; past the last rate, the last; otherwise the
      first rate at or after `tm`, unless `tm` falls strictly after its
      predecessor and is nearer to it. */
  function Nearest(v: seq<ReferenceRate>, tm: int): real
  {
    if v == [] then 0.0
    else
      var j := FirstAtOrAfter(v, tm);
      if j == |v| then v[|v| - 1].price
      else if j > 0 && v[j].time > tm && SubTime(tm, v[j - 1].time) < SubTime(v[j].time, tm) then v[j - 1].price
      else v[j].price
  }

  /** The lookup rule stated position by position, for rates sorted by
      time: no rate gives 0; a time at or before the first rate gives the
      first; a time after the last gives the last; a time equal to a
      rate's (the first among equal times) gives that rate; a time
      strictly between two neighbours gives the nearer, the later on a
      tie; and the answer is always one of the prices. */
  lemma NearestSpec(v: seq<ReferenceRate>, tm: int)
    requires RatesOrdered(v)
    ensures v == [] ==> Nearest(v, tm) == 0.0
    ensures v != [] && tm <= v[0].time ==> Nearest(v, tm) == v[0].price
    ensures v != [] && tm > v[|v| - 1].time ==> Nearest(v, tm) == v[|v| - 1].price
    ensures forall k :: 0 <= k < |v| && v[k].time == tm && (k == 0 || v[k - 1].time < tm) ==>
      Nearest(v, tm) == v[k].price
    ensures forall k :: 0 < k < |v| && v[k - 1].time < tm < v[k].time ==>
      Nearest(v, tm) == (if SubTime(tm, v[k - 1].time) < SubTime(v[k].time, tm) then v[k - 1].price else v[k].price)
    ensures v != [] ==> exists k :: 0 <= k < |v| && Nearest(v, tm) == v[k].price
  {
    if v != [] {
      var j := FirstAtOrAfter(v, tm);
      forall k | 0 <= k < |v| && v[k].time == tm && (k == 0 || v[k - 1].time < tm)
        ensures j == k
      {
      }
      forall k | 0 < k < |v| && v[k - 1].time < tm < v[k].time
        ensures j == k
      {
      }
    }
  }

  /** The series of `pair` in the book, empty when absent. */
  function Series(book: ReferenceRateBook, pair: Pair): seq<ReferenceRate>
  {
    if pair in book then book[pair] else []
  }

  /** `s` is a sorting by time of the series of `pair`. */
  ghost predicate SortingOf(book: ReferenceRateBook, pair: Pair, s: seq<ReferenceRate>)
  {
    multiset(s) == multiset(Series(book, pair)) && RatesOrdered(s)
  }

  /** `r` is what `LookupRate` answers when its sort arranges the series
      as `s` (Go leaves the order of equal times open). */
  ghost predicate LooksUp(book: ReferenceRateBook, pair: Pair, tm: int, r: real, s: seq<ReferenceRate>)
  {
    SortingOf(book, pair, s) && r == Nearest(NonZero(s), tm)
  }

  /** `LookupRate`: sorts the series by time, drops zero prices and picks
      the nearest rate to `tm` by the rule of `Nearest`. The answer is 0
      exactly when the series has no non-zero price, and is otherwise one
      of its prices. */
  method LookupRate(pair: Pair, tm: int, ratesbook: ReferenceRateBook) returns (rate: real, ghost sorted: seq<ReferenceRate>)
    ensures SortingOf(ratesbook, pair, sorted)
    ensures rate == Nearest(NonZero(sorted), tm)
    ensures rate == 0.0 <==> forall x :: x in Series(ratesbook, pair) ==> x.price == 0.0
    ensures rate != 0.0 ==> exists x :: x in Series(ratesbook, pair) && x.price == rate
  {
    var ratests := Series(ratesbook, pair);
    var a := new ReferenceRate[|ratests|](i requires 0 <= i < |ratests| => ratests[i]);
    assert a[..] == ratests;
    SortRates(a);
    sorted := a[..];
    var valid := Filter(a[..]);
    NonZeroOrdered(sorted);
    rate := Scan(valid, tm);
    NearestSpec(valid, tm);
    assert forall x :: x in sorted <==> x in ratests by {
      forall x
        ensures x in sorted <==> x in ratests
      {
        assert x in sorted <==> x in multiset(sorted);
        assert x in ratests <==> x in multiset(ratests);
      }
    }
    if valid != [] {
      var k :| 0 <= k < |valid| && rate == valid[k].price;
      assert valid[k] in valid;
    } else {
      forall x | x in ratests
        ensures x.price == 0.0
      {
        assert x !in valid;
      }
    }
  }

  /** The filter loop of `LookupRate`. */
  method Filter(v: seq<ReferenceRate>) returns (valid: seq<ReferenceRate>)
    ensures valid == NonZero(v)
  {
    valid := [];
    for i := 0 to |v|
      invariant valid == NonZero(v[..i])
    {
      assert v[..i + 1][..i] == v[..i];
      if v[i].price != 0.0 {
        valid := valid + [v[i]];
      }
    }
    assert v[..|v|] == v;
  }

  /** The scan of `LookupRate` over sorted non-zero rates, with Go's
      previous/current variables and its early exit. */
  method Scan(v: seq<ReferenceRate>, tm: int) returns (rate: real)
    ensures rate == Nearest(v, tm)
  {
    var prevTime, prevRate := -ZeroToUnix, 0.0;
    var currTime, currRate := -ZeroToUnix, 0.0;
    var i := 0;
    while i < |v|
      invariant 0 <= i <= |v|
      invariant forall k :: 0 <= k < i ==> v[k].time < tm
      invariant i > 0 ==> prevTime == currTime == v[i - 1].time && prevRate == currRate == v[i - 1].price
      invariant i == 0 ==> prevTime == currTime && currRate == 0.0
    {
      if i == 0 {
        prevTime, prevRate := v[i].time, v[i].price;
      }
      currTime, currRate := v[i].time, v[i].price;
      if currTime < tm {
        prevTime, prevRate := currTime, currRate;
        i := i + 1;
      } else {
        break;
      }
    }
    ghost var j := FirstAtOrAfter(v, tm);
    assert i == j by {
      if i < |v| {
        assert v[i].time >= tm;
      }
    }
    if currTime > tm && prevTime < tm {
      var duration1 := SubTime(tm, prevTime);
      var duration2 := SubTime(currTime, tm);
      if duration1 < duration2 {
        rate := prevRate;
      } else {
        rate := currRate;
      }
    } else {
      rate := currRate;
    }
  }

  // ---------------------------------------------------------------------
  // Performance

  /** `Performance`: the value of a snapshot in a base coin and its change
      from the previous one. */
  datatype Performance = Performance(time: int, mtmBase: Coin, pv: real, pnl: real)

  /** `order` lists the coins of `m`, each once: the map order of Go's
      loop over the balances. */
  ghost predicate Enumerates(order: seq<Coin>, m: map<Coin, real>)
  {
    (forall c :: c in order <==> c in m) &&
    forall i, j :: 0 <= i < j < |order| ==> order[i] != order[j]
  }

  /** The keys of `m` in some order, each once: Go's map order, which the
      language leaves open. */
  method MapOrder(m: map<Coin, real>) returns (order: seq<Coin>)
    ensures Enumerates(order, m)
  {
    var port := new Portfolio.FromMaps(m, map[]);
    order := port.Coins();
  }

  /** An order for the balances of each snapshot. */
  method OrdersOf(snapts: seq<Snapshot>) returns (orders: seq<seq<Coin>>)
    ensures |orders| == |snapts|
    ensures forall i :: 0 <= i < |snapts| ==> Enumerates(orders[i], snapts[i].balances)
  {
    orders := [];
    for i := 0 to |snapts|
      invariant |orders| == i
      invariant forall k :: 0 <= k < i ==> Enumerates(orders[k], snapts[k].balances)
    {
      var order := MapOrder(snapts[i].balances);
      orders := orders + [order];
    }
  }

  /** The balances of the listed coins weighted by their rates. */
  function Marked(order: seq<Coin>, m: map<Coin, real>, rates: seq<real>): real
    requires |rates| == |order|
  {
    if order == [] then 0.0
    else Marked(order[..|order| - 1], m, rates[..|rates| - 1]) + Worth(rates[|rates| - 1], Get(m, order[|order| - 1]))
  }

  lemma MarkedSnoc(order: seq<Coin>, m: map<Coin, real>, rates: seq<real>, c: Coin, r: real)
    requires |rates| == |order|
    ensures Marked(order + [c], m, rates + [r]) == Marked(order, m, rates) + Worth(r, Get(m, c))
  {
    assert (order + [c])[..|order|] == order;
    assert (rates + [r])[..|rates|] == rates;
  }

  /** The rate of `c` in `mtmBase` at `tm`: 1 for the base itself,
      otherwise a lookup of the pair `c/mtmBase`. */
  ghost predicate RateOf(book: ReferenceRateBook, c: Coin, mtmBase: Coin, tm: int, r: real, s: seq<ReferenceRate>)
  {
    if c == mtmBase then r == 1.0 else LooksUp(book, Pair(c, mtmBase), tm, r, s)
  }

  /** The rate of one coin in `EvaluateSnapshot`. */
  method RateFor(c: Coin, mtmBase: Coin, tm: int, ratesbook: ReferenceRateBook) returns (rate: real, ghost s: seq<ReferenceRate>)
    ensures RateOf(ratesbook, c, mtmBase, tm, rate, s)
  {
    if c == mtmBase {
      rate, s := 1.0, [];
    } else {
      rate, s := LookupRate(Pair(c, mtmBase), tm, ratesbook);
    }
  }

  /** `rates` are the rates of the first `|rates|` coins of `order`. */
  ghost predicate RatesOf(book: ReferenceRateBook, order: seq<Coin>, mtmBase: Coin, tm: int,
                          rates: seq<real>, ss: seq<seq<ReferenceRate>>)
  {
    |rates| <= |order| && |ss| == |rates| &&
    forall i :: 0 <= i < |rates| ==> RateOf(book, order[i], mtmBase, tm, rates[i], ss[i])
  }

  lemma RatesOfSnoc(book: ReferenceRateBook, order: seq<Coin>, mtmBase: Coin, tm: int,
                    rates: seq<real>, ss: seq<seq<ReferenceRate>>, r: real, s: seq<ReferenceRate>)
    requires RatesOf(book, order, mtmBase, tm, rates, ss) && |rates| < |order|
    requires RateOf(book, order[|rates|], mtmBase, tm, r, s)
    ensures RatesOf(book, order, mtmBase, tm, rates + [r], ss + [s])
  {
  }

  /** No rate is zero. */
  predicate AllNonZero(rates: seq<real>)
  {
    forall i :: 0 <= i < |rates| ==> rates[i] != 0.0
  }

  lemma ZeroEnds(rates: seq<real>, rate: real)
    requires AllNonZero(rates) && rate == 0.0
    ensures MeetsZero(rates + [rate]) && !AllNonZero(rates + [rate])
  {
    assert (rates + [rate])[|rates|] == 0.0;
    assert (rates + [rate])[..|rates|] == rates;
  }

  /** Every coin of `order` has a rate and none is zero. */
  predicate Priced(order: seq<Coin>, rates: seq<real>)
  {
    |rates| == |order| && AllNonZero(rates)
  }

  /** The rates end at the first zero one. */
  predicate MeetsZero(rates: seq<real>)
  {
    |rates| > 0 && rates[|rates| - 1] == 0.0 && AllNonZero(rates[..|rates| - 1])
  }

  /** One pass of the loop of `EvaluateSnapshot`: the rate of the next
      coin and, when it is not 0, the running sum with that coin marked. */
  method MarkNext(snap: Snapshot, mtmBase: Coin, ratesbook: ReferenceRateBook, order: seq<Coin>,
                  i: nat, ghost rates: seq<real>, ghost ss: seq<seq<ReferenceRate>>, pv: real)
    returns (rate: real, pv1: real, ghost s: seq<ReferenceRate>)
    requires Enumerates(order, snap.balances) && i == |rates| < |order|
    requires RatesOf(ratesbook, order, mtmBase, snap.time, rates, ss)
    requires pv == Marked(order[..|rates|], snap.balances, rates)
    ensures RatesOf(ratesbook, order, mtmBase, snap.time, rates + [rate], ss + [s])
    ensures rate != 0.0 ==> pv1 == Marked(order[..|rates| + 1], snap.balances, rates + [rate])
  {
    var k := order[i];
    var v := snap.balances[k];
    rate, s := RateFor(k, mtmBase, snap.time, ratesbook);
    RatesOfSnoc(ratesbook, order, mtmBase, snap.time, rates, ss, rate, s);
    assert order[..i + 1] == order[..i] + [k];
    MarkedSnoc(order[..i], snap.balances, rates, k, rate);
    pv1 := pv;
    if rate != 0.0 {
      pv1 := pv + Worth(rate, v);
    }
  }

  /** `EvaluateSnapshot`: marks every balance at its rate and sums them,
      the coins taken in the order `order`. `None` stands for Go's panic
      when a rate is 0; the ghost `rates` are the rates found, up to and
      including the zero one. */
  method EvaluateSnapshot(snap: Snapshot, mtmBase: Coin, ratesbook: ReferenceRateBook, order: seq<Coin>)
    returns (perf: Option<Performance>, ghost rates: seq<real>, ghost sortings: seq<seq<ReferenceRate>>)
    requires Enumerates(order, snap.balances)
    ensures RatesOf(ratesbook, order, mtmBase, snap.time, rates, sortings)
    ensures perf.Some? <==> Priced(order, rates)
    ensures perf.None? ==> MeetsZero(rates)
    ensures perf.Some? ==> perf.value == Performance(snap.time, mtmBase, Marked(order, snap.balances, rates), 0.0)
  {
    var pv := 0.0;
    rates, sortings := [], [];
    for i := 0 to |order|
      invariant |rates| == i
      invariant RatesOf(ratesbook, order, mtmBase, snap.time, rates, sortings) && AllNonZero(rates)
      invariant pv == Marked(order[..i], snap.balances, rates)
    {
      var rate;
      ghost var s;
      rate, pv, s := MarkNext(snap, mtmBase, ratesbook, order, i, rates, sortings, pv);
      sortings := sortings + [s];
      if rate == 0.0 {
        ZeroEnds(rates, rate);
        rates := rates + [rate];
        perf := None;
        return;
      }
      rates := rates + [rate];
    }
    assert order[..|order|] == order;
    perf := Some(Performance(snap.time, mtmBase, pv, 0.0));
  }

  /** Each change is the difference of consecutive values, the first 0. */
  predicate Chained(ps: seq<Performance>)
  {
    (|ps| > 0 ==> ps[0].pnl == 0.0) &&
    forall i :: 0 < i < |ps| ==> ps[i].pnl == ps[i].pv - ps[i - 1].pv
  }

  /** The sum of the changes of a series. */
  function SumPnL(ps: seq<Performance>): real
  {
    if ps == [] then 0.0 else SumPnL(ps[..|ps| - 1]) + ps[|ps| - 1].pnl
  }

  /** The changes of a chained series telescope: they add up to the last
      value less the first. */
  lemma {:induction false} Telescoping(ps: seq<Performance>)
    requires Chained(ps) && |ps| > 0
    ensures SumPnL(ps) == ps[|ps| - 1].pv - ps[0].pv
  {
    if |ps| > 1 {
      var ps0 := ps[..|ps| - 1];
      assert Chained(ps0);
      Telescoping(ps0);
    }
  }

  /** `rates[i]` are the rates `EvaluateSnapshot` finds for snapshot `i`,
      for the first `|rates|` snapshots. */
  ghost predicate MarksOf(snapts: seq<Snapshot>, mtmBase: Coin, ratesbook: ReferenceRateBook, orders: seq<seq<Coin>>,
                          rates: seq<seq<real>>, ss: seq<seq<seq<ReferenceRate>>>)
  {
    |ss| == |rates| <= |snapts| == |orders| &&
    forall i :: 0 <= i < |rates| ==> RatesOf(ratesbook, orders[i], mtmBase, snapts[i].time, rates[i], ss[i])
  }

  /** Each of the first `n` snapshots has all its rates, none zero. */
  predicate AllPriced(orders: seq<seq<Coin>>, rates: seq<seq<real>>, n: int)
    requires n <= |rates| <= |orders|
  {
    forall i :: 0 <= i < n ==> Priced(orders[i], rates[i])
  }

  /** The performance of snapshot `i`, the change left aside: its time,
      the base and its marked value. */
  predicate ValuedAt(p: Performance, snap: Snapshot, mtmBase: Coin, order: seq<Coin>, rates: seq<real>)
    requires |rates| == |order|
  {
    p.time == snap.time && p.mtmBase == mtmBase && p.pv == Marked(order, snap.balances, rates)
  }

  /** `EvaluateSnapshotTS`: one performance per snapshot, at its time, in
      the base, valued at the snapshot's balances marked at the rates found
      for it, each change the difference from the previous value. The
      result is `None` exactly when a snapshot meets a zero rate: the ghost
      `rates` then stop at that snapshot, whose rates end at the zero one.
      Each snapshot has its own coin order. */
  method EvaluateSnapshotTS(snapts: seq<Snapshot>, mtmBase: Coin, ratesbook: ReferenceRateBook, orders: seq<seq<Coin>>)
    returns (perfts: Option<seq<Performance>>, ghost rates: seq<seq<real>>, ghost ss: seq<seq<seq<ReferenceRate>>>)
    requires |orders| == |snapts|
    requires forall i :: 0 <= i < |snapts| ==> Enumerates(orders[i], snapts[i].balances)
    ensures MarksOf(snapts, mtmBase, ratesbook, orders, rates, ss)
    ensures perfts.Some? <==> |rates| == |snapts| && AllPriced(orders, rates, |rates|)
    ensures perfts.None? ==> |rates| > 0 && AllPriced(orders, rates, |rates| - 1) && MeetsZero(rates[|rates| - 1])
    ensures perfts.Some? ==> |perfts.value| == |snapts| && Chained(perfts.value)
    ensures perfts.Some? ==> forall i :: 0 <= i < |snapts| ==>
      ValuedAt(perfts.value[i], snapts[i], mtmBase, orders[i], rates[i])
  {
    var res: seq<Performance> := [];
    rates, ss := [], [];
    for i := 0 to |snapts|
      invariant |res| == i && Evaluated(res, snapts, mtmBase, ratesbook, orders, rates, ss)
    {
      var perf;
      ghost var r, s;
      perf, r, s := EvaluateSnapshot(snapts[i], mtmBase, ratesbook, orders[i]);
      MarksSnoc(snapts, mtmBase, ratesbook, orders, rates, ss, r, s);
      if perf.None? {
        return None, rates + [r], ss + [s];
      }
      var p := perf.value;
      if i > 0 {
        p := p.(pnl := p.pv - res[i - 1].pv);
      }
      EvaluatedSnoc(res, p, snapts, mtmBase, ratesbook, orders, rates, ss, r, s);
      rates, ss := rates + [r], ss + [s];
      res := res + [p];
    }
    perfts := Some(res);
  }

  /** The loop of `EvaluateSnapshotTS` after `|res|` snapshots: each valued
      at the rates found for it, none zero, the changes chained. */
  ghost predicate Evaluated(res: seq<Performance>, snapts: seq<Snapshot>, mtmBase: Coin, ratesbook: ReferenceRateBook,
                            orders: seq<seq<Coin>>, rates: seq<seq<real>>, ss: seq<seq<seq<ReferenceRate>>>)
  {
    |res| == |rates| && Chained(res) &&
    MarksOf(snapts, mtmBase, ratesbook, orders, rates, ss) && AllPriced(orders, rates, |rates|) &&
    forall k :: 0 <= k < |res| ==> ValuedAt(res[k], snapts[k], mtmBase, orders[k], rates[k])
  }

  lemma EvaluatedSnoc(res: seq<Performance>, p: Performance, snapts: seq<Snapshot>, mtmBase: Coin,
                      ratesbook: ReferenceRateBook, orders: seq<seq<Coin>>, rates: seq<seq<real>>,
                      ss: seq<seq<seq<ReferenceRate>>>, r: seq<real>, s: seq<seq<ReferenceRate>>)
    requires Evaluated(res, snapts, mtmBase, ratesbook, orders, rates, ss) && |res| < |snapts|
    requires MarksOf(snapts, mtmBase, ratesbook, orders, rates + [r], ss + [s])
    requires Priced(orders[|rates|], r) && ValuedAt(p, snapts[|rates|], mtmBase, orders[|rates|], r)
    requires p.pnl == if |res| > 0 then p.pv - res[|res| - 1].pv else 0.0
    ensures Evaluated(res + [p], snapts, mtmBase, ratesbook, orders, rates + [r], ss + [s])
  {
    ValuedSnoc(res, p, snapts, mtmBase, orders, rates, r);
  }

  /** The rates of one more snapshot. */
  lemma MarksSnoc(snapts: seq<Snapshot>, mtmBase: Coin, ratesbook: ReferenceRateBook, orders: seq<seq<Coin>>,
                  rates: seq<seq<real>>, ss: seq<seq<seq<ReferenceRate>>>, r: seq<real>, s: seq<seq<ReferenceRate>>)
    requires MarksOf(snapts, mtmBase, ratesbook, orders, rates, ss) && |rates| < |snapts|
    requires AllPriced(orders, rates, |rates|)
    requires RatesOf(ratesbook, orders[|rates|], mtmBase, snapts[|rates|].time, r, s)
    ensures MarksOf(snapts, mtmBase, ratesbook, orders, rates + [r], ss + [s])
    ensures AllPriced(orders, rates + [r], |rates|)
    ensures Priced(orders[|rates|], r) ==> AllPriced(orders, rates + [r], |rates| + 1)
  {
  }

  /** The performance of one more snapshot. */
  lemma ValuedSnoc(res: seq<Performance>, p: Performance, snapts: seq<Snapshot>, mtmBase: Coin,
                   orders: seq<seq<Coin>>, rates: seq<seq<real>>, r: seq<real>)
    requires |res| == |rates| < |snapts| == |orders| && AllPriced(orders, rates, |rates|)
    requires forall k :: 0 <= k < |res| ==> ValuedAt(res[k], snapts[k], mtmBase, orders[k], rates[k])
    requires Priced(orders[|rates|], r) && ValuedAt(p, snapts[|rates|], mtmBase, orders[|rates|], r)
    ensures AllPriced(orders, rates + [r], |rates| + 1)
    ensures forall k :: 0 <= k < |res| + 1 ==>
      ValuedAt((res + [p])[k], snapts[k], mtmBase, orders[k], (rates + [r])[k])
  {
  }

  /** The distance in time of a performance from `t`, as Go's float. */
  function Gap(p: Performance, t: int): real
  {
    Abs(SubTime(p.time, t) as real)
  }

  /** `idx` is the first entry nearest to `t`. */
  predicate FirstNearest(ps: seq<Performance>, t: int, idx: int)
  {
    0 <= idx < |ps| &&
    (forall i :: 0 <= i < |ps| ==> Gap(ps[idx], t) <= Gap(ps[i], t)) &&
    (forall i :: 0 <= i < idx ==> Gap(ps[idx], t) < Gap(ps[i], t))
  }

  /** There is only one first nearest entry. */
  lemma FirstNearestUnique(ps: seq<Performance>, t: int, i: int)
    requires FirstNearest(ps, t, i)
    ensures forall j :: 0 <= j < |ps| && j != i ==> !FirstNearest(ps, t, j)
  {
    forall j | 0 <= j < |ps| && j != i
      ensures !FirstNearest(ps, t, j)
    {
      if j < i {
        assert Gap(ps[i], t) < Gap(ps[j], t);
      } else {
        assert Gap(ps[j], t) > Gap(ps[i], t) || Gap(ps[j], t) == Gap(ps[i], t);
      }
    }
  }

  /** `PnLSince`: 0 for no entries, else the last value less the value of
      the first entry nearest to `t`. */
  method PnLSince(ps: seq<Performance>, t: int) returns (pnl: real)
    ensures |ps| == 0 ==> pnl == 0.0
    ensures |ps| > 0 ==> exists idx :: FirstNearest(ps, t, idx) && pnl == ps[|ps| - 1].pv - ps[idx].pv
  {
    if |ps| == 0 {
      return 0.0;
    }
    var lastPV := ps[|ps| - 1].pv;
    var idx := 0;
    var minGap := Gap(ps[0], t);
    for i := 0 to |ps|
      invariant 0 <= idx < |ps| && minGap == Gap(ps[idx], t)
      invariant idx <= i
      invariant forall k :: 0 <= k < i ==> minGap <= Gap(ps[k], t)
      invariant forall k :: 0 <= k < idx ==> minGap < Gap(ps[k], t)
    {
      if Gap(ps[i], t) < minGap {
        idx := i;
        minGap := Gap(ps[i], t);
      }
    }
    pnl := lastPV - ps[idx].pv;
    assert FirstNearest(ps, t, idx);
  }
}
