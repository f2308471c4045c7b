/**
 * The interval performance of a trade log in eval.go: the trades, sorted
 * by time, are cut into intervals from the first trade's time truncated to
 * the interval; a portfolio snapshot is kept at each boundary and at the
 * end, and every snapshot is marked to BTC and to USDT with the last
 * price a list of quotes gives up to the snapshot's cut.
 *
 * strats/eval.go repeats the same bucketing and marking with the quotes
 * taken from a transaction tape instead of the trade log itself; both read
 * only each quote's pair, price and time, so the marking here is over
 * `Quote` values and the module StratsEval supplies the tape's.
 *
 * `Portfolio.Age` is called by `GenPerf` but not defined in the files
 * modelled here; it is the parameter `age`, applied one trade at a time
 * as `GenPerf` does.
 */
module Eval {
  import opened Wrappers
  import opened Num
  import opened Chrono
  import opened Coins
  import opened Pairs
  import opened Portfolios
  import opened TradeLogs
  import Evaluate
  import Sorting
  import Books

  /** What a snapshot keeps of a portfolio: `Clone` copies the balances
      and the locks. */
  datatype Holding = Holding(balances: map<Coin, real>, locked: map<Coin, real>)

  /** `Portfolio.Age` with one trade. */
  type AgeFn = (Holding, TradeLog) -> Holding

  /** `Perf`: the inception, the interval, and per snapshot the holding
      and its marks in BTC and in USDT. */
  datatype Perf = Perf(inception: int, interval: int, port: seq<Holding>, mtmBTC: seq<Fl>, mtmUSD: seq<Fl>)

  /** The zero `Perf` an empty trade log gives: Go's zero time, no
      interval, no snapshots. */
  const ZeroPerf: Perf := Perf(-ZeroToUnix, 0, [], [], [])

  /** A price as `inBTC` reads it. */
  datatype Quote = Quote(pair: Pair, price: real, time: int)

  /** The trade log read as quotes, trade by trade. */
  function Quotes(ts: seq<TradeLog>): (qs: seq<Quote>)
    ensures |qs| == |ts|
    ensures forall k :: 0 <= k < |ts| ==> qs[k] == Quote(ts[k].pair, ts[k].price, ts[k].time)
  {
    seq(|ts|, k requires 0 <= k < |ts| => Quote(ts[k].pair, ts[k].price, ts[k].time))
  }

  predicate InTimeOrder(ts: seq<TradeLog>)
  {
    forall i, j :: 0 <= i < j < |ts| ==> ts[i].time <= ts[j].time
  }

  // ---------------------------------------------------------------------
  // inBTC

  /** What one quote says of the price of `coin` in BTC: the price of a
      COIN/BTC quote, one over the price of a BTC/COIN quote (the second
      test wins when both hold), nothing otherwise. Go's +Inf for a zero
      BTC/COIN price is NaN here. */
  function Says(q: Quote, coin: Coin): Option<Fl>
  {
    if q.pair.base == coin && q.pair.coin == BTC then Some(Div(1.0, q.price))
    else if q.pair.coin == coin && q.pair.base == BTC then Some(R(q.price))
    else None
  }

  /** The quotes `inBTC` reads before it stops: all of them up to and
      including the first one later than `cut`. */
  function Read(qs: seq<Quote>, cut: int): (r: seq<Quote>)
    ensures r <= qs
    ensures forall k :: 0 <= k < |r| - 1 ==> r[k].time <= cut
    ensures r == qs || (r != [] && r[|r| - 1].time > cut)
  {
    if qs == [] then []
    else if qs[0].time > cut then [qs[0]]
    else [qs[0]] + Read(qs[1..], cut)
  }

  /** The price the last quote of `s` that says one gives, NaN when none
      does. */
  function LastSaid(s: seq<Quote>, coin: Coin): (r: Fl)
    ensures (forall k :: 0 <= k < |s| ==> Says(s[k], coin).None?) ==> r == NaN
  {
    if s == [] then NaN
    else
      var s0 := s[..|s| - 1];
      assert forall k :: 0 <= k < |s0| ==> s0[k] == s[k];
      match Says(s[|s| - 1], coin)
      case Some(v) => v
      case None => LastSaid(s0, coin)
  }

  /** The price given is that of the last quote that says one. */
  lemma {:induction false} LastSaidIsLast(s: seq<Quote>, coin: Coin, j: nat)
    requires j < |s| && Says(s[j], coin).Some?
    requires forall k :: j < k < |s| ==> Says(s[k], coin).None?
    ensures LastSaid(s, coin) == Says(s[j], coin).value
  {
    if j < |s| - 1 {
      var s0 := s[..|s| - 1];
      assert forall k :: 0 <= k < |s0| ==> s0[k] == s[k];
      LastSaidIsLast(s0, coin, j);
    }
  }

  lemma LastSaidSnoc(qs: seq<Quote>, i: nat, coin: Coin)
    requires i < |qs|
    ensures LastSaid(qs[..i + 1], coin) ==
      if Says(qs[i], coin).Some? then Says(qs[i], coin).value else LastSaid(qs[..i], coin)
  {
    assert qs[..i + 1][..i] == qs[..i];
  }

  /** `inBTC`'s answer: 1 for BTC itself, else the last price read. */
  function Rate(qs: seq<Quote>, coin: Coin, cut: int): Fl
  {
    if coin == BTC then R(1.0) else LastSaid(Read(qs, cut), coin)
  }

  /** Over quotes in time order, every quote at or before `cut` is read,
      and at most one after it. */
  lemma ReadSorted(qs: seq<Quote>, cut: int)
    requires forall i, j :: 0 <= i < j < |qs| ==> qs[i].time <= qs[j].time
    ensures forall k :: 0 <= k < |qs| && qs[k].time <= cut ==> k < |Read(qs, cut)|
    ensures forall k :: 0 <= k < |Read(qs, cut)| - 1 ==> qs[k].time <= cut
  {
  }

  /** When the quotes before `i` are at or before `cut` and quote `i` is
      not, the read stops at `i`. */
  lemma ReadStops(qs: seq<Quote>, cut: int, i: nat)
    requires i < |qs| && qs[i].time > cut
    requires forall k :: 0 <= k < i ==> qs[k].time <= cut
    ensures Read(qs, cut) == qs[..i + 1]
  {
  }

  /** When every quote is at or before `cut`, all are read. */
  lemma ReadAll(qs: seq<Quote>, cut: int)
    requires forall k :: 0 <= k < |qs| ==> qs[k].time <= cut
    ensures Read(qs, cut) == qs
  {
  }

  /** `inBTC`: scans the quotes in order, keeping the last price said of
      `coin`, and stops after the first quote later than `cut`. */
  method InBTC(qs: seq<Quote>, coin: Coin, cut: int) returns (rate: Fl)
    ensures rate == Rate(qs, coin, cut)
  {
    if coin == BTC {
      return R(1.0);
    }
    rate := NaN;
    var i := 0;
    while i < |qs|
      invariant 0 <= i <= |qs|
      invariant forall k :: 0 <= k < i ==> qs[k].time <= cut
      invariant rate == LastSaid(qs[..i], coin)
    {
      var q := qs[i];
      ghost var before := rate;
      if q.pair.coin == coin && q.pair.base == BTC {
        rate := R(q.price);
      }
      if q.pair.base == coin && q.pair.coin == BTC {
        rate := Div(1.0, q.price);
      }
      LastSaidSnoc(qs, i, coin);
      assert rate == if Says(q, coin).Some? then Says(q, coin).value else before;
      if q.time > cut {
        ReadStops(qs, cut, i);
        return;
      }
      assert forall k :: 0 <= k < i + 1 ==> qs[k].time <= cut by {
        assert q.time <= cut;
      }
      i := i + 1;
    }
    assert qs[..i] == qs;
    ReadAll(qs, cut);
  }

  // ---------------------------------------------------------------------
  // Marking

  /** One coin's balance in BTC. */
  function Term(m: map<Coin, real>, c: Coin, qs: seq<Quote>, cut: int): Fl
  {
    Mul(R(Get(m, c)), Rate(qs, c, cut))
  }

  /** The BTC mark of `m`, summing its coins in the map order `order`:
      a number exactly when every listed coin has a rate. */
  function MarkOf(order: seq<Coin>, m: map<Coin, real>, qs: seq<Quote>, cut: int): (r: Fl)
    ensures r.R? <==> forall k :: 0 <= k < |order| ==> Rate(qs, order[k], cut).R?
  {
    if order == [] then R(0.0)
    else
      var o0 := order[..|order| - 1];
      assert forall k :: 0 <= k < |o0| ==> o0[k] == order[k];
      Add(MarkOf(o0, m, qs, cut), Term(m, order[|order| - 1], qs, cut))
  }

  lemma FlAddAssoc(a: Fl, b: Fl, c: Fl)
    ensures Add(Add(a, b), c) == Add(a, Add(b, c))
  {
  }

  lemma FlAddComm(a: Fl, b: Fl)
    ensures Add(a, b) == Add(b, a)
  {
  }

  /** Marking two runs of coins is adding their marks. */
  lemma {:induction false} MarkAppend(a: seq<Coin>, b: seq<Coin>, m: map<Coin, real>, qs: seq<Quote>, cut: int)
    ensures MarkOf(a + b, m, qs, cut) == Add(MarkOf(a, m, qs, cut), MarkOf(b, m, qs, cut))
    decreases |b|
  {
    if b == [] {
      assert a + b == a;
    } else {
      var b0 := b[..|b| - 1];
      assert (a + b)[..|a + b| - 1] == a + b0;
      assert (a + b)[|a + b| - 1] == b[|b| - 1];
      MarkAppend(a, b0, m, qs, cut);
      FlAddAssoc(MarkOf(a, m, qs, cut), MarkOf(b0, m, qs, cut), Term(m, b[|b| - 1], qs, cut));
    }
  }

  /** The mark does not depend on the order the coins are summed in. */
  lemma {:induction false} MarkPermutation(a: seq<Coin>, b: seq<Coin>, m: map<Coin, real>, qs: seq<Quote>, cut: int)
    requires multiset(a) == multiset(b)
    ensures MarkOf(a, m, qs, cut) == MarkOf(b, m, qs, cut)
    decreases |a|
  {
    if a == [] {
      assert |b| == |multiset(b)| == 0;
    } else {
      var x := a[|a| - 1];
      var a0 := a[..|a| - 1];
      assert a == a0 + [x];
      assert x in multiset(b);
      var k := Sorting.IndexOf(b, x);
      var b0 := b[..k] + b[k + 1..];
      assert b == b[..k] + [x] + b[k + 1..];
      assert multiset(a0) == multiset(a) - multiset{x};
      assert multiset(b0) == multiset(b) - multiset{x};
      MarkPermutation(a0, b0, m, qs, cut);
      MarkAppend(b[..k] + [x], b[k + 1..], m, qs, cut);
      MarkAppend(b[..k], [x], m, qs, cut);
      MarkAppend(b[..k], b[k + 1..], m, qs, cut);
      assert MarkOf([x], m, qs, cut) == Add(R(0.0), Term(m, x, qs, cut)) by {
        assert [x][..0] == [];
      }
      var p, t, s := MarkOf(b[..k], m, qs, cut), Term(m, x, qs, cut), MarkOf(b[k + 1..], m, qs, cut);
      FlAddAssoc(p, t, s);
      FlAddComm(t, s);
      FlAddAssoc(p, s, t);
    }
  }

  /** A list of distinct coins holds each listed coin once. */
  lemma {:induction false} DistinctCounts(o: seq<Coin>)
    requires forall i, j :: 0 <= i < j < |o| ==> o[i] != o[j]
    ensures forall x :: multiset(o)[x] == if x in o then 1 else 0
  {
    if o != [] {
      var o0 := o[..|o| - 1];
      assert o == o0 + [o[|o| - 1]];
      DistinctCounts(o0);
    }
  }

  /** Two map orders of the same map list the same coins. */
  lemma EnumerationsAgree(o1: seq<Coin>, o2: seq<Coin>, m: map<Coin, real>)
    requires Evaluate.Enumerates(o1, m) && Evaluate.Enumerates(o2, m)
    ensures multiset(o1) == multiset(o2)
  {
    DistinctCounts(o1);
    DistinctCounts(o2);
    assert forall x :: multiset(o1)[x] == multiset(o2)[x];
  }

  /** Go leaves the map order open, and the mark is the same in every
      one: only floating-point rounding, not modelled, could tell them
      apart. */
  lemma MarkOrderFree(o1: seq<Coin>, o2: seq<Coin>, m: map<Coin, real>, qs: seq<Quote>, cut: int)
    requires Evaluate.Enumerates(o1, m) && Evaluate.Enumerates(o2, m)
    ensures MarkOf(o1, m, qs, cut) == MarkOf(o2, m, qs, cut)
  {
    EnumerationsAgree(o1, o2, m);
    MarkPermutation(o1, o2, m, qs, cut);
  }

  /** The inner loop of the marking: every balance times its BTC rate,
      summed in map order. */
  method MarkBTC(m: map<Coin, real>, qs: seq<Quote>, cut: int) returns (mtm: Fl, ghost order: seq<Coin>)
    ensures Evaluate.Enumerates(order, m)
    ensures mtm == MarkOf(order, m, qs, cut)
  {
    var ord := Evaluate.MapOrder(m);
    order := ord;
    mtm := R(0.0);
    for k := 0 to |ord|
      invariant mtm == MarkOf(ord[..k], m, qs, cut)
    {
      assert ord[..k + 1][..k] == ord[..k];
      var rate := InBTC(qs, ord[k], cut);
      mtm := Add(mtm, Mul(R(m[ord[k]]), rate));
    }
    assert ord[..|ord|] == ord;
  }

  /** The USDT mark: 0 for a zero BTC mark, else the BTC mark over the
      price of USDT in BTC. */
  function InUSD(btc: Fl, usdt: Fl): (r: Fl)
    ensures btc == R(0.0) ==> r == R(0.0)
    ensures btc != R(0.0) ==> (r.R? <==> btc.R? && usdt.R? && usdt.r != 0.0)
    ensures btc != R(0.0) && r.R? ==> r.r * usdt.r == btc.r
  {
    if btc == R(0.0) then R(0.0) else Quotient(btc, usdt)
  }

  /** The cut of snapshot `i`: `Inception.Add(interval * i)`. */
  function Cut(inception: int, interval: int, i: nat): int
  {
    inception + interval * i
  }

  lemma CutNext(inception: int, interval: int, i: nat)
    ensures Cut(inception, interval, i + 1) == Cut(inception, interval, i) + interval
  {
  }

  /** The second loop of `GenPerf`: each snapshot marked to BTC and to
      USDT at its cut, the BTC mark summing the balances in map order. */
  method MarkAll(port: seq<Holding>, inception: int, interval: int, qs: seq<Quote>)
    returns (mtmBTC: seq<Fl>, mtmUSD: seq<Fl>, ghost orders: seq<seq<Coin>>)
    ensures Marked(mtmBTC, mtmUSD, orders, port, qs, inception, interval)
  {
    mtmBTC, mtmUSD, orders := [], [], [];
    ghost var cuts := [];
    for i := 0 to |port|
      invariant |mtmBTC| == |mtmUSD| == |orders| == |cuts| == i
      invariant forall k :: 0 <= k < i ==> cuts[k] == Cut(inception, interval, k)
      invariant forall k :: 0 <= k < i ==> Evaluate.Enumerates(orders[k], port[k].balances)
      invariant forall k :: 0 <= k < i ==> mtmBTC[k] == MarkOf(orders[k], port[k].balances, qs, cuts[k])
      invariant forall k :: 0 <= k < i ==> mtmUSD[k] == InUSD(mtmBTC[k], Rate(qs, USDT, cuts[k]))
    {
      var cut := Cut(inception, interval, i);
      var btc, mtm, order := MarkOne(port[i], qs, cut);
      mtmBTC, mtmUSD, orders, cuts := mtmBTC + [btc], mtmUSD + [mtm], orders + [order], cuts + [cut];
    }
  }

  /** One pass of the second loop of `GenPerf`: the snapshot's marks in
      BTC and in USDT at `cut`. */
  method MarkOne(h: Holding, qs: seq<Quote>, cut: int) returns (btc: Fl, usd: Fl, ghost order: seq<Coin>)
    ensures Evaluate.Enumerates(order, h.balances)
    ensures btc == MarkOf(order, h.balances, qs, cut)
    ensures usd == InUSD(btc, Rate(qs, USDT, cut))
  {
    btc, order := MarkBTC(h.balances, qs, cut);
    usd := R(0.0);
    if btc != R(0.0) {
      var usdt := InBTC(qs, USDT, cut);
      usd := Quotient(btc, usdt);
    }
  }

  // ---------------------------------------------------------------------
  // Bucketing

  /** The holding after ageing `h` by the trades of `ts` in order. */
  function Aged(h: Holding, ts: seq<TradeLog>, age: AgeFn): Holding
  {
    if ts == [] then h else age(Aged(h, ts[..|ts| - 1], age), ts[|ts| - 1])
  }

  /** `next` after `GenPerf` has gone over the trades `s`: it moves one
      interval on at each trade at or after it. */
  function Next(s: seq<TradeLog>, inception: int, interval: int): int
  {
    if s == [] then inception + interval
    else
      var nx := Next(s[..|s| - 1], inception, interval);
      if s[|s| - 1].time >= nx then nx + interval else nx
  }

  /** The snapshots `GenPerf` takes while going over `s`: before ageing a
      trade at or after `next`, the holding so far. */
  function Taken(s: seq<TradeLog>, init: Holding, inception: int, interval: int, age: AgeFn): (r: seq<Holding>)
    ensures |r| <= |s|
  {
    if s == [] then []
    else
      var s0 := s[..|s| - 1];
      Taken(s0, init, inception, interval, age) +
        (if s[|s| - 1].time >= Next(s0, inception, interval) then [Aged(init, s0, age)] else [])
  }

  /** `perf.Port` as written: the initial holding, the snapshots taken,
      and the final holding. */
  function Snapshots(ts: seq<TradeLog>, init: Holding, inception: int, interval: int, age: AgeFn): (r: seq<Holding>)
    ensures 2 <= |r| <= |ts| + 2
    ensures r[0] == init && r[|r| - 1] == Aged(init, ts, age)
  {
    [init] + Taken(ts, init, inception, interval, age) + [Aged(init, ts, age)]
  }

  /** `next` is always one interval past the cut of the last snapshot
      taken, so the final snapshot's cut is the final `next`. */
  lemma {:induction false} NextCount(s: seq<TradeLog>, init: Holding, inception: int, interval: int, age: AgeFn)
    ensures Next(s, inception, interval) == Cut(inception, interval, |Taken(s, init, inception, interval, age)| + 1)
    ensures Cut(inception, interval, |Snapshots(s, init, inception, interval, age)| - 1) == Next(s, inception, interval)
  {
    if s != [] {
      var s0 := s[..|s| - 1];
      NextCount(s0, init, inception, interval, age);
      var n0 := |Taken(s0, init, inception, interval, age)|;
      if s[|s| - 1].time >= Next(s0, inception, interval) {
        assert |Taken(s, init, inception, interval, age)| == n0 + 1;
        CutNext(inception, interval, n0 + 1);
      } else {
        assert |Taken(s, init, inception, interval, age)| == n0;
      }
    }
    assert |Snapshots(s, init, inception, interval, age)| - 1 == |Taken(s, init, inception, interval, age)| + 1;
  }

  /** Each snapshot taken is the holding after a prefix of the trades,
      taken just before the first trade at or after the running `next`;
      the prefixes grow. `at` gives where each was taken. */
  lemma {:induction false} TakenAt(s: seq<TradeLog>, init: Holding, inception: int, interval: int, age: AgeFn)
    returns (at: seq<nat>)
    ensures |at| == |Taken(s, init, inception, interval, age)|
    ensures forall k :: 0 <= k < |at| ==>
              (at[k] < |s| &&
               Taken(s, init, inception, interval, age)[k] == Aged(init, s[..at[k]], age) &&
               s[at[k]].time >= Next(s[..at[k]], inception, interval))
    ensures forall k, l :: 0 <= k < l < |at| ==> at[k] < at[l]
  {
    if s == [] {
      at := [];
    } else {
      var s0 := s[..|s| - 1];
      at := TakenAt(s0, init, inception, interval, age);
      assert forall j :: 0 <= j < |s0| ==> s0[..j] == s[..j] && s0[j] == s[j];
      if s[|s| - 1].time >= Next(s0, inception, interval) {
        assert s[..|s| - 1] == s0;
        at := at + [|s| - 1];
      }
    }
  }

  /** The trades strictly before `c`, when those are exactly the first
      `i`. */
  lemma {:induction false} BeforePrefix(ts: seq<TradeLog>, c: int, i: nat)
    requires i <= |ts|
    requires forall k :: 0 <= k < i ==> ts[k].time < c
    requires forall k :: i <= k < |ts| ==> ts[k].time >= c
    ensures Before(ts, c) == ts[..i]
    decreases |ts|
  {
    if ts != [] {
      var ts0 := ts[..|ts| - 1];
      if |ts| > i {
        BeforePrefix(ts0, c, i);
        assert ts0[..i] == ts[..i];
      } else {
        BeforePrefix(ts0, c, i - 1);
        assert ts0[..i - 1] == ts0;
        assert ts[..i] == ts0 + [ts[|ts| - 1]];
      }
    }
  }

  /** The first loop of `GenPerf` as written: before ageing a trade at or
      after `next`, one snapshot is taken and `next` moves on by one
      interval, however many intervals the trade has passed. */
  method Buckets(ts: seq<TradeLog>, init: Holding, inception: int, interval: int, age: AgeFn)
    returns (port: seq<Holding>)
    ensures port == Snapshots(ts, init, inception, interval, age)
  {
    port := [init];
    var cur := init;
    var next := inception + interval;
    for i := 0 to |ts|
      invariant next == Next(ts[..i], inception, interval)
      invariant cur == Aged(init, ts[..i], age)
      invariant port == [init] + Taken(ts[..i], init, inception, interval, age)
    {
      assert ts[..i + 1][..i] == ts[..i];
      if ts[i].time >= next {
        port := port + [cur];
        next := next + interval;
      }
      cur := age(cur, ts[i]);
    }
    assert ts[..|ts|] == ts;
    port := port + [cur];
  }

  /** The first loop of `GenPerf` with one snapshot per boundary passed:
      a trade at or after `next` first closes every interval up to it.
      Then snapshot `k` holds exactly the trades before its cut, and the
      last cut is the first one past every trade. */
  method AlignedBuckets(ts: seq<TradeLog>, init: Holding, inception: int, interval: int, age: AgeFn)
    returns (port: seq<Holding>)
    requires interval > 0 && InTimeOrder(ts)
    requires ts != [] ==> inception <= ts[0].time
    ensures Bucketed(port, ts, init, inception, interval, age)
  {
    port := [init];
    var cur := init;
    var next := inception + interval;
    ghost var prev := inception;
    CloseInterval(ts, init, inception, interval, age, [], init, 0, 0);
    for i := 0 to |ts|
      invariant |port| >= 1 && next == Cut(inception, interval, |port|) && next == prev + interval
      invariant cur == Aged(init, ts[..i], age)
      invariant port == CutHoldings(ts, init, inception, interval, age, |port|)
      invariant forall j :: 0 <= j < i ==> ts[j].time < next
      invariant i > 0 ==> prev <= ts[i - 1].time
      invariant i < |ts| ==> prev <= ts[i].time
    {
      port, next, prev := CloseUpTo(ts, init, inception, interval, age, port, cur, i, next, prev);
      assert ts[..i + 1][..i] == ts[..i];
      cur := age(cur, ts[i]);
    }
    CloseInterval(ts, init, inception, interval, age, port, cur, |ts|, |port|);
    port := port + [cur];
    CutHoldingsAt(ts, init, inception, interval, age, |port|);
  }

  /** The inner loop of `GenPerf`: every cut up to the time of trade `i`
      closes an interval with the holding before that trade. */
  method CloseUpTo(ts: seq<TradeLog>, init: Holding, inception: int, interval: int, age: AgeFn,
                   port0: seq<Holding>, cur: Holding, i: nat, next0: int, ghost prev0: int)
    returns (port: seq<Holding>, next: int, ghost prev: int)
    requires interval > 0 && InTimeOrder(ts) && i < |ts|
    requires |port0| >= 1 && next0 == Cut(inception, interval, |port0|) && next0 == prev0 + interval
    requires cur == Aged(init, ts[..i], age)
    requires port0 == CutHoldings(ts, init, inception, interval, age, |port0|)
    requires forall j :: 0 <= j < i ==> ts[j].time < next0
    requires prev0 <= ts[i].time
    ensures |port| >= |port0| && next == Cut(inception, interval, |port|) && next == prev + interval
    ensures port == CutHoldings(ts, init, inception, interval, age, |port|)
    ensures forall j :: 0 <= j <= i ==> ts[j].time < next
    ensures prev <= ts[i].time
  {
    port, next, prev := port0, next0, prev0;
    while ts[i].time >= next
      invariant |port| >= |port0| && next == Cut(inception, interval, |port|) && next == prev + interval
      invariant port == CutHoldings(ts, init, inception, interval, age, |port|)
      invariant forall j :: 0 <= j < i ==> ts[j].time < next
      invariant prev <= ts[i].time
      decreases ts[i].time - next
    {
      CloseInterval(ts, init, inception, interval, age, port, cur, i, |port|);
      CutNext(inception, interval, |port|);
      port := port + [cur];
      prev, next := next, next + interval;
    }
  }

  /** The holdings after the trades before each of the first `n` cuts. */
  ghost function CutHoldings(ts: seq<TradeLog>, init: Holding, inception: int, interval: int, age: AgeFn, n: nat): (r: seq<Holding>)
    ensures |r| == n
  {
    seq(n, k requires 0 <= k < n => Aged(init, Before(ts, Cut(inception, interval, k)), age))
  }

  lemma CutHoldingsAt(ts: seq<TradeLog>, init: Holding, inception: int, interval: int, age: AgeFn, n: nat)
    ensures forall k :: 0 <= k < n ==>
              CutHoldings(ts, init, inception, interval, age, n)[k] == Aged(init, Before(ts, Cut(inception, interval, k)), age)
  {
  }

  /** When the first `i` trades are exactly those before cut `n`, the
      holding after them is snapshot `n`. */
  lemma CloseInterval(ts: seq<TradeLog>, init: Holding, inception: int, interval: int, age: AgeFn,
                      port: seq<Holding>, cur: Holding, i: nat, n: nat)
    requires InTimeOrder(ts) && i <= |ts|
    requires i < |ts| ==> ts[i].time >= Cut(inception, interval, n)
    requires forall j :: 0 <= j < i ==> ts[j].time < Cut(inception, interval, n)
    requires cur == Aged(init, ts[..i], age)
    requires port == CutHoldings(ts, init, inception, interval, age, n)
    ensures port + [cur] == CutHoldings(ts, init, inception, interval, age, n + 1)
  {
    BeforePrefix(ts, Cut(inception, interval, n), i);
    var r := CutHoldings(ts, init, inception, interval, age, n + 1);
    var m := port + [cur];
    forall k | 0 <= k < n + 1
      ensures m[k] == r[k]
    {
      if k < n {
        assert m[k] == port[k];
      } else {
        assert m[k] == cur;
      }
    }
    assert m == r;
  }

  // ---------------------------------------------------------------------
  // GenPerf

  /** `perf` is what `GenPerf` makes of the sorted trades `ts`, the
      initial holding, the interval and the quotes, with one snapshot per
      interval boundary: snapshot `k` holds the trades before its cut and
      is marked at that cut, the last cut is past every trade and the one
      before it is not. `orders` are the map orders the marking went
      through. */
  ghost predicate Describes(perf: Perf, ts: seq<TradeLog>, init: Holding, interval: int, qs: seq<Quote>,
                            age: AgeFn, orders: seq<seq<Coin>>)
  {
    if ts == [] then perf == ZeroPerf
    else
      perf.inception == TruncateTime(ts[0].time, interval) && perf.interval == interval &&
      Bucketed(perf.port, ts, init, perf.inception, interval, age) &&
      Marked(perf.mtmBTC, perf.mtmUSD, orders, perf.port, qs, perf.inception, interval)
  }

  /** Snapshot `k` holds the trades before cut `k`; the last cut is past
      every trade and the one before it is not. */
  ghost predicate Bucketed(port: seq<Holding>, ts: seq<TradeLog>, init: Holding, inception: int, interval: int, age: AgeFn)
  {
    |port| >= 2 &&
    (forall k :: 0 <= k < |port| ==> port[k] == Aged(init, Before(ts, Cut(inception, interval, k)), age)) &&
    (forall j :: 0 <= j < |ts| ==> ts[j].time < Cut(inception, interval, |port| - 1)) &&
    (ts != [] ==> Cut(inception, interval, |port| - 2) <= ts[|ts| - 1].time)
  }

  /** Snapshot `i` is marked in BTC in map order `orders[i]` at cut `i`,
      and in USDT by the BTC/USDT rate at that cut. */
  ghost predicate Marked(mtmBTC: seq<Fl>, mtmUSD: seq<Fl>, orders: seq<seq<Coin>>, port: seq<Holding>,
                         qs: seq<Quote>, inception: int, interval: int)
  {
    |mtmBTC| == |mtmUSD| == |orders| == |port| &&
    (forall i :: 0 <= i < |port| ==> Evaluate.Enumerates(orders[i], port[i].balances)) &&
    (forall i :: 0 <= i < |port| ==> mtmBTC[i] == MarkOf(orders[i], port[i].balances, qs, Cut(inception, interval, i))) &&
    (forall i :: 0 <= i < |port| ==> mtmUSD[i] == InUSD(mtmBTC[i], Rate(qs, USDT, Cut(inception, interval, i))))
  }

  /** `GenPerf` on trades already sorted, with the quotes to mark by. */
  method Evaluated(ts: seq<TradeLog>, init: Holding, interval: int, qs: seq<Quote>, age: AgeFn)
    returns (perf: Perf, ghost orders: seq<seq<Coin>>)
    requires interval > 0 && InTimeOrder(ts)
    ensures Describes(perf, ts, init, interval, qs, age, orders)
  {
    if |ts| == 0 {
      return ZeroPerf, [];
    }
    var inception := TruncateTime(ts[0].time, interval);
    var port := AlignedBuckets(ts, init, inception, interval, age);
    var mtmBTC, mtmUSD;
    mtmBTC, mtmUSD, orders := MarkAll(port, inception, interval, qs);
    perf := Perf(inception, interval, port, mtmBTC, mtmUSD);
  }

  /** The first snapshot is the initial holding and the last holds every
      trade. */
  lemma SnapshotEnds(perf: Perf, ts: seq<TradeLog>, init: Holding, interval: int, qs: seq<Quote>,
                     age: AgeFn, orders: seq<seq<Coin>>)
    requires interval > 0 && InTimeOrder(ts) && ts != []
    requires Describes(perf, ts, init, interval, qs, age, orders)
    ensures perf.port[0] == init
    ensures perf.port[|perf.port| - 1] == Aged(init, ts, age)
  {
    BucketEnds(perf.port, ts, init, perf.inception, interval, age);
  }

  lemma BucketEnds(port: seq<Holding>, ts: seq<TradeLog>, init: Holding, inception: int, interval: int, age: AgeFn)
    requires InTimeOrder(ts) && ts != [] && inception <= ts[0].time
    requires Bucketed(port, ts, init, inception, interval, age)
    ensures port[0] == init
    ensures port[|port| - 1] == Aged(init, ts, age)
  {
    var c := Cut(inception, interval, |port| - 1);
    assert Cut(inception, interval, 0) == inception;
    assert port[0] == Aged(init, Before(ts, inception), age);
    forall k | 0 <= k < |ts|
      ensures ts[k].time >= inception
    {
      if k > 0 {
        assert ts[0].time <= ts[k].time;
      }
    }
    BeforePrefix(ts, inception, 0);
    assert port[|port| - 1] == Aged(init, Before(ts, c), age);
    BeforePrefix(ts, c, |ts|);
    assert ts[..|ts|] == ts && ts[..0] == [];
  }

  /** `TradeLogS.GenPerf`: sorts the caller's trade log in place, then
      buckets it from a clone of `init` and marks every snapshot with the
      trade log's own prices. */
  method GenPerf(tls: array<TradeLog>, init: Portfolio, interval: int, age: AgeFn)
    returns (perf: Perf, ghost orders: seq<seq<Coin>>)
    modifies tls
    requires interval > 0
    ensures multiset(tls[..]) == multiset(old(tls[..])) && InTimeOrder(tls[..])
    ensures Describes(perf, tls[..], Holding(init.balances, init.locked), interval, Quotes(tls[..]), age, orders)
  {
    Sort(tls);
    var ts := tls[..];
    perf, orders := Evaluated(ts, Holding(init.balances, init.locked), interval, Quotes(ts), age);
  }

  /** `TradeLogS.GenPerf0`: `GenPerf` from an empty portfolio. */
  method GenPerf0(tls: array<TradeLog>, interval: int, age: AgeFn)
    returns (perf: Perf, ghost orders: seq<seq<Coin>>)
    modifies tls
    requires interval > 0
    ensures multiset(tls[..]) == multiset(old(tls[..])) && InTimeOrder(tls[..])
    ensures Describes(perf, tls[..], Holding(map[], map[]), interval, Quotes(tls[..]), age, orders)
  {
    var init := new Portfolio.Empty();
    perf, orders := GenPerf(tls, init, interval, age);
  }

  /** The USDT marks as numbers. */
  function Values(s: seq<Fl>): (v: seq<real>)
    requires forall i :: 0 <= i < |s| ==> s[i].R?
    ensures |v| == |s| && forall i :: 0 <= i < |s| ==> v[i] == s[i].r
  {
    seq(|s|, i requires 0 <= i < |s| => s[i].r)
  }

  /** `Perf.MaxDrawdown`: the largest fall of the USDT mark from an
      earlier (or the same) snapshot to a later one. eval.go repeats the
      loop of `MaxDD`, which strats/eval.go calls. */
  method MaxDrawdown(perf: Perf) returns (dd: real)
    requires |perf.mtmUSD| > 0
    requires forall i :: 0 <= i < |perf.mtmUSD| ==> perf.mtmUSD[i].R?
    ensures forall k, j :: 0 <= k <= j < |perf.mtmUSD| ==> perf.mtmUSD[k].r - perf.mtmUSD[j].r <= dd
    ensures exists k, j :: 0 <= k <= j < |perf.mtmUSD| && dd == perf.mtmUSD[k].r - perf.mtmUSD[j].r
    ensures dd >= 0.0
  {
    var pv := Values(perf.mtmUSD);
    dd := Evaluate.MaxDD(pv);
  }

  // ---------------------------------------------------------------------
  // The bucketing across a gap

  /** A trade of one BTC at time `t`. */
  function TradeAt(t: int): TradeLog
  {
    TradeLog("", Pair(BTC, USDT), 1.0, 1.0, 0.0, BNB, t, Books.BUY, "")
  }

  /** Ageing that counts trades in the BTC balance. */
  function CountAge(h: Holding, t: TradeLog): Holding
  {
    Holding(Credit(h.balances, BTC, 1.0), h.locked)
  }

  /** Trades at 0 and 25 with a 10-wide interval from 0: the second trade
      passes two boundaries but closes one snapshot, so the final snapshot
      is marked at 20 although it holds the trade at 25, where the holding
      before 20 held one trade only. */
  lemma GapMislabels()
    ensures var ts := [TradeAt(0), TradeAt(25)];
            var snaps := Snapshots(ts, Holding(map[], map[]), 0, 10, CountAge);
            |snaps| == 3 && Cut(0, 10, 2) == 20 < ts[1].time &&
            snaps[2] != Aged(Holding(map[], map[]), Before(ts, Cut(0, 10, 2)), CountAge)
  {
    var h0 := Holding(map[], map[]);
    var a, b := TradeAt(0), TradeAt(25);
    var ts := [a, b];
    assert ts[..1] == [a] && [a][..0] == [];
    assert Next([a], 0, 10) == 10;
    assert Taken([a], h0, 0, 10, CountAge) == [];
    assert Taken(ts, h0, 0, 10, CountAge) == [Aged(h0, [a], CountAge)];
    assert Before([a], 20) == [a];
    assert Before(ts, 20) == [a];
    var one := Aged(h0, [a], CountAge);
    assert one.balances[BTC] == 1.0;
    assert Aged(h0, ts, CountAge).balances[BTC] == 2.0;
  }
}
