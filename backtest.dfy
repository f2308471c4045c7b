/**
 * `Simulate` of brew/backtest.go: one simulator per exchange name, all
 * over the strategy's pairs and sharing one initial portfolio object; the
 * clock runs from `start` in steps of `tick` while it is before `end`, and
 * at every step every simulator is advanced, the strategy looks at them
 * once and its actions are performed. The trades of the simulators, in
 * exchange-name order, are the result.
 *
 * Go's `SetTime` panics when a pair with a live order has no book
 * snapshots; the model checks that condition before advancing each
 * simulator and ends the run with `panicked` set instead, with no result.
 *
 * The strategy is a function from what it sees to its actions; a strategy
 * that keeps state between steps is not part of this driver's model. The
 * historical data the simulators would load is given as `obts` and `txn`.
 */
module Backtest {
  import opened Pairs
  import opened Coins
  import opened Txns
  import opened Portfolios
  import Books
  import Strat
  import Sim
  import Perform

  /** What a strategy sees of one simulator: its clock, its orders, its
      balances and locks, and its trades. */
  datatype View = View(now: int, orders: map<Pair, seq<Sim.SimOrder>>, balances: map<Coin, real>,
                       locked: map<Coin, real>, trades: seq<Transaction>)

  type GrindFn = map<string, View> -> seq<Strat.TradeAction>

  /** An action that the dispatch can carry out without a Go panic on the
      simulators built for `exNames`: a wait may name any exchange. */
  predicate WellFormed(a: Strat.TradeAction, exNames: seq<string>)
  {
    (a.op != Strat.Wait ==> a.exName in exNames) && Perform.Handled(a)
  }

  /** The number of steps: `start`, `start + tick`, ... while before
      `end`. */
  function Ticks(start: int, end: int, tick: int): (n: nat)
    requires tick > 0
    decreases end - start
  {
    if start < end then 1 + Ticks(start + tick, end, tick) else 0
  }

  /** The time of step `k`. */
  function TickTime(start: int, tick: int, k: nat): int
  {
    start + k * tick
  }

  /** The clock after `n` steps. */
  function LastTick(start: int, tick: int, n: nat): int
  {
    if n == 0 then start else TickTime(start, tick, n - 1)
  }

  lemma NextTick(start: int, tick: int, k: nat)
    ensures TickTime(start, tick, k + 1) == TickTime(start, tick, k) + tick
  {
  }

  /** At step `k` the strategy sees every simulator, by name, at the
      step's time. */
  predicate Seen(seen: seq<map<string, View>>, exNames: seq<string>, start: int, tick: int)
  {
    forall k :: 0 <= k < |seen| ==>
      seen[k].Keys == (set n | n in exNames) &&
      forall n :: n in seen[k] ==> seen[k][n].now == TickTime(start, tick, k)
  }

  lemma SeenSnoc(seen: seq<map<string, View>>, view: map<string, View>, exNames: seq<string>, start: int, tick: int)
    requires Seen(seen, exNames, start, tick)
    requires view.Keys == (set n | n in exNames) && forall n :: n in view ==> view[n].now == TickTime(start, tick, |seen|)
    ensures Seen(seen + [view], exNames, start, tick)
  {
  }

  /** The steps stop at the first time not before `end`. */
  lemma {:induction false} TicksSpec(start: int, end: int, tick: int)
    requires tick > 0
    ensures end <= start + Ticks(start, end, tick) * tick
    ensures Ticks(start, end, tick) > 0 ==> start + (Ticks(start, end, tick) - 1) * tick < end
    ensures Ticks(start, end, tick) == 0 <==> end <= start
    decreases end - start
  {
    if start < end {
      TicksSpec(start + tick, end, tick);
    }
  }

  function ViewOf(e: Sim.Simulator): View
    reads e, e.myPortfolio
  {
    View(e.now, e.myOrders, e.myPortfolio.balances, e.myPortfolio.locked, e.myTransactions)
  }

  /** What `Grind` is handed: the simulators by name. */
  function ViewsOf(exs: map<string, Sim.Simulator>): (v: map<string, View>)
    reads exs.Values, set e | e in exs.Values :: e.myPortfolio
    ensures v.Keys == exs.Keys
  {
    map n | n in exs :: ViewOf(exs[n])
  }

  /** The state a run changes: every simulator's state, by simulator,
      and the holding of the portfolio they all book into. */
  datatype World = World(sims: map<Sim.Simulator, Perform.SimState>, port: Perform.Holding)

  /** The simulators and their portfolio are in the state world `W`
      gives them. */
  ghost predicate InWorld(sims: seq<Sim.Simulator>, P: Portfolio, W: World)
    reads (set e | e in sims), P
  {
    (forall e :: e in sims ==> e in W.sims && Perform.StateOf(e) == W.sims[e]) && Perform.HoldingOf(P) == W.port
  }

  /** The world of simulators just built: no actions, orders or trades,
      the counter at 0 and the clock at `start`. */
  function Fresh(sims: seq<Sim.Simulator>, pairs: seq<Pair>, start: int, h: Perform.Holding): World
  {
    World(map e | e in sims :: Perform.SimState([], 0, start, [], map p | p in pairs :: []), h)
  }

  /** What the strategy sees of a simulator in state `s` booking into `h`. */
  function ViewIn(s: Perform.SimState, h: Perform.Holding): View
  {
    View(s.now, s.orders, h.balances, h.locked, s.txns)
  }

  /** What `Grind` is handed in world `W`. */
  function ViewsIn(W: World, exs: map<string, Sim.Simulator>): (v: map<string, View>)
    requires exs.Values <= W.sims.Keys
  {
    map n | n in exs :: ViewIn(W.sims[exs[n]], W.port)
  }

  /** `ks` lists the pairs of `m`, each once. */
  predicate Enumerates(ks: seq<Pair>, m: map<Pair, seq<Sim.SimOrder>>)
  {
    (forall j :: 0 <= j < |ks| ==> ks[j] in m) && (forall p :: p in m ==> p in ks) &&
    forall j, k :: 0 <= j < k < |ks| ==> ks[j] != ks[k]
  }

  /** `SetTime(t)` on simulator `e`, its pairs in the order `ord`: the
      fills of `RunPairs` against the shared balances and locks and the
      simulator's own trades, then the clock at `t`. */
  function AdvanceOne(W: World, e: Sim.Simulator, ord: seq<Pair>, t: int, fill: FillFn, between: BetweenFn): (r: World)
    requires e in W.sims
    ensures r.sims.Keys == W.sims.Keys && r.port.contracts == W.port.contracts
    ensures r.sims[e].now == t && r.sims[e].actions == W.sims[e].actions && r.sims[e].oid == W.sims[e].oid
    ensures forall d :: d in W.sims && d != e ==> r.sims[d] == W.sims[d]
  {
    var s := W.sims[e];
    var run := Sim.RunPairs(ord, s.orders, Sim.Ledger(W.port.balances, W.port.locked, s.txns),
                            e.obts, e.txn, s.now, t, fill, between);
    World(W.sims[e := s.(orders := run.0, txns := run.1.txns, now := t)],
          W.port.(balances := run.1.balances, locked := run.1.locked))
  }

  /** The first `|ords|` simulators advanced to `t`, in order, the `k`-th
      through its pairs in the order `ords[k]`. Advancing records no
      action, numbers no order and leaves the contracts alone; the
      simulators not yet reached keep their state. */
  function Advanced(W: World, sims: seq<Sim.Simulator>, ords: seq<seq<Pair>>, t: int, fill: FillFn, between: BetweenFn): (r: World)
    requires |ords| <= |sims| && forall e :: e in sims ==> e in W.sims
    ensures r.sims.Keys == W.sims.Keys
    decreases |ords|
  {
    if |ords| == 0 then W
    else
      var k := |ords| - 1;
      AdvanceOne(Advanced(W, sims, ords[..k], t, fill, between), sims[k], ords[k], t, fill, between)
  }

  /** Advancing records no action, numbers no order and leaves the
      contracts alone. */
  lemma {:induction false} AdvancedKeeps(W: World, sims: seq<Sim.Simulator>, ords: seq<seq<Pair>>, t: int,
                                         fill: FillFn, between: BetweenFn, e: Sim.Simulator)
    requires |ords| <= |sims| && (forall d :: d in sims ==> d in W.sims) && e in W.sims
    ensures var r := Advanced(W, sims, ords, t, fill, between);
      r.port.contracts == W.port.contracts && r.sims[e].actions == W.sims[e].actions && r.sims[e].oid == W.sims[e].oid
    decreases |ords|
  {
    if |ords| > 0 {
      var k := |ords| - 1;
      AdvancedKeeps(W, sims, ords[..k], t, fill, between, e);
    }
  }

  /** The simulators not yet reached keep their state. */
  lemma {:induction false} AdvancedUnreached(W: World, sims: seq<Sim.Simulator>, ords: seq<seq<Pair>>, t: int,
                                             fill: FillFn, between: BetweenFn, e: Sim.Simulator)
    requires |ords| <= |sims| && (forall d :: d in sims ==> d in W.sims) && e in W.sims
    requires forall k :: 0 <= k < |ords| ==> sims[k] != e
    ensures Advanced(W, sims, ords, t, fill, between).sims[e] == W.sims[e]
    decreases |ords|
  {
    if |ords| > 0 {
      var k := |ords| - 1;
      AdvancedUnreached(W, sims, ords[..k], t, fill, between, e);
    }
  }

  /** The simulators reached are at `t`. */
  lemma {:induction false} AdvancedReached(W: World, sims: seq<Sim.Simulator>, ords: seq<seq<Pair>>, t: int,
                                           fill: FillFn, between: BetweenFn, j: nat)
    requires j < |ords| <= |sims| && forall d :: d in sims ==> d in W.sims
    ensures Advanced(W, sims, ords, t, fill, between).sims[sims[j]].now == t
    decreases |ords|
  {
    var k := |ords| - 1;
    if j < k {
      AdvancedReached(W, sims, ords[..k], t, fill, between, j);
    }
  }

  /** Each of the first `|ords|` simulators went through its pairs in an
      order that lists each of them once. */
  ghost predicate Enumerated(W: World, sims: seq<Sim.Simulator>, ords: seq<seq<Pair>>, t: int, fill: FillFn, between: BetweenFn)
    requires |ords| <= |sims| && forall e :: e in sims ==> e in W.sims
    decreases |ords|
  {
    if |ords| == 0 then true
    else
      var k := |ords| - 1;
      Enumerated(W, sims, ords[..k], t, fill, between) &&
      Enumerates(ords[k], Advanced(W, sims, ords[..k], t, fill, between).sims[sims[k]].orders)
  }

  /** The strategy's actions performed on world `W`: each simulator in
      `exs` has carried out the actions addressed to it, the portfolio's
      locks have followed every placement, and nothing traded. */
  function Performed(W: World, exs: map<string, Sim.Simulator>, P: Portfolio, actions: seq<Strat.TradeAction>): (r: World)
    requires forall k :: 0 <= k < |actions| ==> Perform.Handled(actions[k])
    ensures r.sims.Keys == W.sims.Keys
    ensures r.port.balances == W.port.balances && r.port.contracts == W.port.contracts
  {
    Perform.ForPortIn(actions, exs, P);
    World(map e | e in W.sims :: if e in exs.Values then Carry(W.sims[e], exs, e, actions) else W.sims[e],
          Perform.HoldingAfter(W.port, Perform.ForPort(actions, exs, P)))
  }

  /** The state of simulator `e` after the actions addressed to it. */
  function Carry(s: Perform.SimState, exs: map<string, Sim.Simulator>, e: Sim.Simulator, actions: seq<Strat.TradeAction>): (r: Perform.SimState)
    requires forall k :: 0 <= k < |actions| ==> Perform.Handled(actions[k])
    ensures r.now == s.now && r.txns == s.txns && s.actions <= r.actions
  {
    Perform.ForIn(actions, exs, e);
    Perform.After(s, Perform.For(actions, exs, e), e.exName)
  }

  /** The world after `|ordss|` steps from `W`: at step `k` every
      simulator advanced to the step's time, the `j`-th through its pairs
      in the order `ordss[k][j]`, then the strategy's actions for what it
      sees performed. */
  function Rounds(W: World, sims: seq<Sim.Simulator>, exs: map<string, Sim.Simulator>, P: Portfolio,
                  ordss: seq<seq<seq<Pair>>>, start: int, tick: int, fill: FillFn, between: BetweenFn, grind: GrindFn): (r: World)
    requires (forall e :: e in sims ==> e in W.sims) && exs.Values <= W.sims.Keys
    requires forall k :: 0 <= k < |ordss| ==> |ordss[k]| <= |sims|
    requires forall v: map<string, View>, k :: 0 <= k < |grind(v)| ==> Perform.Handled(grind(v)[k])
    ensures r.sims.Keys == W.sims.Keys
    decreases |ordss|
  {
    if |ordss| == 0 then W
    else
      var n := |ordss| - 1;
      var A := Advanced(Rounds(W, sims, exs, P, ordss[..n], start, tick, fill, between, grind),
                        sims, ordss[n], TickTime(start, tick, n), fill, between);
      Performed(A, exs, P, grind(ViewsIn(A, exs)))
  }

  /** The trades of the simulators in world `W`, one after another. */
  function TradesIn(W: World, sims: seq<Sim.Simulator>): seq<Transaction>
    requires forall e :: e in sims ==> e in W.sims
    decreases |sims|
  {
    if |sims| == 0 then [] else TradesIn(W, sims[..|sims| - 1]) + W.sims[sims[|sims| - 1]].txns
  }

  /** The trades of the simulators, one after another. */
  function TradesOf(sims: seq<Sim.Simulator>): (r: seq<Transaction>)
    reads set e | e in sims
    decreases |sims|
  {
    if |sims| == 0 then [] else TradesOf(sims[..|sims| - 1]) + sims[|sims| - 1].myTransactions
  }

  /** The pairs of a simulator's order map in some order, each once: the
      enumeration Go's map iteration supplies. */
  method Keys(m: map<Pair, seq<Sim.SimOrder>>) returns (ks: seq<Pair>)
    ensures forall j :: 0 <= j < |ks| ==> ks[j] in m
    ensures forall p :: p in m ==> p in ks
    ensures forall j, k :: 0 <= j < k < |ks| ==> ks[j] != ks[k]
  {
    var rest := m.Keys;
    ks := [];
    while rest != {}
      invariant rest <= m.Keys
      invariant forall j :: 0 <= j < |ks| ==> ks[j] in m && ks[j] !in rest
      invariant forall p :: p in m ==> p in rest || p in ks
      invariant forall j, k :: 0 <= j < k < |ks| ==> ks[j] != ks[k]
      decreases |rest|
    {
      var p :| p in rest;
      ks := ks + [p];
      rest := rest - {p};
    }
  }

  /** The simulators' state that every step keeps: their data, the shared
      portfolio, the invariant, and one clock `now`. */
  predicate Ready(sims: seq<Sim.Simulator>, initPort: Portfolio,
                  obts: map<Pair, seq<Books.OrderBookT>>, txn: map<Pair, seq<Transaction>>, now: int)
    reads set e | e in sims
  {
    forall e :: e in sims ==> Shares(e, initPort, obts, txn) && e.now == now
  }

  /** A simulator over the shared portfolio and data, in a good state. */
  predicate Shares(e: Sim.Simulator, initPort: Portfolio,
                   obts: map<Pair, seq<Books.OrderBookT>>, txn: map<Pair, seq<Transaction>>)
    reads e
  {
    e.myPortfolio == initPort && e.obts == obts && e.txn == txn && e.Valid()
  }

  /** One simulator per name, in order, each a different object. */
  predicate Built(sims: seq<Sim.Simulator>, exNames: seq<string>)
  {
    |sims| == |exNames| &&
    (forall i :: 0 <= i < |sims| ==> sims[i].exName == exNames[i]) &&
    forall i, j :: 0 <= i < j < |sims| ==> sims[i] != sims[j]
  }

  /** Every name maps to a simulator built under it. */
  predicate Named(exs: map<string, Sim.Simulator>, sims: seq<Sim.Simulator>, exNames: seq<string>)
  {
    exs.Keys == (set n | n in exNames) &&
    forall n :: n in exs ==> exs[n] in sims && exs[n].exName == n
  }

  /** The construction half of `Simulate`. */
  method Build(exNames: seq<string>, pairs: seq<Pair>, start: int, initPort: Portfolio,
               obts: map<Pair, seq<Books.OrderBookT>>, txn: map<Pair, seq<Transaction>>)
    returns (sims: seq<Sim.Simulator>, exs: map<string, Sim.Simulator>)
    ensures Ready(sims, initPort, obts, txn, start) && Built(sims, exNames) && Named(exs, sims, exNames)
    ensures forall e :: e in sims ==> fresh(e) && e.myTransactions == []
    ensures forall e :: e in sims ==> Perform.StateOf(e) == Perform.SimState([], 0, start, [], map p | p in pairs :: [])
  {
    sims, exs := [], map[];
    var i := 0;
    while i < |exNames|
      invariant 0 <= i <= |exNames|
      invariant Ready(sims, initPort, obts, txn, start) && Built(sims, exNames[..i]) && Named(exs, sims, exNames[..i])
      invariant forall e :: e in sims ==> fresh(e) && e.myTransactions == []
      invariant forall e :: e in sims ==> Perform.StateOf(e) == Perform.SimState([], 0, start, [], map p | p in pairs :: [])
    {
      var e := new Sim.Simulator.NewSimulator(exNames[i], pairs, start, initPort, obts, txn);
      assert !Sim.HasAlive([]);
      assert exNames[..i + 1] == exNames[..i] + [exNames[i]];
      sims := sims + [e];
      exs := exs[exNames[i] := e];
      i := i + 1;
    }
    assert exNames[..i] == exNames;
  }

  /** The first half of a step: every simulator moves to `t`, in order,
      unless one of them holds a live order on a pair without book
      snapshots, where Go panics: then the simulators before it are at `t`,
      it and the rest are still at `now`. The `k`-th simulator reached
      goes through its pairs in the order `ords[k]`, which Go's map
      iteration chooses; `W0` is the state before. */
  method Advance(sims: seq<Sim.Simulator>, ghost exNames: seq<string>, initPort: Portfolio,
                 obts: map<Pair, seq<Books.OrderBookT>>, txn: map<Pair, seq<Transaction>>,
                 now: int, t: int, fill: FillFn, between: BetweenFn, ghost W0: World)
    returns (panicked: bool, ghost ords: seq<seq<Pair>>)
    requires Ready(sims, initPort, obts, txn, now) && Built(sims, exNames) && InWorld(sims, initPort, W0)
    modifies (set e | e in sims), initPort
    ensures forall e :: e in sims ==> Shares(e, initPort, obts, txn)
    ensures !panicked ==> Ready(sims, initPort, obts, txn, t)
    ensures panicked <==> exists k :: 0 <= k < |sims| && Stuck(sims, k, now, t)
    ensures |ords| <= |sims| && (panicked <==> |ords| < |sims|) && (panicked ==> Stuck(sims, |ords|, now, t))
    ensures InWorld(sims, initPort, Advanced(W0, sims, ords, t, fill, between))
    ensures Enumerated(W0, sims, ords, t, fill, between)
  {
    ords := [];
    assert InWorld(sims, initPort, Advanced(W0, sims, ords, t, fill, between));
    var i := 0;
    while i < |sims|
      invariant i == |ords| && AdvancedTo(sims, ords, initPort, obts, txn, now, t, fill, between, W0)
    {
      if !sims[i].CanPrice() {
        assert Stuck(sims, i, now, t);
        return true, ords;
      }
      ords := AdvanceStep(sims, i, ords, initPort, obts, txn, now, t, fill, between, W0);
      i := i + 1;
    }
    return false, ords;
  }

  /** The loop state of `Advance`: the first `|ords|` simulators are at
      `t`, through the pairs in the orders `ords`, the rest still at
      `now`. */
  ghost predicate AdvancedTo(sims: seq<Sim.Simulator>, ords: seq<seq<Pair>>, initPort: Portfolio,
                             obts: map<Pair, seq<Books.OrderBookT>>, txn: map<Pair, seq<Transaction>>,
                             now: int, t: int, fill: FillFn, between: BetweenFn, W0: World)
    reads (set e | e in sims), initPort
  {
    |ords| <= |sims| && (forall e :: e in sims ==> e in W0.sims) &&
    (forall e :: e in sims ==> Shares(e, initPort, obts, txn)) &&
    (forall k :: 0 <= k < |ords| ==> sims[k].now == t && sims[k].CanPrice()) &&
    (forall k :: |ords| <= k < |sims| ==> sims[k].now == now) &&
    InWorld(sims, initPort, Advanced(W0, sims, ords, t, fill, between)) &&
    Enumerated(W0, sims, ords, t, fill, between)
  }

  /** The loop body of `Advance`. Its postcondition is compared with
      `true` so that it is checked as one fact. */
  method AdvanceStep(sims: seq<Sim.Simulator>, i: nat, ghost ords: seq<seq<Pair>>, initPort: Portfolio,
                     obts: map<Pair, seq<Books.OrderBookT>>, txn: map<Pair, seq<Transaction>>,
                     now: int, t: int, fill: FillFn, between: BetweenFn, ghost W0: World)
    returns (ghost ords': seq<seq<Pair>>)
    requires i == |ords| < |sims| && sims[i].CanPrice() && forall j :: 0 <= j < |sims| && j != i ==> sims[j] != sims[i]
    requires AdvancedTo(sims, ords, initPort, obts, txn, now, t, fill, between, W0)
    modifies (set e | e in sims), initPort
    ensures |ords'| == |ords| + 1 && AdvancedTo(sims, ords', initPort, obts, txn, now, t, fill, between, W0) == true
  {
    ghost var W := Advanced(W0, sims, ords, t, fill, between);
    label before:
    ghost var ord := AdvanceSim(sims, i, initPort, obts, txn, t, fill, between, W);
    forall k | 0 <= k < |sims| && k != i
      ensures sims[k].now == old@before(sims[k].now) && sims[k].CanPrice() == old@before(sims[k].CanPrice())
    {
    }
    AdvancedToSnoc(sims, ords, ord, initPort, obts, txn, now, t, fill, between, W0);
    ords' := ords + [ord];
  }

  /** `Advanced` one simulator further on. */
  lemma AdvancedSnoc(W0: World, sims: seq<Sim.Simulator>, ords: seq<seq<Pair>>, ord: seq<Pair>, t: int, fill: FillFn, between: BetweenFn)
    requires |ords| < |sims| && forall e :: e in sims ==> e in W0.sims
    ensures Advanced(W0, sims, ords + [ord], t, fill, between) ==
      AdvanceOne(Advanced(W0, sims, ords, t, fill, between), sims[|ords|], ord, t, fill, between)
  {
    assert (ords + [ord])[..|ords|] == ords;
  }

  /** `AdvancedTo` one simulator further on. */
  lemma AdvancedToSnoc(sims: seq<Sim.Simulator>, ords: seq<seq<Pair>>, ord: seq<Pair>, initPort: Portfolio,
                       obts: map<Pair, seq<Books.OrderBookT>>, txn: map<Pair, seq<Transaction>>,
                       now: int, t: int, fill: FillFn, between: BetweenFn, W0: World)
    requires |ords| < |sims| && (forall e :: e in sims ==> e in W0.sims)
    requires forall e :: e in sims ==> Shares(e, initPort, obts, txn)
    requires forall k :: 0 <= k <= |ords| ==> sims[k].now == t && sims[k].CanPrice()
    requires forall k :: |ords| < k < |sims| ==> sims[k].now == now
    requires var W := Advanced(W0, sims, ords, t, fill, between);
      Enumerated(W0, sims, ords, t, fill, between) && Enumerates(ord, W.sims[sims[|ords|]].orders) &&
      InWorld(sims, initPort, AdvanceOne(W, sims[|ords|], ord, t, fill, between))
    ensures AdvancedTo(sims, ords + [ord], initPort, obts, txn, now, t, fill, between, W0)
  {
    AdvancedSnoc(W0, sims, ords, ord, t, fill, between);
    EnumeratedSnoc(W0, sims, ords, ord, t, fill, between);
  }

  /** `Enumerated` one simulator further on. */
  lemma EnumeratedSnoc(W0: World, sims: seq<Sim.Simulator>, ords: seq<seq<Pair>>, ord: seq<Pair>, t: int, fill: FillFn, between: BetweenFn)
    requires |ords| < |sims| && forall e :: e in sims ==> e in W0.sims
    requires Enumerated(W0, sims, ords, t, fill, between)
    requires Enumerates(ord, Advanced(W0, sims, ords, t, fill, between).sims[sims[|ords|]].orders)
    ensures Enumerated(W0, sims, ords + [ord], t, fill, between)
  {
    assert (ords + [ord])[..|ords|] == ords;
  }

  /** One simulator of `Advance` moved to `t`, its pairs enumerated as Go's
      map iteration gives them. */
  method AdvanceSim(sims: seq<Sim.Simulator>, i: nat, initPort: Portfolio,
                    obts: map<Pair, seq<Books.OrderBookT>>, txn: map<Pair, seq<Transaction>>,
                    t: int, fill: FillFn, between: BetweenFn, ghost W: World)
    returns (ghost ord: seq<Pair>)
    requires i < |sims| && forall j :: 0 <= j < |sims| && j != i ==> sims[j] != sims[i]
    requires forall e :: e in sims ==> Shares(e, initPort, obts, txn)
    requires sims[i].CanPrice() && InWorld(sims, initPort, W)
    modifies sims[i], initPort
    ensures forall e :: e in sims ==> Shares(e, initPort, obts, txn)
    ensures sims[i].now == t && sims[i].CanPrice()
    ensures sims[i] in W.sims && Enumerates(ord, W.sims[sims[i]].orders)
    ensures InWorld(sims, initPort, AdvanceOne(W, sims[i], ord, t, fill, between))
  {
    var e := sims[i];
    assert e in sims;
    var order := Keys(e.myOrders);
    ord := order;
    ghost var s := W.sims[e];
    assert e.myOrders == s.orders && e.now == s.now && e.LedgerOf() == Sim.Ledger(W.port.balances, W.port.locked, s.txns);
    ghost var run := Sim.RunPairs(order, s.orders, Sim.Ledger(W.port.balances, W.port.locked, s.txns), e.obts, e.txn, s.now, t, fill, between);
    label before:
    e.SetTime(t, order, fill, between);
    assert e.myOrders == run.0 && e.LedgerOf() == run.1;
    forall j | 0 <= j < |sims| && j != i
      ensures Perform.StateOf(sims[j]) == W.sims[sims[j]]
    {
      assert old@before(Perform.StateOf(sims[j])) == W.sims[sims[j]];
    }
    AdvanceOneWorld(sims, i, initPort, W, ord, t, fill, between);
  }

  /** The simulators, one of them advanced through its pairs in the order
      `ord` and the rest as in `W`, are the world `AdvanceOne` gives. */
  lemma AdvanceOneWorld(sims: seq<Sim.Simulator>, i: nat, P: Portfolio, W: World, ord: seq<Pair>,
                        t: int, fill: FillFn, between: BetweenFn)
    requires i < |sims| && forall j :: 0 <= j < |sims| && j != i ==> sims[j] != sims[i]
    requires forall d :: d in sims ==> d in W.sims
    requires forall j :: 0 <= j < |sims| && j != i ==> Perform.StateOf(sims[j]) == W.sims[sims[j]]
    requires var e, s := sims[i], W.sims[sims[i]];
      var run := Sim.RunPairs(ord, s.orders, Sim.Ledger(W.port.balances, W.port.locked, s.txns),
                              e.obts, e.txn, s.now, t, fill, between);
      e.myOrders == run.0 && e.LedgerOf() == run.1 && e.now == t &&
      e.myActions == s.actions && e.oid == s.oid && e.myPortfolio == P && P.contracts == W.port.contracts
    ensures InWorld(sims, P, AdvanceOne(W, sims[i], ord, t, fill, between))
  {
    var r := AdvanceOne(W, sims[i], ord, t, fill, between);
    forall d | d in sims
      ensures Perform.StateOf(d) == r.sims[d]
    {
      var j :| 0 <= j < |sims| && sims[j] == d;
    }
  }

  /** Simulator `k` is where a step towards `t` panics: those before it
      have moved to `t`, it is still at `now` and holds a live order on a
      pair without book snapshots, and those after it are still at `now`. */
  predicate Stuck(sims: seq<Sim.Simulator>, k: nat, now: int, t: int)
    requires k < |sims|
    reads set e | e in sims
  {
    !sims[k].CanPrice() &&
    (forall j :: 0 <= j < k ==> sims[j].now == t && sims[j].CanPrice()) &&
    forall j :: k <= j < |sims| ==> sims[j].now == now
  }

  /** `Simulate`: the simulators are built, then every step advances all
      of them to the step's time, hands the strategy their state once and
      performs its actions; the result is every simulator's trades in
      exchange-name order. `seen` records what the strategy saw at each
      step, `exs` the simulators by name and `ordss` the order in which
      each step took each simulator's pairs. A run that reaches Go's panic
      in `SetTime` stops there with `panicked` set and no result. */
  method Simulate(exNames: seq<string>, pairs: seq<Pair>, start: int, end: int, tick: int, initPort: Portfolio,
                  obts: map<Pair, seq<Books.OrderBookT>>, txn: map<Pair, seq<Transaction>>,
                  fill: FillFn, between: BetweenFn, grind: GrindFn)
    returns (sims: seq<Sim.Simulator>, result: seq<Transaction>, panicked: bool, ghost seen: seq<map<string, View>>,
             ghost exs: map<string, Sim.Simulator>, ghost ordss: seq<seq<seq<Pair>>>)
    requires tick > 0
    requires forall v: map<string, View>, k :: 0 <= k < |grind(v)| ==> WellFormed(grind(v)[k], exNames)
    modifies initPort
    ensures Built(sims, exNames) && Named(exs, sims, exNames)
    ensures forall e :: e in sims ==> fresh(e) && e.myPortfolio == initPort && e.Valid()
    ensures Seen(seen, exNames, start, tick)
    ensures !panicked ==> (result == TradesOf(sims) && |seen| == Ticks(start, end, tick) &&
      forall e :: e in sims ==> e.now == LastTick(start, tick, |seen|))
    ensures panicked ==> (result == [] && |seen| < Ticks(start, end, tick) &&
      exists k :: 0 <= k < |sims| && !sims[k].CanPrice())
    ensures var W0 := Fresh(sims, pairs, start, old(Perform.HoldingOf(initPort)));
      Played(W0, sims, exs, initPort, seen, ordss, panicked, start, tick, fill, between, grind) &&
      InWorld(sims, initPort, Ended(W0, sims, exs, initPort, seen, ordss, panicked, start, tick, fill, between, grind)) &&
      (!panicked ==> result == TradesIn(Ended(W0, sims, exs, initPort, seen, ordss, panicked, start, tick, fill, between, grind), sims))
  {
    var byName;
    sims, byName := Build(exNames, pairs, start, initPort, obts, txn);
    exs := byName;
    ghost var W0 := Fresh(sims, pairs, start, old(Perform.HoldingOf(initPort)));
    panicked, seen, ordss := Run(sims, byName, exNames, initPort, obts, txn, start, end, tick, fill, between, grind, W0);
    if panicked {
      return sims, [], true, seen, exs, ordss;
    }
    result := Collect(sims);
    TradesOfWorld(sims, initPort, Ended(W0, sims, exs, initPort, seen, ordss, panicked, start, tick, fill, between, grind));
  }

  /** A run from world `W` saw `seen` and took the pairs in the orders
      `ordss`: one order list per step, a full one for every simulator
      at each step but a panicking last one, each listing the pairs of
      its simulator once, and the strategy at step `k` saw the world
      after the advance of step `k`. */
  ghost predicate Played(W: World, sims: seq<Sim.Simulator>, exs: map<string, Sim.Simulator>, P: Portfolio,
                         seen: seq<map<string, View>>, ordss: seq<seq<seq<Pair>>>, panicked: bool,
                         start: int, tick: int, fill: FillFn, between: BetweenFn, grind: GrindFn)
  {
    (forall e :: e in sims ==> e in W.sims) && exs.Values <= W.sims.Keys &&
    (forall v: map<string, View>, k :: 0 <= k < |grind(v)| ==> Perform.Handled(grind(v)[k])) &&
    |ordss| == |seen| + (if panicked then 1 else 0) &&
    (forall k :: 0 <= k < |ordss| ==> |ordss[k]| <= |sims|) &&
    Steps(W, sims, exs, P, seen, ordss[..|seen|], start, tick, fill, between, grind) &&
    (panicked ==>
      |ordss[|seen|]| < |sims| &&
      Enumerated(Rounds(W, sims, exs, P, ordss[..|seen|], start, tick, fill, between, grind),
                 sims, ordss[|seen|], TickTime(start, tick, |seen|), fill, between))
  }

  /** The full steps of a run from `W`: at step `k` every simulator was
      advanced, each through its pairs in an order listing them once, and
      the strategy saw the world after that advance. */
  ghost predicate Steps(W: World, sims: seq<Sim.Simulator>, exs: map<string, Sim.Simulator>, P: Portfolio,
                        seen: seq<map<string, View>>, ordss: seq<seq<seq<Pair>>>,
                        start: int, tick: int, fill: FillFn, between: BetweenFn, grind: GrindFn)
    requires (forall e :: e in sims ==> e in W.sims) && exs.Values <= W.sims.Keys
    requires forall v: map<string, View>, k :: 0 <= k < |grind(v)| ==> Perform.Handled(grind(v)[k])
    requires forall k :: 0 <= k < |ordss| ==> |ordss[k]| <= |sims|
    decreases |seen|
  {
    |ordss| == |seen| &&
    (|seen| > 0 ==>
      var n := |seen| - 1;
      Steps(W, sims, exs, P, seen[..n], ordss[..n], start, tick, fill, between, grind) &&
      |ordss[n]| == |sims| &&
      var R := Rounds(W, sims, exs, P, ordss[..n], start, tick, fill, between, grind);
      Enumerated(R, sims, ordss[n], TickTime(start, tick, n), fill, between) &&
      seen[n] == ViewsIn(Advanced(R, sims, ordss[n], TickTime(start, tick, n), fill, between), exs))
  }

  /** Where a run that `Played` ends: after its steps, or, where the last
      one panics, after the advance it got through (`W` itself for what
      is not a run). */
  ghost function Ended(W: World, sims: seq<Sim.Simulator>, exs: map<string, Sim.Simulator>, P: Portfolio,
                       seen: seq<map<string, View>>, ordss: seq<seq<seq<Pair>>>, panicked: bool,
                       start: int, tick: int, fill: FillFn, between: BetweenFn, grind: GrindFn): World
  {
    if !Played(W, sims, exs, P, seen, ordss, panicked, start, tick, fill, between, grind) then W
    else
      var R := Rounds(W, sims, exs, P, ordss[..|seen|], start, tick, fill, between, grind);
      if panicked then Advanced(R, sims, ordss[|seen|], TickTime(start, tick, |seen|), fill, between) else R
  }

  /** The steps of `Simulate`, from `start` while before `end`, from
      state `W0`. */
  method Run(sims: seq<Sim.Simulator>, exs: map<string, Sim.Simulator>, exNames: seq<string>, initPort: Portfolio,
             obts: map<Pair, seq<Books.OrderBookT>>, txn: map<Pair, seq<Transaction>>,
             start: int, end: int, tick: int, fill: FillFn, between: BetweenFn, grind: GrindFn, ghost W0: World)
    returns (panicked: bool, ghost seen: seq<map<string, View>>, ghost ordss: seq<seq<seq<Pair>>>)
    requires tick > 0
    requires Ready(sims, initPort, obts, txn, start) && Built(sims, exNames) && Named(exs, sims, exNames)
    requires forall v: map<string, View>, k :: 0 <= k < |grind(v)| ==> WellFormed(grind(v)[k], exNames)
    requires InWorld(sims, initPort, W0)
    modifies (set e | e in sims), initPort
    ensures Seen(seen, exNames, start, tick)
    ensures forall e :: e in sims ==> Shares(e, initPort, obts, txn)
    ensures !panicked ==> (|seen| == Ticks(start, end, tick) &&
      Ready(sims, initPort, obts, txn, LastTick(start, tick, |seen|)))
    ensures panicked ==> (|seen| < Ticks(start, end, tick) &&
      exists k :: 0 <= k < |sims| && Stuck(sims, k, LastTick(start, tick, |seen|), TickTime(start, tick, |seen|)))
    ensures Played(W0, sims, exs, initPort, seen, ordss, panicked, start, tick, fill, between, grind) &&
      InWorld(sims, initPort, Ended(W0, sims, exs, initPort, seen, ordss, panicked, start, tick, fill, between, grind))
  {
    seen, panicked, ordss := [], false, [];
    var t := start;
    var now := start;
    RanFrom(sims, exs, exNames, initPort, obts, txn, start, end, tick, fill, between, grind, W0);
    while t < end
      invariant RanTo(sims, exs, exNames, initPort, obts, txn, start, end, tick, fill, between, grind, W0, seen, ordss, t, now)
      decreases end - t
    {
      panicked, seen, ordss, t, now := RunStep(sims, exs, exNames, initPort, obts, txn, start, end, tick, fill, between, grind,
                                               W0, seen, ordss, t, now);
      if panicked {
        return;
      }
    }
    RanDone(sims, exs, exNames, initPort, obts, txn, start, end, tick, fill, between, grind, W0, seen, ordss, t, now);
  }

  /** After the last step of `Run`, every step has been played. */
  lemma RanDone(sims: seq<Sim.Simulator>, exs: map<string, Sim.Simulator>, exNames: seq<string>, initPort: Portfolio,
                obts: map<Pair, seq<Books.OrderBookT>>, txn: map<Pair, seq<Transaction>>,
                start: int, end: int, tick: int, fill: FillFn, between: BetweenFn, grind: GrindFn, W0: World,
                seen: seq<map<string, View>>, ordss: seq<seq<seq<Pair>>>, t: int, now: int)
    requires end <= t
    requires RanTo(sims, exs, exNames, initPort, obts, txn, start, end, tick, fill, between, grind, W0, seen, ordss, t, now)
    ensures Seen(seen, exNames, start, tick) && (forall e :: e in sims ==> Shares(e, initPort, obts, txn))
    ensures |seen| == Ticks(start, end, tick) && Ready(sims, initPort, obts, txn, LastTick(start, tick, |seen|))
    ensures Played(W0, sims, exs, initPort, seen, ordss, false, start, tick, fill, between, grind) &&
      InWorld(sims, initPort, Ended(W0, sims, exs, initPort, seen, ordss, false, start, tick, fill, between, grind))
  {
  }

  /** Before the first step of `Run` nothing has been played. */
  lemma RanFrom(sims: seq<Sim.Simulator>, exs: map<string, Sim.Simulator>, exNames: seq<string>, initPort: Portfolio,
                obts: map<Pair, seq<Books.OrderBookT>>, txn: map<Pair, seq<Transaction>>,
                start: int, end: int, tick: int, fill: FillFn, between: BetweenFn, grind: GrindFn, W0: World)
    requires tick > 0 && Ready(sims, initPort, obts, txn, start) && Named(exs, sims, exNames)
    requires forall v: map<string, View>, k :: 0 <= k < |grind(v)| ==> WellFormed(grind(v)[k], exNames)
    requires InWorld(sims, initPort, W0)
    ensures RanTo(sims, exs, exNames, initPort, obts, txn, start, end, tick, fill, between, grind, W0, [], [], start, start)
  {
    assert Ended(W0, sims, exs, initPort, [], [], false, start, tick, fill, between, grind) == W0;
  }

  /** What holds between the steps of `Run`: `seen` and `ordss` hold one
      entry per step taken, the clock is the last step's, and the
      simulators and the shared portfolio are the world those steps lead
      to. */
  ghost predicate RanTo(sims: seq<Sim.Simulator>, exs: map<string, Sim.Simulator>, exNames: seq<string>, initPort: Portfolio,
                        obts: map<Pair, seq<Books.OrderBookT>>, txn: map<Pair, seq<Transaction>>,
                        start: int, end: int, tick: int, fill: FillFn, between: BetweenFn, grind: GrindFn, W0: World,
                        seen: seq<map<string, View>>, ordss: seq<seq<seq<Pair>>>, t: int, now: int)
    reads (set e | e in sims), initPort
  {
    Going(sims, exs, exNames, initPort, start, end, tick, fill, between, grind, W0, seen, ordss, t, now) &&
    Ready(sims, initPort, obts, txn, now) &&
    InWorld(sims, initPort, Ended(W0, sims, exs, initPort, seen, ordss, false, start, tick, fill, between, grind))
  }

  /** The record of a run that has taken the steps in `seen`, its clock
      at the last of them and its next step due at `t`. */
  ghost predicate Going(sims: seq<Sim.Simulator>, exs: map<string, Sim.Simulator>, exNames: seq<string>, initPort: Portfolio,
                        start: int, end: int, tick: int, fill: FillFn, between: BetweenFn, grind: GrindFn, W0: World,
                        seen: seq<map<string, View>>, ordss: seq<seq<seq<Pair>>>, t: int, now: int)
  {
    tick > 0 && t == TickTime(start, tick, |seen|) && now == LastTick(start, tick, |seen|) &&
    Ticks(start, end, tick) == |seen| + Ticks(t, end, tick) &&
    Seen(seen, exNames, start, tick) &&
    Played(W0, sims, exs, initPort, seen, ordss, false, start, tick, fill, between, grind)
  }

  /** What holds when `Run` stops early: advancing some simulator panicked
      in the step after those in `seen`. */
  ghost predicate RanOut(sims: seq<Sim.Simulator>, exs: map<string, Sim.Simulator>, exNames: seq<string>, initPort: Portfolio,
                         obts: map<Pair, seq<Books.OrderBookT>>, txn: map<Pair, seq<Transaction>>,
                         start: int, end: int, tick: int, fill: FillFn, between: BetweenFn, grind: GrindFn, W0: World,
                         seen: seq<map<string, View>>, ordss: seq<seq<seq<Pair>>>)
    reads (set e | e in sims), initPort
  {
    tick > 0 && Seen(seen, exNames, start, tick) &&
    (forall e :: e in sims ==> Shares(e, initPort, obts, txn)) &&
    |seen| < Ticks(start, end, tick) &&
    (exists k :: 0 <= k < |sims| && Stuck(sims, k, LastTick(start, tick, |seen|), TickTime(start, tick, |seen|))) &&
    Played(W0, sims, exs, initPort, seen, ordss, true, start, tick, fill, between, grind) &&
    InWorld(sims, initPort, Ended(W0, sims, exs, initPort, seen, ordss, true, start, tick, fill, between, grind))
  }

  /** Where a step of `Run` leaves it: stopped early, or ready for the
      next step. */
  ghost predicate RanNext(sims: seq<Sim.Simulator>, exs: map<string, Sim.Simulator>, exNames: seq<string>, initPort: Portfolio,
                         obts: map<Pair, seq<Books.OrderBookT>>, txn: map<Pair, seq<Transaction>>,
                         start: int, end: int, tick: int, fill: FillFn, between: BetweenFn, grind: GrindFn, W0: World,
                         panicked: bool, seen: seq<map<string, View>>, ordss: seq<seq<seq<Pair>>>, t: int, now: int)
    reads (set e | e in sims), initPort
  {
    if panicked then RanOut(sims, exs, exNames, initPort, obts, txn, start, end, tick, fill, between, grind, W0, seen, ordss)
    else RanTo(sims, exs, exNames, initPort, obts, txn, start, end, tick, fill, between, grind, W0, seen, ordss, t, now)
  }

  /** The loop body of `Run`: one step at time `t`, recorded in `seen` and
      `ordss`. Its postcondition is compared with `true` so that it is
      checked as one fact rather than conjunct by conjunct of the
      predicates it is made of. */
  method RunStep(sims: seq<Sim.Simulator>, exs: map<string, Sim.Simulator>, exNames: seq<string>, initPort: Portfolio,
                 obts: map<Pair, seq<Books.OrderBookT>>, txn: map<Pair, seq<Transaction>>,
                 start: int, end: int, tick: int, fill: FillFn, between: BetweenFn, grind: GrindFn, ghost W0: World,
                 ghost seen: seq<map<string, View>>, ghost ordss: seq<seq<seq<Pair>>>, t: int, now: int)
    returns (panicked: bool, ghost seen': seq<map<string, View>>, ghost ordss': seq<seq<seq<Pair>>>, t': int, now': int)
    requires t < end && Built(sims, exNames) && Named(exs, sims, exNames)
    requires forall v: map<string, View>, k :: 0 <= k < |grind(v)| ==> WellFormed(grind(v)[k], exNames)
    requires RanTo(sims, exs, exNames, initPort, obts, txn, start, end, tick, fill, between, grind, W0, seen, ordss, t, now)
    modifies (set e | e in sims), initPort
    ensures t' == t + tick && now' == t
    ensures RanNext(sims, exs, exNames, initPort, obts, txn, start, end, tick, fill, between, grind, W0, panicked, seen', ordss', t', now') == true
  {
    ghost var W := Ended(W0, sims, exs, initPort, seen, ordss, false, start, tick, fill, between, grind);
    var view, stuck, ords := Round(sims, exs, exNames, initPort, obts, txn, now, t, fill, between, grind, W);
    t', now' := t + tick, t;
    seen', ordss' := RanAfter(sims, exs, exNames, initPort, obts, txn, start, end, tick, fill, between, grind, W0,
                              stuck, seen, ordss, ords, view, t, now);
    panicked := stuck;
  }

  /** What a step of `Run` leads to, from what `Round` promises. The
      predicates it needs are compared with `true` so that each is taken
      as one fact at the call. */
  lemma RanAfter(sims: seq<Sim.Simulator>, exs: map<string, Sim.Simulator>, exNames: seq<string>, initPort: Portfolio,
                 obts: map<Pair, seq<Books.OrderBookT>>, txn: map<Pair, seq<Transaction>>,
                 start: int, end: int, tick: int, fill: FillFn, between: BetweenFn, grind: GrindFn, W0: World,
                 panicked: bool, seen: seq<map<string, View>>, ordss: seq<seq<seq<Pair>>>, ords: seq<seq<Pair>>,
                 view: map<string, View>, t: int, now: int)
    returns (seen': seq<map<string, View>>, ordss': seq<seq<seq<Pair>>>)
    requires t < end && Going(sims, exs, exNames, initPort, start, end, tick, fill, between, grind, W0, seen, ordss, t, now) == true
    requires Rounded(sims, exs, exNames, initPort, obts, txn, now, t, fill, between, grind,
                     Ended(W0, sims, exs, initPort, seen, ordss, false, start, tick, fill, between, grind),
                     view, panicked, ords) == true
    ensures seen' == (if panicked then seen else seen + [view]) && ordss' == ordss + [ords]
    ensures RanNext(sims, exs, exNames, initPort, obts, txn, start, end, tick, fill, between, grind, W0,
                    panicked, seen', ordss', t + tick, t)
  {
    seen', ordss' := if panicked then seen else seen + [view], ordss + [ords];
    if panicked {
      RanStuck(sims, exs, exNames, initPort, obts, txn, start, end, tick, fill, between, grind, W0, seen, ordss, ords, t, now);
    } else {
      RanSnoc(sims, exs, exNames, initPort, obts, txn, start, end, tick, fill, between, grind, W0, seen, ordss, ords, view, t);
    }
  }

  /** `RanTo` for the step that panicked gives `RanOut`. */
  lemma RanStuck(sims: seq<Sim.Simulator>, exs: map<string, Sim.Simulator>, exNames: seq<string>, initPort: Portfolio,
                 obts: map<Pair, seq<Books.OrderBookT>>, txn: map<Pair, seq<Transaction>>,
                 start: int, end: int, tick: int, fill: FillFn, between: BetweenFn, grind: GrindFn, W0: World,
                 seen: seq<map<string, View>>, ordss: seq<seq<seq<Pair>>>, ords: seq<seq<Pair>>, t: int, now: int)
    requires tick > 0 && t < end && t == TickTime(start, tick, |seen|) && now == LastTick(start, tick, |seen|)
    requires Ticks(start, end, tick) == |seen| + Ticks(t, end, tick)
    requires Seen(seen, exNames, start, tick)
    requires Played(W0, sims, exs, initPort, seen, ordss, false, start, tick, fill, between, grind)
    requires forall e :: e in sims ==> Shares(e, initPort, obts, txn)
    requires exists k :: 0 <= k < |sims| && Stuck(sims, k, now, t)
    requires |ords| < |sims|
    requires var W := Ended(W0, sims, exs, initPort, seen, ordss, false, start, tick, fill, between, grind);
      Enumerated(W, sims, ords, t, fill, between) &&
      InWorld(sims, initPort, Advanced(W, sims, ords, t, fill, between))
    ensures RanOut(sims, exs, exNames, initPort, obts, txn, start, end, tick, fill, between, grind, W0, seen, ordss + [ords])
  {
    assert Ticks(t, end, tick) == 1 + Ticks(t + tick, end, tick);
    PlayedStuck(W0, sims, exs, initPort, seen, ordss, ords, start, tick, fill, between, grind);
    EndedStuck(W0, sims, exs, initPort, seen, ordss, ords, start, tick, fill, between, grind);
  }

  /** `RanTo` one full step further on. */
  lemma RanSnoc(sims: seq<Sim.Simulator>, exs: map<string, Sim.Simulator>, exNames: seq<string>, initPort: Portfolio,
                obts: map<Pair, seq<Books.OrderBookT>>, txn: map<Pair, seq<Transaction>>,
                start: int, end: int, tick: int, fill: FillFn, between: BetweenFn, grind: GrindFn, W0: World,
                seen: seq<map<string, View>>, ordss: seq<seq<seq<Pair>>>, ords: seq<seq<Pair>>, view: map<string, View>, t: int)
    requires tick > 0 && t < end && t == TickTime(start, tick, |seen|)
    requires Ticks(start, end, tick) == |seen| + Ticks(t, end, tick)
    requires Seen(seen, exNames, start, tick)
    requires view.Keys == (set n | n in exNames) && forall n :: n in view ==> view[n].now == t
    requires Played(W0, sims, exs, initPort, seen, ordss, false, start, tick, fill, between, grind)
    requires Ready(sims, initPort, obts, txn, t)
    requires |ords| == |sims|
    requires var W := Ended(W0, sims, exs, initPort, seen, ordss, false, start, tick, fill, between, grind);
      var A := Advanced(W, sims, ords, t, fill, between);
      Enumerated(W, sims, ords, t, fill, between) &&
      view == ViewsIn(A, exs) && (forall k :: 0 <= k < |grind(view)| ==> Perform.Handled(grind(view)[k])) &&
      InWorld(sims, initPort, Performed(A, exs, initPort, grind(view)))
    ensures RanTo(sims, exs, exNames, initPort, obts, txn, start, end, tick, fill, between, grind, W0,
                  seen + [view], ordss + [ords], t + tick, t)
  {
    assert Ticks(t, end, tick) == 1 + Ticks(t + tick, end, tick);
    assert LastTick(start, tick, |seen| + 1) == t;
    PlayedSnoc(W0, sims, exs, initPort, seen, ordss, ords, view, start, tick, fill, between, grind);
    EndedSnoc(W0, sims, exs, initPort, seen, ordss, ords, view, start, tick, fill, between, grind);
    NextTick(start, tick, |seen|);
    SeenSnoc(seen, view, exNames, start, tick);
  }

  /** `Played` one full step further on. */
  lemma PlayedSnoc(W: World, sims: seq<Sim.Simulator>, exs: map<string, Sim.Simulator>, P: Portfolio,
                   seen: seq<map<string, View>>, ordss: seq<seq<seq<Pair>>>, ords: seq<seq<Pair>>, view: map<string, View>,
                   start: int, tick: int, fill: FillFn, between: BetweenFn, grind: GrindFn)
    requires Played(W, sims, exs, P, seen, ordss, false, start, tick, fill, between, grind)
    requires |ords| == |sims|
    requires var R := Ended(W, sims, exs, P, seen, ordss, false, start, tick, fill, between, grind);
      Enumerated(R, sims, ords, TickTime(start, tick, |seen|), fill, between) &&
      view == ViewsIn(Advanced(R, sims, ords, TickTime(start, tick, |seen|), fill, between), exs)
    ensures Played(W, sims, exs, P, seen + [view], ordss + [ords], false, start, tick, fill, between, grind)
  {
    var n := |seen|;
    assert ordss[..n] == ordss && (ordss + [ords])[..n + 1] == ordss + [ords];
    StepsSnoc(W, sims, exs, P, seen, ordss, ords, view, start, tick, fill, between, grind);
  }

  /** `Steps` one full step further on. */
  lemma StepsSnoc(W: World, sims: seq<Sim.Simulator>, exs: map<string, Sim.Simulator>, P: Portfolio,
                  seen: seq<map<string, View>>, ordss: seq<seq<seq<Pair>>>, ords: seq<seq<Pair>>, view: map<string, View>,
                  start: int, tick: int, fill: FillFn, between: BetweenFn, grind: GrindFn)
    requires (forall e :: e in sims ==> e in W.sims) && exs.Values <= W.sims.Keys
    requires forall v: map<string, View>, k :: 0 <= k < |grind(v)| ==> Perform.Handled(grind(v)[k])
    requires (forall k :: 0 <= k < |ordss| ==> |ordss[k]| <= |sims|) && |ords| == |sims|
    requires Steps(W, sims, exs, P, seen, ordss, start, tick, fill, between, grind)
    requires var R := Rounds(W, sims, exs, P, ordss, start, tick, fill, between, grind);
      Enumerated(R, sims, ords, TickTime(start, tick, |seen|), fill, between) &&
      view == ViewsIn(Advanced(R, sims, ords, TickTime(start, tick, |seen|), fill, between), exs)
    ensures Steps(W, sims, exs, P, seen + [view], ordss + [ords], start, tick, fill, between, grind)
  {
    var n := |seen|;
    assert (seen + [view])[..n] == seen && (ordss + [ords])[..n] == ordss;
  }

  /** `Ended` one full step further on: the advance, then the actions
      for what the strategy saw. */
  lemma EndedSnoc(W: World, sims: seq<Sim.Simulator>, exs: map<string, Sim.Simulator>, P: Portfolio,
                  seen: seq<map<string, View>>, ordss: seq<seq<seq<Pair>>>, ords: seq<seq<Pair>>, view: map<string, View>,
                  start: int, tick: int, fill: FillFn, between: BetweenFn, grind: GrindFn)
    requires Played(W, sims, exs, P, seen, ordss, false, start, tick, fill, between, grind)
    requires Played(W, sims, exs, P, seen + [view], ordss + [ords], false, start, tick, fill, between, grind)
    ensures var R := Ended(W, sims, exs, P, seen, ordss, false, start, tick, fill, between, grind);
      var A := Advanced(R, sims, ords, TickTime(start, tick, |seen|), fill, between);
      Ended(W, sims, exs, P, seen + [view], ordss + [ords], false, start, tick, fill, between, grind) ==
        Performed(A, exs, P, grind(ViewsIn(A, exs)))
  {
    var n := |seen|;
    assert ordss[..n] == ordss && (ordss + [ords])[..n] == ordss && (ordss + [ords])[..n + 1] == ordss + [ords];
  }

  /** `Played` for a last step that panics. */
  lemma PlayedStuck(W: World, sims: seq<Sim.Simulator>, exs: map<string, Sim.Simulator>, P: Portfolio,
                    seen: seq<map<string, View>>, ordss: seq<seq<seq<Pair>>>, ords: seq<seq<Pair>>,
                    start: int, tick: int, fill: FillFn, between: BetweenFn, grind: GrindFn)
    requires Played(W, sims, exs, P, seen, ordss, false, start, tick, fill, between, grind)
    requires |ords| < |sims|
    requires Enumerated(Ended(W, sims, exs, P, seen, ordss, false, start, tick, fill, between, grind),
                        sims, ords, TickTime(start, tick, |seen|), fill, between)
    ensures Played(W, sims, exs, P, seen, ordss + [ords], true, start, tick, fill, between, grind)
  {
    var n := |seen|;
    var o := ordss + [ords];
    assert ordss[..n] == ordss && o[..n] == ordss && o[n] == ords;
    assert Steps(W, sims, exs, P, seen, o[..n], start, tick, fill, between, grind);
  }

  /** `Ended` for a last step that panics: the advance it got through. */
  lemma EndedStuck(W: World, sims: seq<Sim.Simulator>, exs: map<string, Sim.Simulator>, P: Portfolio,
                   seen: seq<map<string, View>>, ordss: seq<seq<seq<Pair>>>, ords: seq<seq<Pair>>,
                   start: int, tick: int, fill: FillFn, between: BetweenFn, grind: GrindFn)
    requires Played(W, sims, exs, P, seen, ordss, false, start, tick, fill, between, grind)
    requires Played(W, sims, exs, P, seen, ordss + [ords], true, start, tick, fill, between, grind)
    ensures Ended(W, sims, exs, P, seen, ordss + [ords], true, start, tick, fill, between, grind) ==
      Advanced(Ended(W, sims, exs, P, seen, ordss, false, start, tick, fill, between, grind),
               sims, ords, TickTime(start, tick, |seen|), fill, between)
  {
    var n := |seen|;
    var o := ordss + [ords];
    assert ordss[..n] == ordss && o[..n] == ordss && o[n] == ords;
  }

  /** What a step at time `t` from world `W` leads to: the simulators
      still share the portfolio and data; a panicking step stops at a
      `Stuck` simulator, the pairs of those before it enumerated and
      advanced; otherwise every simulator is at `t`, advanced through its
      pairs in the enumerated orders, the strategy was handed the view of
      that world and the simulators and portfolio are in the world its
      actions were then performed into. */
  ghost predicate Rounded(sims: seq<Sim.Simulator>, exs: map<string, Sim.Simulator>, exNames: seq<string>, initPort: Portfolio,
                          obts: map<Pair, seq<Books.OrderBookT>>, txn: map<Pair, seq<Transaction>>,
                          now: int, t: int, fill: FillFn, between: BetweenFn, grind: GrindFn, W: World,
                          view: map<string, View>, panicked: bool, ords: seq<seq<Pair>>)
    reads (set e | e in sims), initPort
  {
    (forall e :: e in sims ==> e in W.sims) && exs.Values <= W.sims.Keys &&
    (forall e :: e in sims ==> Shares(e, initPort, obts, txn)) &&
    (panicked ==> exists k :: 0 <= k < |sims| && Stuck(sims, k, now, t)) &&
    (!panicked ==> (Ready(sims, initPort, obts, txn, t) &&
      view.Keys == (set n | n in exNames) && forall n :: n in view ==> view[n].now == t)) &&
    |ords| <= |sims| && (panicked <==> |ords| < |sims|) &&
    Enumerated(W, sims, ords, t, fill, between) &&
    (panicked ==> InWorld(sims, initPort, Advanced(W, sims, ords, t, fill, between))) &&
    (!panicked ==>
      var A := Advanced(W, sims, ords, t, fill, between);
      view == ViewsIn(A, exs) && (forall k :: 0 <= k < |grind(view)| ==> Perform.Handled(grind(view)[k])) &&
      InWorld(sims, initPort, Performed(A, exs, initPort, grind(view))))
  }

  /** One step at time `t` from state `W`: every simulator advanced, then
      the strategy handed their state, which is returned, and its actions
      performed; or, where advancing panics, nothing further. */
  method Round(sims: seq<Sim.Simulator>, exs: map<string, Sim.Simulator>, exNames: seq<string>, initPort: Portfolio,
               obts: map<Pair, seq<Books.OrderBookT>>, txn: map<Pair, seq<Transaction>>,
               now: int, t: int, fill: FillFn, between: BetweenFn, grind: GrindFn, ghost W: World)
    returns (view: map<string, View>, panicked: bool, ghost ords: seq<seq<Pair>>)
    requires Ready(sims, initPort, obts, txn, now) && Built(sims, exNames) && Named(exs, sims, exNames)
    requires forall v: map<string, View>, k :: 0 <= k < |grind(v)| ==> WellFormed(grind(v)[k], exNames)
    requires InWorld(sims, initPort, W)
    modifies (set e | e in sims), initPort
    ensures Rounded(sims, exs, exNames, initPort, obts, txn, now, t, fill, between, grind, W, view, panicked, ords)
  {
    panicked, ords := Advance(sims, exNames, initPort, obts, txn, now, t, fill, between, W);
    if panicked {
      return map[], true, ords;
    }
    ghost var A := Advanced(W, sims, ords, t, fill, between);
    view := ViewsOf(exs);
    ViewsOfWorld(sims, exs, initPort, A);
    var actions := grind(view);
    Step(sims, exs, exNames, initPort, obts, txn, t, actions, A);
  }

  /** What `Grind` is handed is the world's view. */
  lemma ViewsOfWorld(sims: seq<Sim.Simulator>, exs: map<string, Sim.Simulator>, P: Portfolio, W: World)
    requires forall e :: e in sims ==> e.myPortfolio == P
    requires forall n :: n in exs ==> exs[n] in sims
    requires InWorld(sims, P, W)
    ensures exs.Values <= W.sims.Keys && ViewsOf(exs) == ViewsIn(W, exs)
  {
  }

  /** The trades of the simulators are the world's. */
  lemma {:induction false} TradesOfWorld(sims: seq<Sim.Simulator>, P: Portfolio, W: World)
    requires InWorld(sims, P, W)
    ensures TradesOf(sims) == TradesIn(W, sims)
    decreases |sims|
  {
    if |sims| > 0 {
      TradesOfWorld(sims[..|sims| - 1], P, W);
    }
  }

  /** The second half of a step: the strategy's actions performed. The
      records `PerformActions` returns are not used by `Simulate`. Every
      simulator has carried out the actions addressed to it, and the
      shared portfolio has locked for every placement. */
  method Step(sims: seq<Sim.Simulator>, exs: map<string, Sim.Simulator>, exNames: seq<string>, initPort: Portfolio,
              obts: map<Pair, seq<Books.OrderBookT>>, txn: map<Pair, seq<Transaction>>, now: int,
              actions: seq<Strat.TradeAction>, ghost W: World)
    requires Ready(sims, initPort, obts, txn, now) && Named(exs, sims, exNames)
    requires forall k :: 0 <= k < |actions| ==> WellFormed(actions[k], exNames)
    requires InWorld(sims, initPort, W)
    modifies (set e | e in sims), initPort
    ensures Ready(sims, initPort, obts, txn, now)
    ensures forall e :: e in exs.Values ==> Perform.Carried(e, Perform.For(actions, exs, e), old(Perform.StateOf(e)))
    ensures Perform.Held(initPort, Perform.ForPort(actions, exs, initPort), old(Perform.HoldingOf(initPort)))
    ensures (forall k :: 0 <= k < |actions| ==> Perform.Handled(actions[k])) &&
      InWorld(sims, initPort, Performed(W, exs, initPort, actions))
  {
    StepActions(sims, exs, exNames, initPort, obts, txn, now, actions);
    forall e | e in exs.Values
      ensures e in W.sims && Perform.Carried(e, Perform.For(actions, exs, e), W.sims[e])
    {
    }
    PerformedWorld(sims, exs, initPort, W, actions);
  }

  /** `PerformActions` on the simulators of a step. */
  method StepActions(sims: seq<Sim.Simulator>, exs: map<string, Sim.Simulator>, exNames: seq<string>, initPort: Portfolio,
                     obts: map<Pair, seq<Books.OrderBookT>>, txn: map<Pair, seq<Transaction>>, now: int,
                     actions: seq<Strat.TradeAction>)
    requires Ready(sims, initPort, obts, txn, now) && Named(exs, sims, exNames)
    requires forall k :: 0 <= k < |actions| ==> WellFormed(actions[k], exNames)
    modifies (set e | e in sims), initPort
    ensures Ready(sims, initPort, obts, txn, now)
    ensures forall k :: 0 <= k < |actions| ==> Perform.Handled(actions[k])
    ensures forall e :: e in sims && e !in exs.Values ==> Perform.StateOf(e) == old(Perform.StateOf(e))
    ensures forall e :: e in exs.Values ==> Perform.Carried(e, Perform.For(actions, exs, e), old(Perform.StateOf(e)))
    ensures Perform.Held(initPort, Perform.ForPort(actions, exs, initPort), old(Perform.HoldingOf(initPort)))
  {
    assert forall e :: e in exs.Values ==> e in sims;
    assert forall k :: 0 <= k < |actions| ==> Perform.Dispatchable(exs, actions[k]);
    var cancelled, placed := Perform.PerformActions(exs, actions, now);
    forall e | e in sims
      ensures Shares(e, initPort, obts, txn) && e.now == now
    {
      if e in exs.Values {
        assert Perform.Carried(e, Perform.For(actions, exs, e), old(Perform.StateOf(e)));
      }
    }
    if exs == map[] {
      Perform.ForPortNone(actions, exs, initPort);
    } else {
      var n :| n in exs;
      assert exs[n] in exs.Values;
    }
  }

  /** Simulators that have carried out the actions addressed to them, the
      others untouched, over a portfolio holding what the placements leave,
      are the world `Performed` gives. */
  lemma PerformedWorld(sims: seq<Sim.Simulator>, exs: map<string, Sim.Simulator>, P: Portfolio, W: World,
                       actions: seq<Strat.TradeAction>)
    requires forall k :: 0 <= k < |actions| ==> Perform.Handled(actions[k])
    requires forall e :: e in sims ==> e in W.sims
    requires forall e :: e in sims && e !in exs.Values ==> Perform.StateOf(e) == W.sims[e]
    requires forall e :: e in exs.Values ==> e in W.sims && Perform.Carried(e, Perform.For(actions, exs, e), W.sims[e])
    requires Perform.Held(P, Perform.ForPort(actions, exs, P), W.port)
    ensures InWorld(sims, P, Performed(W, exs, P, actions))
  {
  }

  /** The result: every simulator's trades, in order. */
  method Collect(sims: seq<Sim.Simulator>) returns (result: seq<Transaction>)
    requires forall e :: e in sims ==> e.Valid()
    ensures result == TradesOf(sims)
  {
    result := [];
    var i := 0;
    while i < |sims|
      invariant 0 <= i <= |sims|
      invariant result == TradesOf(sims[..i])
    {
      assert sims[..i + 1][..i] == sims[..i];
      result := result + sims[i].GetTrades();
      i := i + 1;
    }
    assert sims[..i] == sims;
  }
}
