/**
 * `PerformActions` of brew/perform.go: a strategy's actions carried out in
 * order against the exchanges, here the simulators, by name. Placements go
 * through `PlaceLimitOrder` then `TrackOrderID`; cancellations through
 * `CancelOrder`; anything else is skipped. The wall-clock reading that
 * stamps each record is a parameter, and the optional pause between
 * actions is left out.
 */
module Perform {
  import opened Wrappers
  import opened Text
  import opened Pairs
  import Strat
  import Books
  import Sim
  import Txns
  import Portfolios
  import Contracts
  import opened Coins

  /** `ExNameWithOID`: one placed or cancelled order. */
  datatype ExNameWithOID = ExNameWithOID(exName: string, pair: Pair, orderID: string, timeStamp: int)

  /** An action the dispatch can carry out without a Go panic: the
      parameters have the right types, a placement is on a pair with a
      known price precision, and a placement or cancellation names an
      existing exchange. The switch never looks at a wait. */
  predicate Dispatchable(exs: map<string, Sim.Simulator>, a: Strat.TradeAction)
  {
    Handled(a) && (a.op != Strat.Wait ==> a.exName in exs)
  }

  predicate Handled(a: Strat.TradeAction)
  {
    Strat.Performable(a) && (a.op == Strat.PlaceLimitOrder ==> OrderPricePrec(a.pair).Some?)
  }

  predicate AllHandled(actions: seq<Strat.TradeAction>)
  {
    forall k :: 0 <= k < |actions| ==> Handled(actions[k]) && actions[k].op != Strat.Wait
  }

  /** The actions `PerformActions` hands to one simulator, in order
      (waits are not handed over). */
  function For(actions: seq<Strat.TradeAction>, exs: map<string, Sim.Simulator>, e: Sim.Simulator): (r: seq<Strat.TradeAction>)
    ensures |r| <= |actions|
    decreases |actions|
  {
    if |actions| == 0 then []
    else
      var a := actions[|actions| - 1];
      For(actions[..|actions| - 1], exs, e) +
        (if a.op != Strat.Wait && a.exName in exs && exs[a.exName] == e then [a] else [])
  }

  /** A simulator is handed only actions of the list that are not
      waits and are addressed to it. */
  lemma {:induction false} ForIn(actions: seq<Strat.TradeAction>, exs: map<string, Sim.Simulator>, e: Sim.Simulator)
    ensures forall k :: 0 <= k < |For(actions, exs, e)| ==>
      var a := For(actions, exs, e)[k];
      a in actions && a.op != Strat.Wait && a.exName in exs && exs[a.exName] == e
    decreases |actions|
  {
    if |actions| > 0 {
      ForIn(actions[..|actions| - 1], exs, e);
    }
  }

  /** What a simulator named `exName` at time `now` records for an action
      handed to it: the placement with its price rounded, or the
      cancellation. */
  function Record(a: Strat.TradeAction, exName: string, now: int): Strat.TradeActionT
    requires Handled(a) && a.op != Strat.Wait
  {
    if a.op == Strat.PlaceLimitOrder then
      Strat.TradeActionT(now, Strat.PlaceLimitOrderAction(exName, a.pair, LimitPrice(a), LimitAmount(a)))
    else
      Strat.TradeActionT(now, Strat.CancelOrderAction(exName, a.pair, Strat.OrderIdParam(a).value))
  }

  function Records(actions: seq<Strat.TradeAction>, exName: string, now: int): (r: seq<Strat.TradeActionT>)
    requires AllHandled(actions)
    ensures |r| == |actions|
    ensures forall k :: 0 <= k < |actions| ==> r[k] == Record(actions[k], exName, now)
    decreases |actions|
  {
    if |actions| == 0 then []
    else Records(actions[..|actions| - 1], exName, now) + [Record(actions[|actions| - 1], exName, now)]
  }

  /** The number of placements among the actions. */
  function Placements(actions: seq<Strat.TradeAction>): (n: nat)
    ensures n <= |actions|
    decreases |actions|
  {
    if |actions| == 0 then 0
    else Placements(actions[..|actions| - 1]) + (if actions[|actions| - 1].op == Strat.PlaceLimitOrder then 1 else 0)
  }

  /** The placements, each as its exchange and pair; the id is the
      exchange's answer. */
  function Placed(actions: seq<Strat.TradeAction>): (r: seq<(string, Pair)>)
    ensures |r| == Placements(actions)
    decreases |actions|
  {
    if |actions| == 0 then []
    else
      var a := actions[|actions| - 1];
      Placed(actions[..|actions| - 1]) + (if a.op == Strat.PlaceLimitOrder then [(a.exName, a.pair)] else [])
  }

  /** The cancellations, each with the id it names, stamped `wall`. */
  function Cancelled(actions: seq<Strat.TradeAction>, wall: int): (r: seq<ExNameWithOID>)
    requires forall k :: 0 <= k < |actions| ==> Handled(actions[k])
    ensures |r| <= |actions|
    decreases |actions|
  {
    if |actions| == 0 then []
    else
      var a := actions[|actions| - 1];
      assert Handled(a);
      Cancelled(actions[..|actions| - 1], wall) + CancelRecord(a, wall)
  }

  /** The cancellation record of one action, if it is one. */
  function CancelRecord(a: Strat.TradeAction, wall: int): seq<ExNameWithOID>
    requires Handled(a)
  {
    if a.op == Strat.CancelOpenOrder then [ExNameWithOID(a.exName, a.pair, Strat.OrderIdParam(a).value, wall)] else []
  }

  /** `p` is the placement record of one action, if it is one, whatever
      id the exchange answered. */
  predicate PlaceRecord(p: seq<ExNameWithOID>, a: Strat.TradeAction, wall: int)
  {
    (a.op == Strat.PlaceLimitOrder ==> |p| == 1 && p[0].exName == a.exName && p[0].pair == a.pair && p[0].timeStamp == wall) &&
    (a.op != Strat.PlaceLimitOrder ==> p == [])
  }

  /** One placement record per placement, on its exchange and pair, stamped
      `wall`. */
  predicate PlacedAs(placed: seq<ExNameWithOID>, actions: seq<Strat.TradeAction>, wall: int)
  {
    |placed| == Placements(actions) &&
    forall k :: 0 <= k < |placed| ==> (placed[k].exName, placed[k].pair) == Placed(actions)[k] && placed[k].timeStamp == wall
  }

  lemma PlacedStep(placed: seq<ExNameWithOID>, p: seq<ExNameWithOID>, actions: seq<Strat.TradeAction>, i: nat, wall: int)
    requires i < |actions| && PlacedAs(placed, actions[..i], wall) && PlaceRecord(p, actions[i], wall)
    ensures PlacedAs(placed + p, actions[..i + 1], wall)
  {
    assert actions[..i + 1][..i] == actions[..i];
  }

  /** The price a placement rests at, rounded to the pair's precision. */
  function LimitPrice(a: Strat.TradeAction): real
    requires Handled(a) && a.op == Strat.PlaceLimitOrder
  {
    RoundToPrec(Strat.FloatParam(a, "price").value, OrderPricePrec(a.pair).value)
  }

  function LimitAmount(a: Strat.TradeAction): real
    requires Handled(a) && a.op == Strat.PlaceLimitOrder
  {
    Strat.FloatParam(a, "amount").value
  }

  /** The orders of a simulator after one action handed to it at clock
      `now`, its counter at `oid`: a placement appends a new ALIVE order
      numbered `oid` at the rounded price, a cancellation CANCELs the
      pair's orders with its id. */
  function Apply(m: map<Pair, seq<Sim.SimOrder>>, a: Strat.TradeAction, now: int, oid: nat): map<Pair, seq<Sim.SimOrder>>
    requires Handled(a) && a.op != Strat.Wait
  {
    if a.op == Strat.PlaceLimitOrder then
      m[a.pair := Sim.OrdersOf(m, a.pair) + [Sim.SimOrder(NatToString(oid), LimitPrice(a), LimitAmount(a), Books.ALIVE, now)]]
    else Sim.CancelIn(m, a.pair, Strat.OrderIdParam(a).value)
  }

  /** The orders of a simulator after the actions `done` handed to it, in
      order, from orders `m` and counter `oid`. */
  function OrdersAfter(done: seq<Strat.TradeAction>, m: map<Pair, seq<Sim.SimOrder>>, now: int, oid: nat): map<Pair, seq<Sim.SimOrder>>
    requires AllHandled(done)
    decreases |done|
  {
    if |done| == 0 then m
    else
      var init := done[..|done| - 1];
      Apply(OrdersAfter(init, m, now, oid), done[|done| - 1], now, oid + Placements(init))
  }

  /** The locks after one action: a placement locks its value (a buy) or
      its size (a sell); a cancellation releases nothing. */
  function LockOne(locked: map<Coin, real>, a: Strat.TradeAction): map<Coin, real>
    requires Handled(a) && a.op != Strat.Wait
  {
    if a.op == Strat.PlaceLimitOrder then Sim.Lock(locked, a.pair, LimitPrice(a), LimitAmount(a)) else locked
  }

  /** The locks of a portfolio after the actions `done` handed to the
      simulators that book into it. */
  function LocksAfter(done: seq<Strat.TradeAction>, locked: map<Coin, real>): map<Coin, real>
    requires AllHandled(done)
    decreases |done|
  {
    if |done| == 0 then locked
    else LockOne(LocksAfter(done[..|done| - 1], locked), done[|done| - 1])
  }

  /** The placements among the actions on one pair. */
  function PlacementsOn(done: seq<Strat.TradeAction>, p: Pair): nat
    decreases |done|
  {
    if |done| == 0 then 0
    else
      var a := done[|done| - 1];
      PlacementsOn(done[..|done| - 1], p) + (if a.op == Strat.PlaceLimitOrder && a.pair == p then 1 else 0)
  }

  /** After the actions, every pair holds its orders before them and one
      more per placement on it; cancellations keep the pairs and the
      counts. The first orders of each pair are the ones it had, up to
      their status. */
  lemma {:induction false} OrdersAfterCount(done: seq<Strat.TradeAction>, m: map<Pair, seq<Sim.SimOrder>>, now: int, oid: nat, p: Pair)
    requires AllHandled(done)
    ensures |Sim.OrdersOf(OrdersAfter(done, m, now, oid), p)| == |Sim.OrdersOf(m, p)| + PlacementsOn(done, p)
    ensures p in OrdersAfter(done, m, now, oid) <==> p in m || PlacementsOn(done, p) > 0
    ensures forall k :: 0 <= k < |Sim.OrdersOf(m, p)| ==>
      Sim.OrdersOf(OrdersAfter(done, m, now, oid), p)[k] == Sim.OrdersOf(m, p)[k] ||
      Sim.OrdersOf(OrdersAfter(done, m, now, oid), p)[k] == Sim.OrdersOf(m, p)[k].(status := Books.CANCELLED)
    decreases |done|
  {
    if |done| > 0 {
      var init := done[..|done| - 1];
      var a := done[|done| - 1];
      OrdersAfterCount(init, m, now, oid, p);
      var prev := OrdersAfter(init, m, now, oid);
      if a.op == Strat.CancelOpenOrder && a.pair == p && p in prev {
        var id := Strat.OrderIdParam(a).value;
        var rs := Sim.CancelUpTo(prev[p], |prev[p]|, id);
        assert Sim.OrdersOf(OrdersAfter(done, m, now, oid), p) == rs;
        forall k | 0 <= k < |Sim.OrdersOf(m, p)|
          ensures rs[k] == Sim.OrdersOf(m, p)[k] || rs[k] == Sim.OrdersOf(m, p)[k].(status := Books.CANCELLED)
        {
          assert rs[k] == prev[p][k] || rs[k] == prev[p][k].(status := Books.CANCELLED);
        }
      }
    }
  }

  /** The part of a simulator's state that the actions change or keep:
      its recorded actions, counter, clock, trades and orders. */
  datatype SimState = SimState(actions: seq<Strat.TradeActionT>, oid: nat, now: int,
                               txns: seq<Txns.Transaction>, orders: map<Pair, seq<Sim.SimOrder>>)

  function StateOf(e: Sim.Simulator): SimState
    reads e
  {
    SimState(e.myActions, e.oid, e.now, e.myTransactions, e.myOrders)
  }

  /** The balances, locks and contracts of a portfolio. */
  datatype Holding = Holding(balances: map<Coin, real>, locked: map<Coin, real>, contracts: seq<Contracts.Contract>)

  function HoldingOf(P: Portfolios.Portfolio): Holding
    reads P
  {
    Holding(P.balances, P.locked, P.contracts)
  }

  /** A simulator's state after the actions `done` handed to it, from `s`:
      one record per action, one counter value per placement, the orders
      as `OrdersAfter` gives them, the clock and the trades kept. */
  function After(s: SimState, done: seq<Strat.TradeAction>, exName: string): SimState
    requires AllHandled(done)
  {
    SimState(s.actions + Records(done, exName, s.now), s.oid + Placements(done), s.now, s.txns,
             OrdersAfter(done, s.orders, s.now, s.oid))
  }

  /** A portfolio after the actions `done` handed to simulators booking
      into it: only the locks change. */
  function HoldingAfter(h: Holding, done: seq<Strat.TradeAction>): Holding
    requires AllHandled(done)
  {
    h.(locked := LocksAfter(done, h.locked))
  }

  /** A simulator's state after one more action handed to it. */
  function Next(s: SimState, a: Strat.TradeAction, exName: string): SimState
    requires Handled(a) && a.op != Strat.Wait
  {
    SimState(s.actions + [Record(a, exName, s.now)], s.oid + (if a.op == Strat.PlaceLimitOrder then 1 else 0),
             s.now, s.txns, Apply(s.orders, a, s.now, s.oid))
  }

  /** `After` is `Next` applied action by action. */
  lemma AfterSnoc(s: SimState, done: seq<Strat.TradeAction>, a: Strat.TradeAction, exName: string)
    requires AllHandled(done) && Handled(a) && a.op != Strat.Wait
    ensures AllHandled(done + [a])
    ensures After(s, done + [a], exName) == Next(After(s, done, exName), a, exName)
  {
    RecordsSnoc(done, a, exName, s.now, s.actions, s.actions + Records(done, exName, s.now), s.oid, s.oid + Placements(done));
    assert (done + [a])[..|done|] == done;
  }

  lemma HoldingAfterSnoc(h: Holding, done: seq<Strat.TradeAction>, a: Strat.TradeAction)
    requires AllHandled(done) && Handled(a) && a.op != Strat.Wait
    ensures AllHandled(done + [a])
    ensures HoldingAfter(h, done + [a]) == HoldingAfter(h, done).(locked := LockOne(HoldingAfter(h, done).locked, a))
  {
    assert (done + [a])[..|done|] == done;
  }

  /** A simulator has carried out `done` and nothing else from `s`, and
      is in a good state. */
  ghost predicate Carried(e: Sim.Simulator, done: seq<Strat.TradeAction>, s: SimState)
    reads e
  {
    AllHandled(done) && StateOf(e) == After(s, done, e.exName) && e.Valid()
  }

  /** A portfolio holds what the actions `done` leave of `h`. */
  ghost predicate Held(P: Portfolios.Portfolio, done: seq<Strat.TradeAction>, h: Holding)
    reads P
  {
    AllHandled(done) && HoldingOf(P) == HoldingAfter(h, done)
  }

  /** The actions `PerformActions` hands to simulators booking into `P`. */
  function ForPort(actions: seq<Strat.TradeAction>, exs: map<string, Sim.Simulator>, P: Portfolios.Portfolio): (r: seq<Strat.TradeAction>)
    ensures |r| <= |actions|
    decreases |actions|
  {
    if |actions| == 0 then []
    else
      var a := actions[|actions| - 1];
      ForPort(actions[..|actions| - 1], exs, P) +
        (if a.op != Strat.Wait && a.exName in exs && exs[a.exName].myPortfolio == P then [a] else [])
  }

  /** A portfolio no simulator books into is handed no action. */
  lemma {:induction false} ForPortNone(actions: seq<Strat.TradeAction>, exs: map<string, Sim.Simulator>, P: Portfolios.Portfolio)
    requires forall n :: n in exs ==> exs[n].myPortfolio != P
    ensures ForPort(actions, exs, P) == []
    decreases |actions|
  {
    if |actions| > 0 {
      ForPortNone(actions[..|actions| - 1], exs, P);
    }
  }

  /** A portfolio is handed only actions of the list that are not waits
      and are addressed to a simulator booking into it. */
  lemma {:induction false} ForPortIn(actions: seq<Strat.TradeAction>, exs: map<string, Sim.Simulator>, P: Portfolios.Portfolio)
    ensures forall k :: 0 <= k < |ForPort(actions, exs, P)| ==>
      var a := ForPort(actions, exs, P)[k];
      a in actions && a.op != Strat.Wait && a.exName in exs && exs[a.exName].myPortfolio == P
    decreases |actions|
  {
    if |actions| > 0 {
      ForPortIn(actions[..|actions| - 1], exs, P);
    }
  }

  /** The portfolios the simulators book into. */
  function Ports(exs: map<string, Sim.Simulator>): set<Portfolios.Portfolio>
  {
    set e | e in exs.Values :: e.myPortfolio
  }

  /** The simulator an action that is not a wait is addressed to, with
      the portfolio it books into; a wait touches nothing. */
  function Target(exs: map<string, Sim.Simulator>, a: Strat.TradeAction): set<object>
    requires a.op != Strat.Wait ==> a.exName in exs
    reads if a.op != Strat.Wait then {exs[a.exName]} else {}
  {
    if a.op != Strat.Wait then {exs[a.exName], exs[a.exName].myPortfolio} else {}
  }

  /** One action: the placement or cancellation on its simulator, with
      the new order or the CANCELLED ones and the new lock, and nothing for
      a wait. */
  method Dispatch(exs: map<string, Sim.Simulator>, a: Strat.TradeAction, wall: int)
    returns (placed: seq<ExNameWithOID>, cancelled: seq<ExNameWithOID>)
    requires Dispatchable(exs, a) && (a.op != Strat.Wait ==> exs[a.exName].Valid())
    modifies Target(exs, a)
    ensures a.op != Strat.Wait ==> var e := exs[a.exName];
      StateOf(e) == Next(old(StateOf(e)), a, e.exName) && e.Valid()
    ensures a.op != Strat.Wait ==> var P := exs[a.exName].myPortfolio;
      HoldingOf(P) == old(HoldingOf(P)).(locked := LockOne(old(P.locked), a))
    ensures cancelled == CancelRecord(a, wall) && PlaceRecord(placed, a, wall)
    ensures a.op == Strat.PlaceLimitOrder ==> placed[0].orderID == NatToString(old(exs[a.exName].oid))
  {
    placed, cancelled := [], [];
    match a.op
    case PlaceLimitOrder =>
      var ex := exs[a.exName];
      var oid := ex.PlaceLimitOrder(a.pair, Strat.FloatParam(a, "price").value, Strat.FloatParam(a, "amount").value);
      ex.TrackOrderID(a.pair, oid);
      placed := [ExNameWithOID(a.exName, a.pair, oid, wall)];
    case CancelOpenOrder =>
      var ex := exs[a.exName];
      var oid := Strat.OrderIdParam(a).value;
      ex.CancelOrder(a.pair, oid);
      cancelled := [ExNameWithOID(a.exName, a.pair, oid, wall)];
    case Wait =>
  }

  /** Every simulator has carried out the actions `done` handed to it so
      far, from its state in `S0`. */
  ghost predicate SimsTracked(exs: map<string, Sim.Simulator>, done: seq<Strat.TradeAction>, S0: map<Sim.Simulator, SimState>)
    reads exs.Values
  {
    forall e :: e in exs.Values ==> e in S0 && Carried(e, For(done, exs, e), S0[e])
  }

  /** Every portfolio holds what the actions `done` handed to simulators
      booking into it leave of its holding in `H0`. */
  ghost predicate PortsTracked(exs: map<string, Sim.Simulator>, done: seq<Strat.TradeAction>, H0: map<Portfolios.Portfolio, Holding>)
    reads Ports(exs)
  {
    forall e :: e in exs.Values ==> e.myPortfolio in H0 && Held(e.myPortfolio, ForPort(done, exs, e.myPortfolio), H0[e.myPortfolio])
  }

  /** `SimsTracked` for every simulator but `ex`. */
  ghost predicate SimsExcept(exs: map<string, Sim.Simulator>, done: seq<Strat.TradeAction>, ex: Sim.Simulator,
                             S0: map<Sim.Simulator, SimState>)
    reads exs.Values - {ex}
  {
    forall e :: e in exs.Values && e != ex ==> e in S0 && Carried(e, For(done, exs, e), S0[e])
  }

  /** `PortsTracked` for every portfolio but `P`. */
  ghost predicate PortsExcept(exs: map<string, Sim.Simulator>, done: seq<Strat.TradeAction>, P: Portfolios.Portfolio,
                              H0: map<Portfolios.Portfolio, Holding>)
    reads Ports(exs) - {P}
  {
    forall e :: e in exs.Values && e.myPortfolio != P ==>
      e.myPortfolio in H0 && Held(e.myPortfolio, ForPort(done, exs, e.myPortfolio), H0[e.myPortfolio])
  }

  /** The loop body of `PerformActions`: one action dispatched, and every
      simulator and portfolio one action further on. */
  method PerformOne(exs: map<string, Sim.Simulator>, actions: seq<Strat.TradeAction>, i: nat, wall: int,
                    ghost S0: map<Sim.Simulator, SimState>, ghost H0: map<Portfolios.Portfolio, Holding>)
    returns (p: seq<ExNameWithOID>, c: seq<ExNameWithOID>)
    requires i < |actions| && Dispatchable(exs, actions[i])
    requires SimsTracked(exs, actions[..i], S0) && PortsTracked(exs, actions[..i], H0)
    modifies Target(exs, actions[i])
    ensures SimsTracked(exs, actions[..i + 1], S0) && PortsTracked(exs, actions[..i + 1], H0)
    ensures c == CancelRecord(actions[i], wall) && PlaceRecord(p, actions[i], wall)
  {
    var a := actions[i];
    if a.op == Strat.Wait {
      p, c := Dispatch(exs, a, wall);
      TrackedWait(exs, actions, i, S0, H0);
      return;
    }
    TrackedSplit(exs, actions, i, S0, H0);
    p, c := PerformAddressed(exs, actions, i, wall, S0, H0);
  }

  /** `PerformOne` for an action addressed to a simulator: the addressed
      simulator and its portfolio move one action on, the others keep. */
  method PerformAddressed(exs: map<string, Sim.Simulator>, actions: seq<Strat.TradeAction>, i: nat, wall: int,
                          ghost S0: map<Sim.Simulator, SimState>, ghost H0: map<Portfolios.Portfolio, Holding>)
    returns (p: seq<ExNameWithOID>, c: seq<ExNameWithOID>)
    requires i < |actions| && Dispatchable(exs, actions[i]) && actions[i].op != Strat.Wait
    requires var ex := exs[actions[i].exName];
      SimsExcept(exs, actions[..i + 1], ex, S0) && ex in S0 && Carried(ex, For(actions[..i], exs, ex), S0[ex])
    requires var P := exs[actions[i].exName].myPortfolio;
      PortsExcept(exs, actions[..i + 1], P, H0) && P in H0 && Held(P, ForPort(actions[..i], exs, P), H0[P])
    modifies Target(exs, actions[i])
    ensures SimsTracked(exs, actions[..i + 1], S0) && PortsTracked(exs, actions[..i + 1], H0)
    ensures c == CancelRecord(actions[i], wall) && PlaceRecord(p, actions[i], wall)
  {
    ghost var ex := exs[actions[i].exName];
    ghost var before, h := StateOf(ex), HoldingOf(ex.myPortfolio);
    p, c := DispatchOthersKept(exs, actions[..i + 1], actions[i], wall, S0, H0);
    TrackedJoin(exs, actions, i, S0, H0, before, h);
  }

  /** `Dispatch`, with the simulators and portfolios it does not touch
      still where the actions `done` left them. */
  method DispatchOthersKept(exs: map<string, Sim.Simulator>, ghost done: seq<Strat.TradeAction>, a: Strat.TradeAction, wall: int,
                            ghost S0: map<Sim.Simulator, SimState>, ghost H0: map<Portfolios.Portfolio, Holding>)
    returns (p: seq<ExNameWithOID>, c: seq<ExNameWithOID>)
    requires Dispatchable(exs, a) && a.op != Strat.Wait && exs[a.exName].Valid()
    requires SimsExcept(exs, done, exs[a.exName], S0) && PortsExcept(exs, done, exs[a.exName].myPortfolio, H0)
    modifies Target(exs, a)
    ensures SimsExcept(exs, done, exs[a.exName], S0) && PortsExcept(exs, done, exs[a.exName].myPortfolio, H0)
    ensures var e := exs[a.exName];
      StateOf(e) == Next(old(StateOf(e)), a, e.exName) && e.Valid()
    ensures var P := exs[a.exName].myPortfolio;
      HoldingOf(P) == old(HoldingOf(P)).(locked := LockOne(old(P.locked), a))
    ensures c == CancelRecord(a, wall) && PlaceRecord(p, a, wall)
  {
    ghost var ex := exs[a.exName];
    ghost var P := ex.myPortfolio;
    p, c := Dispatch(exs, a, wall);
    assert SimsExcept(exs, done, ex, S0) by {
      forall e | e in exs.Values && e != ex
        ensures StateOf(e) == old(StateOf(e))
      {
        assert e !in Target(exs, a);
      }
    }
    assert PortsExcept(exs, done, P, H0) by {
      forall Q | Q in Ports(exs) && Q != P
        ensures HoldingOf(Q) == old(HoldingOf(Q))
      {
        assert Q !in Target(exs, a);
      }
    }
  }

  /** Before an action addressed to `ex`, booking into `P`: `ex` and `P`
      are at the actions so far, and the others are also at this action,
      which hands them nothing. */
  lemma TrackedSplit(exs: map<string, Sim.Simulator>, actions: seq<Strat.TradeAction>, i: nat,
                     S0: map<Sim.Simulator, SimState>, H0: map<Portfolios.Portfolio, Holding>)
    requires i < |actions| && actions[i].op != Strat.Wait && actions[i].exName in exs
    requires SimsTracked(exs, actions[..i], S0) && PortsTracked(exs, actions[..i], H0)
    ensures var ex := exs[actions[i].exName];
      SimsExcept(exs, actions[..i + 1], ex, S0) && ex in S0 && Carried(ex, For(actions[..i], exs, ex), S0[ex])
    ensures var P := exs[actions[i].exName].myPortfolio;
      PortsExcept(exs, actions[..i + 1], P, H0) && P in H0 && Held(P, ForPort(actions[..i], exs, P), H0[P])
  {
    var ex := exs[actions[i].exName];
    assert ex in exs.Values;
    forall e | e in exs.Values && e != ex
      ensures For(actions[..i + 1], exs, e) == For(actions[..i], exs, e)
    {
      ForStepOne(actions, i, exs, e);
    }
    forall e | e in exs.Values && e.myPortfolio != ex.myPortfolio
      ensures ForPort(actions[..i + 1], exs, e.myPortfolio) == ForPort(actions[..i], exs, e.myPortfolio)
    {
      ForPortStepOne(actions, i, exs, e.myPortfolio);
    }
  }

  /** After an action addressed to `ex`, booking into `P`: with `ex`
      and `P` one action on, every simulator and portfolio is at the
      actions including this one. */
  lemma TrackedJoin(exs: map<string, Sim.Simulator>, actions: seq<Strat.TradeAction>, i: nat,
                    S0: map<Sim.Simulator, SimState>, H0: map<Portfolios.Portfolio, Holding>, before: SimState, h: Holding)
    requires i < |actions| && Handled(actions[i]) && actions[i].op != Strat.Wait && actions[i].exName in exs
    requires var ex := exs[actions[i].exName];
      SimsExcept(exs, actions[..i + 1], ex, S0) && ex in S0 && AllHandled(For(actions[..i], exs, ex)) &&
      before == After(S0[ex], For(actions[..i], exs, ex), ex.exName) &&
      StateOf(ex) == Next(before, actions[i], ex.exName) && ex.Valid()
    requires var P := exs[actions[i].exName].myPortfolio;
      PortsExcept(exs, actions[..i + 1], P, H0) && P in H0 && AllHandled(ForPort(actions[..i], exs, P)) &&
      h == HoldingAfter(H0[P], ForPort(actions[..i], exs, P)) &&
      HoldingOf(P) == h.(locked := LockOne(h.locked, actions[i]))
    ensures SimsTracked(exs, actions[..i + 1], S0) && PortsTracked(exs, actions[..i + 1], H0)
  {
    var ex := exs[actions[i].exName];
    var P := ex.myPortfolio;
    ForStepOne(actions, i, exs, ex);
    ForPortStepOne(actions, i, exs, P);
    AfterSnoc(S0[ex], For(actions[..i], exs, ex), actions[i], ex.exName);
    HoldingAfterSnoc(H0[P], ForPort(actions[..i], exs, P), actions[i]);
  }

  /** `PerformActions`: the actions strictly in order. Each simulator
      records exactly the actions addressed to it, in order, takes one
      counter value per placement and holds the orders `OrdersAfter`
      gives; each portfolio takes the locks of the placements addressed to
      the simulators booking into it, and nothing else changes; the placed
      and cancelled lists follow the actions. */
  method PerformActions(exs: map<string, Sim.Simulator>, actions: seq<Strat.TradeAction>, wall: int)
    returns (cancelled: seq<ExNameWithOID>, placed: seq<ExNameWithOID>)
    requires forall k :: 0 <= k < |actions| ==> Handled(actions[k])
    requires forall k :: 0 <= k < |actions| ==> actions[k].op != Strat.Wait ==> actions[k].exName in exs
    requires forall e :: e in exs.Values ==> e.Valid()
    modifies exs.Values, Ports(exs)
    ensures cancelled == Cancelled(actions, wall)
    ensures PlacedAs(placed, actions, wall)
    ensures forall e :: e in exs.Values ==> Carried(e, For(actions, exs, e), old(StateOf(e)))
    ensures forall e :: e in exs.Values ==> Held(e.myPortfolio, ForPort(actions, exs, e.myPortfolio), old(HoldingOf(e.myPortfolio)))
  {
    ghost var S0 := map e | e in exs.Values :: StateOf(e);
    ghost var H0 := map P | P in Ports(exs) :: HoldingOf(P);
    assert forall e :: e in exs.Values ==> e.myPortfolio in H0 && H0[e.myPortfolio] == HoldingOf(e.myPortfolio);
    TrackedStart(exs, S0, H0);
    assert actions[..0] == [];
    cancelled, placed := PerformFrom(exs, actions, wall, S0, H0);
    assert actions[..|actions|] == actions;
  }

  /** The loop of `PerformActions`. */
  method PerformFrom(exs: map<string, Sim.Simulator>, actions: seq<Strat.TradeAction>, wall: int,
                     ghost S0: map<Sim.Simulator, SimState>, ghost H0: map<Portfolios.Portfolio, Holding>)
    returns (cancelled: seq<ExNameWithOID>, placed: seq<ExNameWithOID>)
    requires forall k :: 0 <= k < |actions| ==> Handled(actions[k])
    requires forall k :: 0 <= k < |actions| ==> actions[k].op != Strat.Wait ==> actions[k].exName in exs
    requires SimsTracked(exs, actions[..0], S0) && PortsTracked(exs, actions[..0], H0)
    modifies exs.Values, Ports(exs)
    ensures cancelled == Cancelled(actions[..|actions|], wall)
    ensures PlacedAs(placed, actions[..|actions|], wall)
    ensures SimsTracked(exs, actions[..|actions|], S0) && PortsTracked(exs, actions[..|actions|], H0)
  {
    cancelled, placed := [], [];
    var i := 0;
    while i < |actions|
      invariant 0 <= i <= |actions|
      invariant cancelled == Cancelled(actions[..i], wall)
      invariant PlacedAs(placed, actions[..i], wall)
      invariant SimsTracked(exs, actions[..i], S0) && PortsTracked(exs, actions[..i], H0)
    {
      if actions[i].op != Strat.Wait {
        var ex := exs[actions[i].exName];
        assert ex in exs.Values && ex.myPortfolio in Ports(exs);
      }
      var p, c := PerformOne(exs, actions, i, wall, S0, H0);
      PlacedStep(placed, p, actions, i, wall);
      CancelledStep(actions, i, wall);
      placed := placed + p;
      cancelled := cancelled + c;
      i := i + 1;
    }
  }

  /** Before the first action every simulator and portfolio is where it
      started. */
  lemma TrackedStart(exs: map<string, Sim.Simulator>, S0: map<Sim.Simulator, SimState>, H0: map<Portfolios.Portfolio, Holding>)
    requires forall e :: e in exs.Values ==> e in S0 && S0[e] == StateOf(e) && e.Valid()
    requires forall e :: e in exs.Values ==> e.myPortfolio in H0 && H0[e.myPortfolio] == HoldingOf(e.myPortfolio)
    ensures SimsTracked(exs, [], S0) && PortsTracked(exs, [], H0)
  {
    forall e | e in exs.Values
      ensures Carried(e, For([], exs, e), S0[e]) && Held(e.myPortfolio, ForPort([], exs, e.myPortfolio), H0[e.myPortfolio])
    {
      assert Records([], e.exName, e.now) == [] && Placements([]) == 0;
    }
  }

  /** A wait hands nothing to any simulator. */
  lemma TrackedWait(exs: map<string, Sim.Simulator>, actions: seq<Strat.TradeAction>, i: nat,
                    S0: map<Sim.Simulator, SimState>, H0: map<Portfolios.Portfolio, Holding>)
    requires i < |actions| && actions[i].op == Strat.Wait
    requires SimsTracked(exs, actions[..i], S0) && PortsTracked(exs, actions[..i], H0)
    ensures SimsTracked(exs, actions[..i + 1], S0) && PortsTracked(exs, actions[..i + 1], H0)
  {
    assert actions[..i + 1][..i] == actions[..i];
    forall e | e in exs.Values
      ensures For(actions[..i + 1], exs, e) == For(actions[..i], exs, e)
      ensures ForPort(actions[..i + 1], exs, e.myPortfolio) == ForPort(actions[..i], exs, e.myPortfolio)
    {
    }
  }

  /** The spec functions one action further on. */
  lemma CancelledStep(actions: seq<Strat.TradeAction>, i: nat, wall: int)
    requires i < |actions| && forall k :: 0 <= k <= i ==> Handled(actions[k])
    ensures Cancelled(actions[..i + 1], wall) == Cancelled(actions[..i], wall) + CancelRecord(actions[i], wall)
  {
    assert actions[..i + 1][..i] == actions[..i];
  }

  lemma ForStepOne(actions: seq<Strat.TradeAction>, i: nat, exs: map<string, Sim.Simulator>, e: Sim.Simulator)
    requires i < |actions|
    ensures var a := actions[i];
      For(actions[..i + 1], exs, e) ==
        For(actions[..i], exs, e) + (if a.op != Strat.Wait && a.exName in exs && exs[a.exName] == e then [a] else [])
  {
    assert actions[..i + 1][..i] == actions[..i];
  }

  lemma ForPortStepOne(actions: seq<Strat.TradeAction>, i: nat, exs: map<string, Sim.Simulator>, P: Portfolios.Portfolio)
    requires i < |actions|
    ensures var a := actions[i];
      ForPort(actions[..i + 1], exs, P) ==
        ForPort(actions[..i], exs, P) + (if a.op != Strat.Wait && a.exName in exs && exs[a.exName].myPortfolio == P then [a] else [])
  {
    assert actions[..i + 1][..i] == actions[..i];
  }

  /** `Records` and `Placements` one action further on. */
  lemma RecordsSnoc(done: seq<Strat.TradeAction>, a: Strat.TradeAction, exName: string, now: int,
                    acts0: seq<Strat.TradeActionT>, acts: seq<Strat.TradeActionT>, oid0: nat, oid: nat)
    requires AllHandled(done) && Handled(a) && a.op != Strat.Wait
    requires acts == acts0 + Records(done, exName, now) && oid == oid0 + Placements(done)
    ensures AllHandled(done + [a])
    ensures acts + [Record(a, exName, now)] == acts0 + Records(done + [a], exName, now)
    ensures oid + (if a.op == Strat.PlaceLimitOrder then 1 else 0) == oid0 + Placements(done + [a])
  {
    assert (done + [a])[..|done|] == done;
  }
}
