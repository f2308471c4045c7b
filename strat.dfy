/** The trading actions of strat.go: operation codes, the action records
    a strategy returns and their constructors, and `BaseStrat`. */
module Strat {
  import opened Wrappers
  import opened Coins
  import opened Pairs

  /** `Operation`: the codes 0, 1 and 2. */
  datatype Operation = PlaceLimitOrder | CancelOpenOrder | Wait

  function OpCode(op: Operation): (n: int)
    ensures 0 <= n <= 2
  {
    match op
    case PlaceLimitOrder => 0
    case CancelOpenOrder => 1
    case Wait => 2
  }

  /** The three codes are distinct. */
  lemma OpCodesDistinct(a: Operation, b: Operation)
    ensures OpCode(a) == OpCode(b) <==> a == b
  {
  }

  /** A value of the `map[string]interface{}` parameter map. */
  datatype Value = Float(f: real) | Str(s: string) | Int(i: int)

  /** `TradeAction`. */
  datatype TradeAction = TradeAction(exName: string, op: Operation, pair: Pair, params: map<string, Value>)

  /** `TradeActionT`: an action with the time it was taken. */
  datatype TradeActionT = TradeActionT(time: int, action: TradeAction)

  /** `CancelOrderAction`. */
  function CancelOrderAction(exName: string, pair: Pair, oid: string): (a: TradeAction)
    ensures a.op == CancelOpenOrder && a.exName == exName && a.pair == pair
    ensures a.params.Keys == {"orderid"} && OrderIdParam(a) == Some(oid)
  {
    TradeAction(exName, CancelOpenOrder, pair, map["orderid" := Str(oid)])
  }

  /** `PlaceLimitOrderAction`. */
  function PlaceLimitOrderAction(exName: string, pair: Pair, price: real, amount: real): (a: TradeAction)
    ensures a.op == PlaceLimitOrder && a.exName == exName && a.pair == pair
    ensures a.params.Keys == {"price", "amount"}
    ensures FloatParam(a, "price") == Some(price) && FloatParam(a, "amount") == Some(amount)
  {
    TradeAction(exName, PlaceLimitOrder, pair, map["price" := Float(price), "amount" := Float(amount)])
  }

  /** `WaitAction`: no exchange, the zero pair. */
  function WaitAction(nSec: int): (a: TradeAction)
    ensures a.op == Wait && a.exName == "" && a.pair == Pair("", "")
    ensures a.params.Keys == {"time"} && a.params["time"] == Int(nSec)
  {
    TradeAction("", Wait, Pair("", ""), map["time" := Int(nSec)])
  }

  /** `act.Params[key].(float64)`; `None` where the type assertion panics. */
  function FloatParam(a: TradeAction, key: string): (v: Option<real>)
  {
    if key in a.params && a.params[key].Float? then Some(a.params[key].f) else None
  }

  /** `act.Params["orderid"].(string)`; `None` where it panics. */
  function OrderIdParam(a: TradeAction): (v: Option<string>)
  {
    if "orderid" in a.params && a.params["orderid"].Str? then Some(a.params["orderid"].s) else None
  }

  /** An action that `PerformActions` can carry out without panicking. */
  predicate Performable(a: TradeAction)
  {
    match a.op
    case PlaceLimitOrder => FloatParam(a, "price").Some? && FloatParam(a, "amount").Some?
    case CancelOpenOrder => OrderIdParam(a).Some?
    case Wait => true
  }

  /** Every constructed action is performable, and the three kinds never
      share a code. */
  lemma ConstructorsPerformable(exName: string, pair: Pair, oid: string, price: real, amount: real, nSec: int)
    ensures Performable(CancelOrderAction(exName, pair, oid))
    ensures Performable(PlaceLimitOrderAction(exName, pair, price, amount))
    ensures Performable(WaitAction(nSec))
    ensures OpCode(CancelOrderAction(exName, pair, oid).op) == 1
    ensures OpCode(PlaceLimitOrderAction(exName, pair, price, amount).op) == 0
    ensures OpCode(WaitAction(nSec).op) == 2
  {
  }

  /** `BaseStrat`: the common strategy fields. */
  datatype BaseStrat = BaseStrat(tick: int)

  function GetTick(s: BaseStrat): (d: int)
    ensures d == s.tick
  {
    s.tick
  }

  function Name(s: BaseStrat): (n: string)
    ensures n == "bean"
  {
    "bean"
  }

  function FormatParams(s: BaseStrat): (p: string)
    ensures p == ""
  {
    ""
  }
}
