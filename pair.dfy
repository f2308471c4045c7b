/** Trading pairs and the per-pair tables of pair.go. */
module Pairs {
  import opened Wrappers
  import opened Num
  import opened Coins

  /** A market: `Coin` is traded, prices are quoted in `Base`. */
  datatype Pair = Pair(coin: Coin, base: Coin)

  /** `Pair.String`: the two names run together. */
  function PairString(p: Pair): (s: string)
    ensures |s| == |p.coin| + |p.base|
    ensures s[..|p.coin|] == p.coin && s[|p.coin|..] == p.base
  {
    p.coin + p.base
  }

  /** `Pair.MinimumTradingAmount`: a table with 1.0 for unlisted pairs. */
  function MinimumTradingAmount(p: Pair): (a: real)
    ensures a > 0.0
  {
    if p == Pair(IOTX, ETH) then 300.0
    else if p == Pair(IOTX, BTC) then 500.0
    else if p == Pair(ZRX, ETH) then 8.0
    else if p == Pair(ETH, USDT) then 0.05
    else if p == Pair(BTC, USDT) then 0.002
    else if p == Pair(ETH, BTC) then 0.016
    else if p == Pair(TRX, BTC) then 200.0
    else if p == Pair(ONT, ETH) then 6.0
    else if p == Pair(ONT, USDT) then 8.0
    else if p == Pair(ETC, ETH) then 0.3
    else if p == Pair(ETC, USDT) then 1.0
    else if p == Pair(ETC, BTC) then 0.8
    else if p == Pair(EOS, ETH) then 2.0
    else if p == Pair(EOS, USDT) then 3.0
    else if p == Pair(EOS, BTC) then 2.5
    else if p == Pair(NEO, ETH) then 0.6
    else if p == Pair(NEO, USDT) then 0.8
    else if p == Pair(NEO, BTC) then 0.8
    else if p == Pair(NKN, ETH) then 1.0
    else if p == Pair(MITH, ETH) then 1.0
    else if p == Pair(MDT, ETH) then 1000.0
    else if p == Pair(HT, ETH) then 1.0
    else if p == Pair(XMX, ETH) then 100.0
    else if p == Pair(MFT, ETH) then 200.0
    else if p == Pair(MFT, BTC) then 200.0
    else if p == Pair(FT, USDT) then 1.0
    else 1.0
  }

  /** `orderPricePrec`: decimals of an order price; `None` where the
      source panics. */
  function OrderPricePrec(p: Pair): (prec: Option<nat>)
    ensures prec.Some? ==> 2 <= prec.value <= 8
    ensures p.base !in {USDT, BTC, ETH, FT} ==> prec == None
  {
    if p == Pair(ETH, USDT) || p == Pair(BTC, USDT) then Some(2)
    else if p == Pair(ONT, USDT) || p == Pair(NEO, USDT) then Some(3)
    else if p == Pair(ETC, USDT) then Some(4)
    else if p in {Pair(ETH, BTC), Pair(ONT, ETH), Pair(NEO, ETH), Pair(NEO, BTC),
                  Pair(ETC, BTC), Pair(ETC, ETH)} then Some(6)
    else if p == Pair(ONT, BTC) || p == Pair(IOTX, ETH) then Some(7)
    else if p == Pair(IOTX, BTC) then Some(8)
    else if p == Pair(IOTX, USDT) then Some(6)
    else if p in {Pair(ZRX, ETH), Pair(MFT, ETH), Pair(TRX, BTC), Pair(MFT, BTC),
                  Pair(FT, BTC)} then Some(8)
    else if p == Pair(FT, USDT) then Some(5)
    else if p == Pair(FT, ETH) || p == Pair(EOS, BTC) then Some(8)
    else if p == Pair(EOS, USDT) then Some(4)
    else if p == Pair(EOS, ETH) then Some(6)
    else if p == Pair(EOS, FT) then Some(2)
    else None
  }

  /** `strconv.FormatFloat(price, 'f', prec, 64)` read back as a number:
      the price rounded to `prec` decimals, halves to even. */
  function RoundToPrec(price: real, prec: nat): real
  {
    RoundHalfEven(price * Pow10(prec)) as real / Pow10(prec)
  }

  /** The rounded price is within half a unit of the last kept decimal. */
  lemma RoundToPrecBound(price: real, prec: nat)
    ensures -0.5 <= (RoundToPrec(price, prec) - price) * Pow10(prec) <= 0.5
  {
    var n := RoundHalfEven(price * Pow10(prec)) as real;
    assert price * Pow10(prec) - 0.5 <= n <= price * Pow10(prec) + 0.5;
    DivMul(n, Pow10(prec));
    Distrib(RoundToPrec(price, prec), price, Pow10(prec));
  }

  lemma Distrib(a: real, b: real, p: real)
    ensures (a - b) * p == a * p - b * p
  {
  }

  /** `Pair.MinimumTick`: `10^-prec`; `None` where the source panics. */
  function MinimumTick(p: Pair): (tick: Option<real>)
    ensures tick.Some? <==> OrderPricePrec(p).Some?
    ensures tick.Some? ==> tick.value == TickOfPrec(OrderPricePrec(p).value)
  {
    match OrderPricePrec(p)
    case Some(k) => Some(TickOfPrec(k))
    case None => None
  }

  function TickOfPrec(k: nat): real { 1.0 / Pow10(k) }

  /** The tick is one positive unit of the last price decimal. */
  lemma TickOfPrecUnit(k: nat)
    ensures TickOfPrec(k) * Pow10(k) == 1.0 && TickOfPrec(k) > 0.0
  {
    var q := Pow10(k);
    DivMul(1.0, q);
    DivLt(0.0, 1.0, q);
  }

  /** `AllCoins`: each pair's base, then its coin, when not seen before. */
  method AllCoins(pairs: seq<Pair>) returns (res: seq<Coin>)
    ensures res == AllCoinsSpec(pairs, [])
  {
    res := [];
    var i := 0;
    while i < |pairs|
      invariant 0 <= i <= |pairs|
      invariant AllCoinsSpec(pairs[i..], res) == AllCoinsSpec(pairs, [])
    {
      var p := pairs[i];
      assert pairs[i..][1..] == pairs[i + 1..];
      if p.base !in res { res := res + [p.base]; }
      if p.coin !in res { res := res + [p.coin]; }
      i := i + 1;
    }
    assert pairs[i..] == [];
  }

  function AddNew(acc: seq<Coin>, c: Coin): seq<Coin>
  {
    if c in acc then acc else acc + [c]
  }

  /** The coins of `pairs` appended to `acc` by the rule of `AllCoins`. */
  function AllCoinsSpec(pairs: seq<Pair>, acc: seq<Coin>): seq<Coin>
  {
    if pairs == [] then acc
    else AllCoinsSpec(pairs[1..], AddNew(AddNew(acc, pairs[0].base), pairs[0].coin))
  }

  predicate Distinct<T(==)>(s: seq<T>)
  {
    forall i, j :: 0 <= i < j < |s| ==> s[i] != s[j]
  }

  /** `AddNew` appends a coin not yet listed, and keeps the list free of
      repeats. */
  lemma AddNewSpec(acc: seq<Coin>, c: Coin)
    requires Distinct(acc)
    ensures Distinct(AddNew(acc, c)) && acc <= AddNew(acc, c)
    ensures forall x :: x in AddNew(acc, c) <==> x in acc || x == c
  {
  }

  /** `AllCoins` lists each coin of the pairs exactly once and nothing else. */
  lemma {:induction false} AllCoinsSpecDistinct(pairs: seq<Pair>, acc: seq<Coin>)
    requires Distinct(acc)
    ensures Distinct(AllCoinsSpec(pairs, acc))
    ensures acc <= AllCoinsSpec(pairs, acc)
    ensures forall c :: c in AllCoinsSpec(pairs, acc) <==> c in acc || InPairs(c, pairs)
  {
    if pairs != [] {
      var acc1 := AddNew(acc, pairs[0].base);
      var acc' := AddNew(acc1, pairs[0].coin);
      AddNewSpec(acc, pairs[0].base);
      AddNewSpec(acc1, pairs[0].coin);
      AllCoinsSpecDistinct(pairs[1..], acc');
      forall c
        ensures c in AllCoinsSpec(pairs, acc) <==> c in acc || InPairs(c, pairs)
      {
        InPairsCons(c, pairs);
      }
    }
  }

  /** `c` is the base or the coin of one of `pairs`. */
  predicate InPairs(c: Coin, pairs: seq<Pair>)
  {
    exists k :: 0 <= k < |pairs| && (c == pairs[k].base || c == pairs[k].coin)
  }

  lemma InPairsCons(c: Coin, pairs: seq<Pair>)
    requires pairs != []
    ensures InPairs(c, pairs) <==> c == pairs[0].base || c == pairs[0].coin || InPairs(c, pairs[1..])
  {
    if InPairs(c, pairs[1..]) {
      var k :| 0 <= k < |pairs[1..]| && (c == pairs[1..][k].base || c == pairs[1..][k].coin);
      assert pairs[k + 1] == pairs[1..][k];
    }
    if InPairs(c, pairs) {
      var k :| 0 <= k < |pairs| && (c == pairs[k].base || c == pairs[k].coin);
      if k > 0 { assert pairs[1..][k - 1] == pairs[k]; }
    }
  }

  /** `RightPair`: the quote is USDT, else BTC, else ETH, plus IOTX/APOT;
      `None` is the source's `(Pair{}, false)`. */
  function RightPair(c1: Coin, c2: Coin): (r: Option<Pair>)
    ensures r.Some? ==> (r.value == Pair(c1, c2) || r.value == Pair(c2, c1))
    ensures r.Some? <==> (c1 in {USDT, BTC, ETH} || c2 in {USDT, BTC, ETH}
                          || (c1 == IOTX && c2 == APOT) || (c1 == APOT && c2 == IOTX))
  {
    if c1 == USDT then Some(Pair(c2, c1))
    else if c2 == USDT then Some(Pair(c1, c2))
    else if c1 == BTC then Some(Pair(c2, c1))
    else if c2 == BTC then Some(Pair(c1, c2))
    else if c1 == ETH then Some(Pair(c2, c1))
    else if c2 == ETH then Some(Pair(c1, c2))
    else if (c1 == IOTX && c2 == APOT) || (c1 == APOT && c2 == IOTX) then Some(Pair(IOTX, APOT))
    else None
  }

  /** The order of the arguments does not matter, and the quote coin is
      the higher-priority one. */
  lemma RightPairSymmetric(c1: Coin, c2: Coin)
    ensures RightPair(c1, c2) == RightPair(c2, c1)
    ensures RightPair(c1, c2).Some? && USDT in {c1, c2} ==> RightPair(c1, c2).value.base == USDT
    ensures RightPair(c1, c2).Some? && USDT !in {c1, c2} && BTC in {c1, c2} ==> RightPair(c1, c2).value.base == BTC
  {
  }
}
