/**
 * The price lookups of rpc/risk.go and rpc/options.go. Both files read a
 * series of book snapshots fetched for one minute either side of `asof`
 * and use the FIRST snapshot whose time is not before the fixing time
 * (unlike `Books.GetOrderBook`, which takes the last one strictly
 * before). The market data service that answers the series is a
 * parameter.
 */
module Rpc {
  import opened Wrappers
  import opened Num
  import opened Chrono
  import opened Pairs
  import opened Text
  import Books
  import Contracts

  /** `GetOrderBookTS(pair, start, end, depth)`; the depth of 20 is the
      service's business. */
  type PairFetch = (Pair, int, int) -> seq<Books.OrderBookT>

  /** `GetFutOrderBookTS` / `GetOptOrderBookTS` by contract name. */
  type NameFetch = (string, int, int) -> seq<Books.OrderBookT>

  /** The book of the first snapshot at or after `fix`, if any. */
  function FirstAtOrAfter(obts: seq<Books.OrderBookT>, fix: int): (r: Option<Books.OrderBook>)
    ensures r.Some? <==> exists i :: 0 <= i < |obts| && obts[i].time >= fix
    ensures r.Some? ==> exists i :: 0 <= i < |obts| && obts[i].time >= fix && r.value == obts[i].ob &&
                                   forall k :: 0 <= k < i ==> obts[k].time < fix
  {
    var n := Books.LeadingBefore(obts, fix);
    if n < |obts| then Some(obts[n].ob) else None
  }

  /** What the lookups demand: the snapshot they use has a bid and an
      ask (`Bids[0]` and `Asks[0]` panic otherwise). */
  predicate Priceable(obts: seq<Books.OrderBookT>, fix: int)
  {
    FirstAtOrAfter(obts, fix).Some? ==> Books.Valid(FirstAtOrAfter(obts, fix).value)
  }

  /** The top bid and ask of that snapshot; NaN, NaN when there is
      none. */
  function Top(obts: seq<Books.OrderBookT>, fix: int): (r: (Fl, Fl))
    requires Priceable(obts, fix)
    ensures r.0.R? <==> r.1.R?
    ensures r.0.R? <==> exists i :: 0 <= i < |obts| && obts[i].time >= fix
  {
    match FirstAtOrAfter(obts, fix)
    case None => (NaN, NaN)
    case Some(ob) => (R(ob.bids[0].price), R(ob.asks[0].price))
  }

  /** `(bid + ask) / 2` in float64: NaN in, NaN out. */
  function HalfSum(bid: Fl, ask: Fl): (m: Fl)
    ensures m.R? <==> bid.R? && ask.R?
    ensures m.R? ==> m.r - bid.r == ask.r - m.r
  {
    Quotient(Add(bid, ask), R(2.0))
  }

  /** The mid `midPriceAt` answers of the snapshot it picks. */
  function MidAt(obts: seq<Books.OrderBookT>, fix: int): (m: Fl)
    requires Priceable(obts, fix)
  {
    match FirstAtOrAfter(obts, fix)
    case None => NaN
    case Some(ob) => R((ob.bids[0].price + ob.asks[0].price) / 2.0)
  }

  /** The index-advancing search both files share. */
  method Seek(obts: seq<Books.OrderBookT>, fix: int) returns (i: nat)
    ensures i == Books.LeadingBefore(obts, fix)
  {
    i := 0;
    while i < |obts| && obts[i].time < fix
      invariant i <= |obts|
      invariant forall k :: 0 <= k < i ==> obts[k].time < fix
    {
      i := i + 1;
    }
  }

  /** `priceAt` (rpc/risk.go and, with the same code, rpc/options.go). */
  method PriceAt(obts: seq<Books.OrderBookT>, fix: int) returns (bid: Fl, ask: Fl)
    requires Priceable(obts, fix)
    ensures (bid, ask) == Top(obts, fix)
  {
    var i := Seek(obts, fix);
    if i >= |obts| {
      return NaN, NaN;
    }
    bid := R(obts[i].ob.bids[0].price);
    ask := R(obts[i].ob.asks[0].price);
  }

  /** `midPriceAt` of rpc/options.go. */
  method MidPriceAt(obts: seq<Books.OrderBookT>, fix: int) returns (mid: Fl)
    requires Priceable(obts, fix)
    ensures mid == MidAt(obts, fix)
  {
    var i := Seek(obts, fix);
    if i >= |obts| {
      return NaN;
    }
    mid := R((obts[i].ob.bids[0].price + obts[i].ob.asks[0].price) / 2.0);
  }

  /** The mid of options.go's `midPriceAt` is the mid risk.go forms from
      `priceAt`. */
  lemma MidOfTop(obts: seq<Books.OrderBookT>, fix: int)
    requires Priceable(obts, fix)
    ensures MidAt(obts, fix) == HalfSum(Top(obts, fix).0, Top(obts, fix).1)
  {
    var f := FirstAtOrAfter(obts, fix);
    if f.Some? {
      var b, a := f.value.bids[0].price, f.value.asks[0].price;
      assert Quotient(R(b + a), R(2.0)) == R((b + a) / 2.0);
    }
  }

  /** On either side of a fixing time inside a series' span, the two
      selection rules pick neighbouring snapshots: `GetOrderBook` the
      last one strictly before, the lookups here the next one. */
  lemma NeighbouringRules(obts: seq<Books.OrderBookT>, fix: int)
    requires 0 < Books.LeadingBefore(obts, fix) < |obts|
    ensures var n := Books.LeadingBefore(obts, fix);
            Books.BookAt(obts, fix) == obts[n - 1].ob && FirstAtOrAfter(obts, fix) == Some(obts[n].ob) &&
            obts[n - 1].time < fix <= obts[n].time
  {
  }

  /** The window the reports fetch: a minute either side of `asof`. */
  function Window(asof: int): (w: (int, int))
    ensures w.1 - w.0 == 2 * Minute && asof - w.0 == Minute
  {
    (asof - Minute, asof + Minute)
  }

  /** `SpotPrice` of rpc/risk.go: the top bid and ask of the pair's
      book at `asof`, and their mid. */
  method SpotPrice(fetch: PairFetch, asof: int, p: Pair) returns (bid: Fl, ask: Fl, mid: Fl)
    requires Priceable(fetch(p, Window(asof).0, Window(asof).1), asof)
    ensures (bid, ask) == Top(fetch(p, Window(asof).0, Window(asof).1), asof)
    ensures mid == HalfSum(bid, ask)
  {
    var (st, en) := Window(asof);
    var spotobts := fetch(p, st, en);
    bid, ask := PriceAt(spotobts, asof);
    mid := Quotient(Add(bid, ask), R(2.0));
  }

  /** The series `ContractPrice` reads: the option books for an option,
      the future books otherwise, by the contract's name. */
  function ContractSeries(fetchFut: NameFetch, fetchOpt: NameFetch, asof: int, c: Contracts.Contract)
    : seq<Books.OrderBookT>
  {
    var (st, en) := Window(asof);
    if c.isOption then fetchOpt(Contracts.Name(c), st, en) else fetchFut(Contracts.Name(c), st, en)
  }

  /** `ContractPrice` of rpc/risk.go. */
  method ContractPrice(fetchFut: NameFetch, fetchOpt: NameFetch, asof: int, c: Contracts.Contract)
    returns (bid: Fl, ask: Fl, mid: Fl)
    requires Priceable(ContractSeries(fetchFut, fetchOpt, asof, c), asof)
    ensures c.isOption ==> (bid, ask) == Top(fetchOpt(Contracts.Name(c), asof - Minute, asof + Minute), asof)
    ensures !c.isOption ==> (bid, ask) == Top(fetchFut(Contracts.Name(c), asof - Minute, asof + Minute), asof)
    ensures mid == HalfSum(bid, ask)
  {
    var st, en := asof - Minute, asof + Minute;
    var obts;
    if c.isOption {
      obts := fetchOpt(Contracts.Name(c), st, en);
    } else {
      obts := fetchFut(Contracts.Name(c), st, en);
    }
    bid, ask := PriceAt(obts, asof);
    mid := Quotient(Add(bid, ask), R(2.0));
  }

  /** `SpotPrice` of rpc/options.go: only the mid. */
  method SpotMid(fetch: PairFetch, asof: int, p: Pair) returns (mid: Fl)
    requires Priceable(fetch(p, asof - Minute, asof + Minute), asof)
    ensures mid == MidAt(fetch(p, asof - Minute, asof + Minute), asof)
  {
    var spotobts := fetch(p, asof - Minute, asof + Minute);
    mid := MidPriceAt(spotobts, asof);
  }

  // ---------------------------------------------------------------------
  // The future of an option

  /** As written, `FutureOptionPrice` names the future by the first 11
      characters of the option's name; a shorter name panics. */
  function FutureNameAsWritten(c: Contracts.Contract): (n: string)
    requires |Contracts.Name(c)| >= 11
    ensures |n| == 11
  {
    Contracts.Name(c)[..11]
  }

  /** Corrected: the name of the option's underlying future. */
  function FutureName(c: Contracts.Contract): string
  {
    Contracts.Name(Contracts.UnderFuture(c))
  }

  /** A date of 2000-2099 renders in six characters for a one-digit
      day and seven for a two-digit one. */
  lemma DateTextLength(civ: Civil)
    requires ValidDate(civ.year, civ.month, civ.day) && 2000 <= civ.year <= 2099
    ensures |Contracts.DateText(civ)| == if civ.day < 10 then 6 else 7
  {
    Contracts.CenturyText(civ);
    Contracts.NatToStringShort(civ.day);
    Contracts.Pad2Value(civ.year - 2000);
  }

  /** The name of a future on BTC or ETH: the coin, a dash and the
      expiry's date. */
  lemma FutureNameText(c: Contracts.Contract)
    requires !c.isOption && !c.perp && c.name == "" && (c.underlying.coin == "BTC" || c.underlying.coin == "ETH")
    ensures Contracts.Name(c) == c.underlying.coin + "-" + Contracts.ExpiryText(c.expiry)
    ensures |Contracts.Name(c)| == 4 + |Contracts.ExpiryText(c.expiry)|
  {
    assert Contracts.NameParts(c) == [c.underlying.coin, Contracts.ExpiryText(c.expiry)];
    var parts := Contracts.NameParts(c);
    assert parts[1..] == [Contracts.ExpiryText(c.expiry)];
    assert Join(parts[1..], '-') == Contracts.ExpiryText(c.expiry);
    assert Contracts.Name(c) == Join(parts, '-') == parts[0] + ['-'] + Join(parts[1..], '-');
  }

  /** The length of a well-formed option's underlying future's name: the
      coin, a dash and a date whose day has one or two digits. */
  lemma FutureNameLength(c: Contracts.Contract)
    requires Contracts.WellFormed(c) && c.isOption
    ensures var d := DateOf(c.expiry).day;
            |FutureName(c)| == if d < 10 then 10 else 11
  {
    var civ := DateOf(c.expiry);
    DateTextLength(civ);
    FutureNameText(Contracts.UnderFuture(c));
  }

  /** As written, the 11-character prefix is the future's name only for a
      two-digit day; for a one-digit day ("BTC-5JAN25-50000-C") it keeps
      the trailing dash ("BTC-5JAN25-"). */
  lemma PrefixMisnamesShortDays(c: Contracts.Contract)
    requires Contracts.WellFormed(c) && c.isOption
    ensures |Contracts.Name(c)| >= 11
    ensures DateOf(c.expiry).day >= 10 ==> FutureNameAsWritten(c) == FutureName(c)
    ensures DateOf(c.expiry).day < 10 ==> FutureNameAsWritten(c) == FutureName(c) + "-"
  {
    Contracts.UnderFutureName(c);
    FutureNameLength(c);
    var p := Contracts.NameParts(c);
    assert Contracts.Name(c) == FutureName(c) + "-" + p[2] + "-" + p[3];
    assert Contracts.Name(c)[..|FutureName(c)| + 1] == FutureName(c) + "-";
  }

  /** Corrected, the name is that of a well-formed future which parses
      back as the option's underlying, and the option's name extends it
      by a dash, the strike, a dash and the right. */
  lemma FutureNameParses(c: Contracts.Contract, today: int)
    requires Contracts.WellFormed(c) && c.isOption
    ensures Contracts.Parse(FutureName(c), today) == Ok(Contracts.UnderFuture(c))
    ensures var p := Contracts.NameParts(c);
            Contracts.Name(c) == FutureName(c) + "-" + p[2] + "-" + p[3]
  {
    Contracts.UnderFutureName(c);
    Contracts.NameRoundTrip(Contracts.UnderFuture(c), today);
  }

  /** `FutureOptionPrice`, with the corrected future name: the future's
      mid and the option's bid and ask at `asof`. */
  method FutureOptionPrice(fetchFut: NameFetch, fetchOpt: NameFetch, asof: int, c: Contracts.Contract)
    returns (futMid: Fl, optionBid: Fl, optionAsk: Fl)
    requires Priceable(fetchFut(FutureName(c), asof - Minute, asof + Minute), asof)
    requires Priceable(fetchOpt(Contracts.Name(c), asof - Minute, asof + Minute), asof)
    ensures futMid == MidAt(fetchFut(FutureName(c), asof - Minute, asof + Minute), asof)
    ensures (optionBid, optionAsk) == Top(fetchOpt(Contracts.Name(c), asof - Minute, asof + Minute), asof)
  {
    var st, en := asof - Minute, asof + Minute;
    var futContract := Contracts.Name(Contracts.UnderFuture(c));
    var futobts := fetchFut(futContract, st, en);
    var optobts := fetchOpt(Contracts.Name(c), st, en);
    futMid := MidPriceAt(futobts, asof);
    optionBid, optionAsk := PriceAt(optobts, asof);
  }
}
