/**
 * Derivative contracts of contract.go, named `{COIN}-PERPETUAL`,
 * `{COIN}-{DATE}` (a dated future) or `{COIN}-{DATE}-{STRIKE}-{C|P}` (an
 * option), with `DATE` written `D` or `DD`, a month code and a two-digit
 * year (`2FEB20`, `22MAR21`). The parser, the canonical rendering, the
 * name cache, the contract relations and the position helpers.
 *
 * Instants are nanoseconds since the Unix epoch in UTC. The clock reading
 * that a perpetual takes as its expiry is the parameter `today`.
 */
module Contracts {
  import opened Wrappers
  import opened Num
  import opened Text
  import opened Chrono
  import opened Coins
  import opened Pairs
  import opened Sorting

  /** `CallOrPut`; `Blank` is the empty string a perpetual is left with. */
  datatype CallOrPut = Call | Put | NA | Blank

  /** `Contract`. `name` is the memo that `Name` fills in; "" is unset. */
  datatype Contract = Contract(
    name: string,
    isOption: bool,
    underlying: Pair,
    expiry: int,
    delivery: int,
    strike: real,
    callPut: CallOrPut,
    perp: bool)

  /** The error cases of `ContractFromName`, one per `errors.New` site
      (a failed strike conversion is `BadStrike`). */
  datatype ContractError =
    | BadFormation       // fewer than two dash-separated parts
    | UnknownCoin        // the first part is neither BTC nor ETH
    | BadDate            // `strToExpiry` failed
    | BadStrike          // the strike is not an integer
    | NeedCallOrPut      // the last part is neither C nor P
    | NotGoodFormation   // three, or five or more, parts

  /** Go's zero `time.Time` (year 1), the delivery of a perpetual. */
  const ZeroTime: int := -ZeroToUnix

  // ---------------------------------------------------------------------
  // Dates

  function MonthCode(m: int): (code: string)
    requires 1 <= m <= 12
    ensures |code| == 3
  {
    ["JAN", "FEB", "MAR", "APR", "MAY", "JUN", "JUL", "AUG", "SEP", "OCT", "NOV", "DEC"][m - 1]
  }

  /** The month of an upper-case three-letter code. */
  function MonthOf(code: string): (m: Option<int>)
    ensures m.Some? ==> 1 <= m.value <= 12 && MonthCode(m.value) == code
    ensures forall k :: 1 <= k <= 12 && MonthCode(k) == code ==> m == Some(k)
  {
    if code == "JAN" then Some(1) else if code == "FEB" then Some(2)
    else if code == "MAR" then Some(3) else if code == "APR" then Some(4)
    else if code == "MAY" then Some(5) else if code == "JUN" then Some(6)
    else if code == "JUL" then Some(7) else if code == "AUG" then Some(8)
    else if code == "SEP" then Some(9) else if code == "OCT" then Some(10)
    else if code == "NOV" then Some(11) else if code == "DEC" then Some(12)
    else None
  }

  /** `strToExpiry`: a 6-character `DMMMYY` or 7-character `DDMMMYY` date
      at 08:00 UTC of year 2000 + YY. Day and year go through `Atoi`, so a
      sign is accepted and the day is not range-checked: `time.Date`
      carries a day outside the month into a neighbouring month. */
  function StrToExpiry(s: string): (t: Option<int>)
    ensures t.Some? ==> |s| == 6 || |s| == 7
    ensures t.Some? ==> TimeOfDay(t.value) == 8 * Hour
  {
    if |s| != 6 && |s| != 7 then None
    else
      var d := if |s| == 6 then 1 else 2;
      var day := Atoi(s[..d]);
      var year := Atoi(s[d + 3..]);
      var month := MonthOf(s[d..d + 3]);
      if day.None? || year.None? || month.None? then None
      else
        var t := DaysFromCivil(year.value + 2000, month.value, day.value) * Day + 8 * Hour;
        TimeOfDayShift(DaysFromCivil(year.value + 2000, month.value, day.value), 8 * Hour);
        Some(t)
  }

  lemma TimeOfDayShift(z: int, r: int)
    requires 0 <= r < Day
    ensures TimeOfDay(z * Day + r) == r && DayOf(z * Day + r) == z
  {
    var t := z * Day + r;
    assert t / Day == z;
  }

  /** A non-negative `n` with two digits, zero-padded (Go's width-2
      `appendInt`). */
  function Pad2(n: nat): (s: string)
  {
    if n < 10 then "0" + NatToString(n) else NatToString(n)
  }

  /** `%.0f`: the value rounded half to even; a negative value keeps its
      sign even when it rounds to zero. */
  function FormatStrike(x: real): (s: string)
  {
    if x < 0.0 then "-" + NatToString(-RoundHalfEven(x)) else NatToString(RoundHalfEven(x))
  }

  /** Upper-cased `Format("2Jan06")`: the unpadded day, the month code and
      the year modulo 100 in two digits. */
  function DateText(c: Civil): string
    requires 1 <= c.month <= 12
  {
    var yy := Rem(c.year, 100);
    IntToString(c.day) + MonthCode(c.month) + (if yy < 0 then "-" + Pad2(-yy) else Pad2(yy))
  }

  function ExpiryText(t: int): string
  {
    DateText(DateOf(t))
  }

  // ---------------------------------------------------------------------
  // Names

  /** The dash-separated parts of a contract's canonical name. A non-Call
      option renders as a put. */
  function NameParts(c: Contract): (parts: seq<string>)
    ensures |parts| >= 2
  {
    var coin := c.underlying.coin;
    if c.isOption then
      [coin, ExpiryText(c.expiry), FormatStrike(c.strike), if c.callPut == Call then "C" else "P"]
    else if c.perp then [coin, "PERPETUAL"]
    else [coin, ExpiryText(c.expiry)]
  }

  /** The name `Name` renders when the memo is unset. */
  function Render(c: Contract): string
  {
    Join(NameParts(c), '-')
  }

  /** The memo holds nothing, or the rendered name. */
  predicate MemoOk(c: Contract)
  {
    c.name == "" || c.name == Render(c)
  }

  /** `Name`: the memo when set, else the rendering. */
  function Name(c: Contract): (n: string)
    ensures MemoOk(c) ==> n == Render(c)
  {
    if c.name == "" then Render(c) else c.name
  }

  /** `PerpContract`: a perpetual expiring `today` with a zero delivery. */
  function PerpContract(p: Pair, today: int): (c: Contract)
    ensures c.perp && !c.isOption && c.underlying == p && c.expiry == today
  {
    Contract("", false, p, today, ZeroTime, 0.0, Blank, true)
  }

  /** The parse of `ContractFromName`, without the cache. */
  function Parse(name: string, today: int): (r: Result<Contract, ContractError>)
    ensures r.Ok? ==> r.value.name == "" && r.value.underlying.base == USD
    ensures r.Ok? ==> r.value.underlying.coin == BTC || r.value.underlying.coin == ETH
    ensures r.Ok? && r.value.isOption ==> r.value.callPut == Call || r.value.callPut == Put
    ensures r.Ok? && !r.value.perp ==> r.value.delivery == r.value.expiry
    ensures r.Ok? && r.value.perp ==> r.value.expiry == today
  {
    var st := Split(name, '-');
    if |st| < 2 then Err(BadFormation)
    else if st[0] != BTC && st[0] != ETH then Err(UnknownCoin)
    else
      var underlying := Pair(st[0], USD);
      if |st| == 2 then
        if st[1] == "PERPETUAL" then Ok(PerpContract(underlying, today))
        else
          match StrToExpiry(st[1])
          case None => Err(BadDate)
          case Some(e) => Ok(Contract("", false, underlying, e, e, 0.0, NA, false))
      else if |st| == 4 then
        match StrToExpiry(st[1])
        case None => Err(BadDate)
        case Some(e) =>
          match Atoi(st[2])
          case None => Err(BadStrike)
          case Some(k) =>
            if st[3] == "C" then Ok(Contract("", true, underlying, e, e, k as real, Call, false))
            else if st[3] == "P" then Ok(Contract("", true, underlying, e, e, k as real, Put, false))
            else Err(NeedCallOrPut)
      else Err(NotGoodFormation)
  }

  /** A perpetual's expiry is the clock reading; the parse of any other
      name does not look at the clock. */
  lemma ParseToday(name: string, today: int, today2: int)
    ensures Parse(name, today).Ok? && !Parse(name, today).value.perp ==>
      Parse(name, today2) == Parse(name, today)
    ensures Parse(name, today).Ok? ==>
      Parse(name, Parse(name, today).value.expiry) == Parse(name, today)
    ensures Parse(name, today).Err? ==> Parse(name, today2) == Parse(name, today)
  {
  }

  /** The parse of `ContractFromName` by the number of parts: fewer than
      two, three, or five and more never parse; two parts give a
      perpetual or a future; four give an option. */
  lemma ParseShape(name: string, today: int)
    ensures |Split(name, '-')| < 2 ==> Parse(name, today) == Err(BadFormation)
    ensures |Split(name, '-')| >= 2 && Split(name, '-')[0] !in {BTC, ETH} ==> Parse(name, today) == Err(UnknownCoin)
    ensures |Split(name, '-')| !in {2, 4} ==> Parse(name, today).Err?
    ensures Parse(name, today).Ok? && |Split(name, '-')| == 2 ==> !Parse(name, today).value.isOption
    ensures Parse(name, today).Ok? && |Split(name, '-')| == 4 ==> Parse(name, today).value.isOption
    ensures Parse(name, today).Ok? && Parse(name, today).value.perp <==>
      |Split(name, '-')| == 2 && Split(name, '-')[0] in {BTC, ETH} && Split(name, '-')[1] == "PERPETUAL"
  {
    var st := Split(name, '-');
    var r := Parse(name, today);
    if |st| >= 2 && (st[0] == BTC || st[0] == ETH) {
      if |st| == 2 {
        assert r.Ok? ==> !r.value.isOption;
        assert r.Ok? && r.value.perp <==> st[1] == "PERPETUAL";
      } else if |st| == 4 {
        assert r.Ok? ==> r.value.isOption && !r.value.perp;
      } else {
        assert r == Err(NotGoodFormation);
      }
    }
  }

  // ---------------------------------------------------------------------
  // The round trip

  /** The contracts whose canonical name parses back to themselves: a
      BTC or ETH contract against USD, expiring at 08:00 UTC in 2000-2099,
      delivered at expiry, with an unset memo; an option has a whole
      non-negative strike and is a call or a put, a future has strike 0
      and `NA`. */
  predicate WellFormed(c: Contract)
  {
    c.name == "" && !c.perp &&
    (c.underlying == Pair(BTC, USD) || c.underlying == Pair(ETH, USD)) &&
    TimeOfDay(c.expiry) == 8 * Hour && 2000 <= DateOf(c.expiry).year <= 2099 &&
    c.delivery == c.expiry &&
    if c.isOption then
      (c.callPut == Call || c.callPut == Put) &&
      c.strike >= 0.0 && c.strike == c.strike.Floor as real && IsInt64(c.strike.Floor)
    else c.strike == 0.0 && c.callPut == NA
  }

  lemma NatToStringShort(n: nat)
    requires n < 100
    ensures n < 10 ==> |NatToString(n)| == 1
    ensures n >= 10 ==> |NatToString(n)| == 2
    ensures Atoi(NatToString(n)) == Some(n)
  {
    AtoiIntToString(n);
  }

  lemma Pad2Value(n: nat)
    requires n < 100
    ensures |Pad2(n)| == 2 && AllDigits(Pad2(n))
    ensures Atoi(Pad2(n)) == Some(n)
  {
    NatToStringShort(n);
    if n < 10 {
      var s := Pad2(n);
      assert s == ['0', DigitChar(n)];
      assert s[..1] == "0";
      assert DigitsValue(s[..1]) == 0;
      DigitRoundTrip(n);
    }
  }

  lemma DigitsNoDash(s: string)
    requires AllDigits(s)
    ensures '-' !in s
  {
  }

  lemma MonthCodeOk(m: int)
    requires 1 <= m <= 12
    ensures '-' !in MonthCode(m) && MonthOf(MonthCode(m)) == Some(m)
  {
  }

  lemma CenturyYear(y: int)
    requires 2000 <= y <= 2099
    ensures Rem(y, 100) == y - 2000
  {
  }

  /** The three fields of a date text, read back by `StrToExpiry`. */
  lemma DateFields(ds: string, mc: string, ys: string, day: int, month: int, year: int)
    requires (|ds| == 1 || |ds| == 2) && |mc| == 3 && |ys| == 2
    requires Atoi(ds) == Some(day) && MonthOf(mc) == Some(month) && Atoi(ys) == Some(year)
    ensures StrToExpiry(ds + mc + ys) == Some(DaysFromCivil(year + 2000, month, day) * Day + 8 * Hour)
  {
    var s := ds + mc + ys;
    var d := |ds|;
    assert s[..d] == ds && s[d..d + 3] == mc && s[d + 3..] == ys;
    assert d == if |s| == 6 then 1 else 2;
    ExpiryFields(s, day, month, year);
  }

  /** `StrToExpiry` of a text whose fields read back. */
  lemma ExpiryFields(s: string, day: int, month: int, year: int)
    requires |s| == 6 || |s| == 7
    requires var d := if |s| == 6 then 1 else 2;
      Atoi(s[..d]) == Some(day) && MonthOf(s[d..d + 3]) == Some(month) && Atoi(s[d + 3..]) == Some(year)
    ensures StrToExpiry(s) == Some(DaysFromCivil(year + 2000, month, day) * Day + 8 * Hour)
  {
  }

  /** In 2000-2099 the year renders as its last two digits, zero padded. */
  lemma CenturyText(c: Civil)
    requires 1 <= c.month <= 12 && 2000 <= c.year <= 2099
    ensures DateText(c) == IntToString(c.day) + MonthCode(c.month) + Pad2(c.year - 2000)
  {
    CenturyYear(c.year);
  }

  /** A valid date of 2000-2099 reads back from its text. */
  lemma DateTextRoundTrip(c: Civil)
    requires ValidDate(c.year, c.month, c.day) && 2000 <= c.year <= 2099
    ensures StrToExpiry(DateText(c)) == Some(DaysFromCivil(c.year, c.month, c.day) * Day + 8 * Hour)
    ensures '-' !in DateText(c)
  {
    var yy := c.year - 2000;
    var ds, mc, ys := IntToString(c.day), MonthCode(c.month), Pad2(yy);
    CenturyText(c);
    DayText(c.day);
    YearText(yy);
    MonthCodeOk(c.month);
    DateFields(ds, mc, ys, c.day, c.month, yy);
    assert '-' !in ds + mc + ys;
  }

  /** A day of the month renders as one or two digits that read back. */
  lemma DayText(d: int)
    requires 0 <= d < 100
    ensures var s := IntToString(d); (|s| == 1 || |s| == 2) && Atoi(s) == Some(d) && '-' !in s
  {
    NatToStringShort(d);
    DigitsNoDash(NatToString(d));
  }

  /** A two-digit year renders as two digits that read back. */
  lemma YearText(yy: int)
    requires 0 <= yy < 100
    ensures |Pad2(yy)| == 2 && Atoi(Pad2(yy)) == Some(yy) && '-' !in Pad2(yy)
  {
    Pad2Value(yy);
    DigitsNoDash(Pad2(yy));
  }

  /** The date text of an expiry in 2000-2099 at 08:00 UTC reads back as
      that expiry. */
  lemma ExpiryRoundTrip(t: int)
    requires TimeOfDay(t) == 8 * Hour && 2000 <= DateOf(t).year <= 2099
    ensures StrToExpiry(ExpiryText(t)) == Some(t)
    ensures '-' !in ExpiryText(t)
  {
    var c := DateOf(t);
    DateTextRoundTrip(c);
    assert DaysFromCivil(c.year, c.month, c.day) * Day + 8 * Hour == t;
  }

  lemma StrikeRoundTrip(x: real)
    requires x >= 0.0 && x == x.Floor as real && IsInt64(x.Floor)
    ensures Atoi(FormatStrike(x)) == Some(x.Floor)
    ensures '-' !in FormatStrike(x)
  {
    assert RoundHalfEven(x) == x.Floor;
    AtoiIntToString(x.Floor);
  }

  /** Round trip: the canonical name of a well-formed contract parses back
      to the contract itself. */
  lemma NameRoundTrip(c: Contract, today: int)
    requires WellFormed(c)
    ensures Parse(Name(c), today) == Ok(c)
  {
    var parts := NameParts(c);
    ExpiryRoundTrip(c.expiry);
    if c.isOption {
      StrikeRoundTrip(c.strike);
    }
    NamePartsFree(c);
    SplitJoin(parts, '-');
    assert Split(Name(c), '-') == parts;
    if c.isOption {
      assert parts[3] == (if c.callPut == Call then "C" else "P");
    } else {
      assert ExpiryText(c.expiry) != "PERPETUAL" by {
        assert StrToExpiry(ExpiryText(c.expiry)).Some?;
      }
    }
  }

  /** No part of a well-formed contract's name holds the separator. */
  lemma NamePartsFree(c: Contract)
    requires WellFormed(c)
    ensures forall k :: 0 <= k < |NameParts(c)| ==> '-' !in NameParts(c)[k]
  {
    var coin := c.underlying.coin;
    assert '-' !in coin by {
      assert coin == BTC || coin == ETH;
    }
    ExpiryRoundTrip(c.expiry);
    if c.isOption {
      StrikeRoundTrip(c.strike);
      var cp := if c.callPut == Call then "C" else "P";
      assert '-' !in cp;
      var parts := [coin, ExpiryText(c.expiry), FormatStrike(c.strike), cp];
      assert NameParts(c) == parts;
      forall k | 0 <= k < 4
        ensures '-' !in parts[k]
      {
        if k == 0 {} else if k == 1 {} else if k == 2 {} else {}
      }
    } else {
      var parts := [coin, ExpiryText(c.expiry)];
      assert NameParts(c) == parts;
      forall k | 0 <= k < 2
        ensures '-' !in parts[k]
      {
        if k == 0 {} else {}
      }
    }
  }

  /** A perpetual's name parses back to a perpetual on the same market,
      expiring on the new clock reading. */
  lemma PerpRoundTrip(p: Pair, t: int, today: int)
    requires p == Pair(BTC, USD) || p == Pair(ETH, USD)
    ensures Parse(Name(PerpContract(p, t)), today) == Ok(PerpContract(p, today))
  {
    SplitJoin(NameParts(PerpContract(p, t)), '-');
  }

  // ---------------------------------------------------------------------
  // Relations and derived contracts

  /** `Equal` as written: for non-options it asks for equal perpetual
      flags OR equal expiries, so that any two dated futures on one market
      compare equal. */
  predicate Equal(c1: Contract, c2: Contract)
  {
    if c1.isOption then
      c2.isOption && c1.callPut == c2.callPut && c1.expiry == c2.expiry &&
      c1.delivery == c2.delivery && c1.strike == c2.strike && c1.underlying == c2.underlying
    else
      !c2.isOption && c1.underlying == c2.underlying &&
      (c1.perp == c2.perp || c1.expiry == c2.expiry)
  }

  /** Two futures on one market with different expiries are `Equal`. */
  lemma EqualFuturesCollide(p: Pair, e1: int, e2: int)
    ensures Equal(Contract("", false, p, e1, e1, 0.0, NA, false), Contract("", false, p, e2, e2, 0.0, NA, false))
  {
  }

  /** The relation `Equal` evidently means: options as written; two
      non-options are the same when both are perpetuals on the market, or
      both are futures with the same expiry. */
  predicate SameContract(c1: Contract, c2: Contract)
  {
    if c1.isOption then Equal(c1, c2)
    else
      !c2.isOption && c1.underlying == c2.underlying && c1.perp == c2.perp &&
      (c1.perp || c1.expiry == c2.expiry)
  }

  /** `SameContract` is an equivalence that tells futures apart by expiry,
      is implied by equality of the fields it compares, and implies the
      source's `Equal`. */
  lemma SameContractLaws(c1: Contract, c2: Contract, c3: Contract)
    ensures SameContract(c1, c1)
    ensures SameContract(c1, c2) ==> SameContract(c2, c1)
    ensures SameContract(c1, c2) && SameContract(c2, c3) ==> SameContract(c1, c3)
    ensures SameContract(c1, c2) ==> Equal(c1, c2)
    ensures !c1.isOption && !c2.isOption && !c1.perp && !c2.perp && c1.expiry != c2.expiry ==>
      !SameContract(c1, c2)
  {
  }

  /** The round trip holds up to `SameContract` for every well-formed
      contract and every perpetual. */
  lemma ParseNameSame(c: Contract, today: int)
    requires WellFormed(c) || (c.perp && !c.isOption && c.name == "" &&
                               (c.underlying == Pair(BTC, USD) || c.underlying == Pair(ETH, USD)))
    ensures Parse(Name(c), today).Ok? && SameContract(Parse(Name(c), today).value, c)
  {
    if WellFormed(c) {
      NameRoundTrip(c, today);
    } else {
      PerpRoundTrip(c.underlying, c.expiry, today);
    }
  }

  /** `UnderFuture`: an option's underlying future (strike 0, `NA`, unset
      memo); a non-option is returned as it is. */
  function UnderFuture(c: Contract): (f: Contract)
    ensures !f.isOption
    ensures f.underlying == c.underlying && f.expiry == c.expiry && f.delivery == c.delivery
    ensures !c.isOption ==> f == c
    ensures c.isOption ==> f.strike == 0.0 && f.callPut == NA && !f.perp && f.name == ""
  {
    if c.isOption then Contract("", false, c.underlying, c.expiry, c.delivery, 0.0, NA, false)
    else c
  }

  /** The underlying future of a well-formed option is well formed, and its
      name is the option's name up to the expiry. */
  lemma UnderFutureName(c: Contract)
    requires WellFormed(c) && c.isOption
    ensures WellFormed(UnderFuture(c)) && UnderFuture(UnderFuture(c)) == UnderFuture(c)
    ensures Name(c) == Name(UnderFuture(c)) + "-" + NameParts(c)[2] + "-" + NameParts(c)[3]
  {
    var p := NameParts(c);
    var f := UnderFuture(c);
    assert NameParts(f) == [p[0], p[1]];
    JoinFour(p[0], p[1], p[2], p[3], '-');
    assert Join([p[0], p[1]], '-') == p[0] + "-" + p[1] by {
      assert [p[0], p[1]][1..] == [p[1]];
    }
  }

  lemma JoinFour(a: string, b: string, c: string, d: string, sep: char)
    ensures Join([a, b, c, d], sep) == a + [sep] + b + [sep] + c + [sep] + d
  {
    assert [c, d][1..] == [d];
    assert Join([c, d], sep) == c + [sep] + d;
    assert [b, c, d][1..] == [c, d];
    assert Join([b, c, d], sep) == b + [sep] + (c + [sep] + d);
    assert [a, b, c, d][1..] == [b, c, d];
    assert Join([a, b, c, d], sep) == a + [sep] + (b + [sep] + (c + [sep] + d));
  }

  /** `CallPutMirror`: a copy with `Call` turned into `Put` and anything
      else into `Call`, and the memo cleared. */
  function CallPutMirror(c: Contract): (m: Contract)
    ensures m.callPut == (if c.callPut == Call then Put else Call)
    ensures m.name == "" && m == c.(callPut := m.callPut, name := "")
  {
    c.(callPut := if c.callPut == Call then Put else Call, name := "")
  }

  /** Mirroring twice gives back a call or a put; it keeps a well-formed
      option well formed; and it changes an option's name, which is why
      the memo must be cleared. */
  lemma MirrorLaws(c: Contract)
    ensures c.callPut == Call || c.callPut == Put ==>
      CallPutMirror(CallPutMirror(c)) == c.(name := "")
    ensures MemoOk(CallPutMirror(c))
    ensures WellFormed(c) && c.isOption ==> WellFormed(CallPutMirror(c))
    ensures c.isOption ==> Name(CallPutMirror(c)) != Render(c)
  {
    if c.isOption {
      MirrorRenames(c);
    }
  }

  lemma MirrorRenames(c: Contract)
    requires c.isOption
    ensures Render(CallPutMirror(c)) != Render(c)
  {
    var m := CallPutMirror(c);
    var p := NameParts(c);
    var q := NameParts(m);
    JoinFour(p[0], p[1], p[2], p[3], '-');
    JoinFour(q[0], q[1], q[2], q[3], '-');
    var x := Render(c);
    var y := Render(m);
    assert |x| == |y|;
    assert x[|x| - 1] == p[3][0] && y[|y| - 1] == q[3][0];
  }

  // ---------------------------------------------------------------------
  // Day counts

  /** Midnight UTC of the day of `t`, through its civil date. */
  function Midnight(t: int): int
  {
    var c := DateOf(t);
    DaysFromCivil(c.year, c.month, c.day) * Day
  }

  /** `DayDiff`: whole days between the two dates, time of day dropped
      (`time.Date` at midnight, `Sub`, `Truncate(time.Hour)`, hours / 24,
      `math.Round`). */
  function DayDiff(t1: int, t2: int): int
  {
    RoundHalfAway(Hours(TruncateDuration(SubTime(Midnight(t2), Midnight(t1)), Hour)) / 24.0)
  }

  lemma WholeDays(n: int)
    ensures Rem(n * Day, Hour) == 0
    ensures Hours(n * Day) / 24.0 == n as real
  {
    assert n * Day == (24 * n) * Hour;
    if n * Day >= 0 {
      assert Rem(n * Day, Hour) == ((24 * n) * Hour) % Hour;
    } else {
      assert Rem(n * Day, Hour) == -(((-24 * n) * Hour) % Hour);
    }
  }

  lemma MidnightIs(t: int)
    ensures Midnight(t) == DayOf(t) * Day
  {
  }

  lemma SpanDays(n: int)
    requires IsInt64(n * Day)
    ensures RoundHalfAway(Hours(TruncateDuration(Saturate(n * Day), Hour)) / 24.0) == n
  {
    WholeDays(n);
    assert Saturate(n * Day) == n * Day;
    assert TruncateDuration(n * Day, Hour) == n * Day;
  }

  /** One direction of `DayDiffSpec`. */
  lemma DayDiffOf(t1: int, t2: int)
    requires IsInt64((DayOf(t2) - DayOf(t1)) * Day)
    ensures DayDiff(t1, t2) == DayOf(t2) - DayOf(t1)
  {
    var n := DayOf(t2) - DayOf(t1);
    MidnightIs(t1);
    MidnightIs(t2);
    DaysApart(DayOf(t2), DayOf(t1));
    assert SubTime(Midnight(t2), Midnight(t1)) == Saturate(n * Day);
    SpanDays(n);
  }

  lemma DaysApart(a: int, b: int)
    ensures a * Day - b * Day == (a - b) * Day
  {
  }

  /** The day count is the difference of the day numbers, whenever the
      span fits an int64 duration (about 292 years either way). */
  lemma DayDiffSpec(t1: int, t2: int)
    requires IsInt64((DayOf(t2) - DayOf(t1)) * Day) && IsInt64((DayOf(t1) - DayOf(t2)) * Day)
    ensures DayDiff(t1, t2) == DayOf(t2) - DayOf(t1)
    ensures DayDiff(t1, t2) == -DayDiff(t2, t1)
  {
    DayDiffOf(t1, t2);
    DayDiffOf(t2, t1);
  }

  /** `ExpiryDays`: days from `now` to the contract's expiry. */
  function ExpiryDays(c: Contract, now: int): (d: int)
    ensures IsInt64((DayOf(c.expiry) - DayOf(now)) * Day) && IsInt64((DayOf(now) - DayOf(c.expiry)) * Day) ==>
      d == DayOf(c.expiry) - DayOf(now)
  {
    if IsInt64((DayOf(c.expiry) - DayOf(now)) * Day) && IsInt64((DayOf(now) - DayOf(c.expiry)) * Day) then
      DayDiffSpec(now, c.expiry);
      DayDiff(now, c.expiry)
    else DayDiff(now, c.expiry)
  }

  // ---------------------------------------------------------------------
  // The cache

  /** The process-wide `contractCache`, as an object. */
  class ContractCache {
    var entries: map<string, Contract>

    /** Every cached contract is what its name parses to (a perpetual on
        the day it was cached). */
    predicate Coherent()
      reads this
    {
      forall n :: n in entries ==> Parse(n, entries[n].expiry) == Ok(entries[n])
    }

    constructor ()
      ensures entries == map[] && Coherent()
    {
      entries := map[];
    }

    /** `ContractFromName`: a cached name returns the cached contract
        without parsing; otherwise the name is parsed and only a success is
        cached. */
    method ContractFromName(name: string, today: int) returns (r: Result<Contract, ContractError>)
      modifies this
      ensures name in old(entries) ==> r == Ok(old(entries)[name]) && entries == old(entries)
      ensures name !in old(entries) ==> r == Parse(name, today)
      ensures name !in old(entries) ==> entries == if r.Ok? then old(entries)[name := r.value] else old(entries)
      ensures old(Coherent()) ==> Coherent()
      ensures old(Coherent()) && r.Ok? ==> Parse(name, r.value.expiry) == r
      ensures old(Coherent()) && r.Err? ==> Parse(name, today) == r
    {
      if name in entries {
        return Ok(entries[name]);
      }
      r := Parse(name, today);
      ParseToday(name, today, today);
      if r.Ok? {
        entries := entries[name := r.value];
      }
    }
  }

  // ---------------------------------------------------------------------
  // Positions

  datatype Position = Position(con: Contract, qty: real, price: real)

  /** The quantity and price a position takes at index `i`. */
  predicate PricedAt(p: Position, i: nat, quantities: Option<seq<real>>, prices: Option<seq<real>>)
  {
    if quantities.None? || prices.None? then p.qty == 0.0 && p.price == 0.0
    else (i < |quantities.value| && i < |prices.value| &&
      p.qty == quantities.value[i] && p.price == prices.value[i])
  }

  /** A position's contract is what the name parses to. */
  predicate NamedBy(p: Position, name: string)
  {
    Parse(name, p.con.expiry) == Ok(p.con)
  }

  /** One step of `PositionsFromNames`: the contract of `name` through
      the cache, with the quantity and price at index `i`. */
  method PositionAt(cache: ContractCache, name: string, i: nat, quantities: Option<seq<real>>,
                    prices: Option<seq<real>>, today: int)
    returns (r: Result<Position, ContractError>)
    requires quantities.Some? && prices.Some? ==> i < |quantities.value| && i < |prices.value|
    requires cache.Coherent()
    modifies cache
    ensures cache.Coherent()
    ensures r.Ok? ==> NamedBy(r.value, name) && PricedAt(r.value, i, quantities, prices)
    ensures r.Err? ==> Parse(name, today) == Err(r.error)
  {
    var c := cache.ContractFromName(name, today);
    if c.Err? {
      return Err(c.error);
    }
    var p := if quantities.None? || prices.None? then Position(c.value, 0.0, 0.0)
             else Position(c.value, quantities.value[i], prices.value[i]);
    return Ok(p);
  }

  /** `PositionsFromNames`: one position per name, through the cache,
      stopping at the first name that does not parse (the positions so far
      are returned with the error). Quantity and price are 0 when either
      slice is nil (`None`). */
  method PositionsFromNames(cache: ContractCache, names: seq<string>, quantities: Option<seq<real>>,
                            prices: Option<seq<real>>, today: int)
    returns (posns: seq<Position>, err: Option<ContractError>)
    requires quantities.Some? && prices.Some? ==> |quantities.value| >= |names| && |prices.value| >= |names|
    requires cache.Coherent()
    modifies cache
    ensures cache.Coherent()
    ensures err.None? ==> |posns| == |names|
    ensures err.Some? ==> |posns| < |names| && Parse(names[|posns|], today) == Err(err.value)
    ensures forall i :: 0 <= i < |posns| ==> NamedBy(posns[i], names[i])
    ensures forall i :: 0 <= i < |posns| ==> PricedAt(posns[i], i, quantities, prices)
  {
    posns := [];
    err := None;
    var i := 0;
    while i < |names|
      invariant 0 <= i <= |names| && |posns| == i && cache.Coherent()
      invariant forall k :: 0 <= k < i ==> NamedBy(posns[k], names[k]) && PricedAt(posns[k], k, quantities, prices)
    {
      var p := PositionAt(cache, names[i], i, quantities, prices, today);
      if p.Err? {
        err := Some(p.error);
        return;
      }
      PositionsSnoc(posns, p.value, names, quantities, prices);
      posns := posns + [p.value];
      i := i + 1;
    }
  }

  /** One more position of the loop of `PositionsFromNames`. */
  lemma PositionsSnoc(posns: seq<Position>, p: Position, names: seq<string>,
                      quantities: Option<seq<real>>, prices: Option<seq<real>>)
    requires |posns| < |names|
    requires forall k :: 0 <= k < |posns| ==> NamedBy(posns[k], names[k]) && PricedAt(posns[k], k, quantities, prices)
    requires NamedBy(p, names[|posns|]) && PricedAt(p, |posns|, quantities, prices)
    ensures forall k :: 0 <= k < |posns| + 1 ==>
      NamedBy((posns + [p])[k], names[k]) && PricedAt((posns + [p])[k], k, quantities, prices)
  {
  }

  /** The comparator of `Positions.Sort` as written: earlier delivery
      first, then "futures first", then by strike. A future compares
      before every position of its delivery, itself included. */
  predicate PositionBefore(x: Position, y: Position)
  {
    if x.con.delivery < y.con.delivery then true
    else if x.con.delivery > y.con.delivery then false
    else if !x.con.isOption then true
    else if !y.con.isOption then false
    else x.con.strike < y.con.strike
  }

  /** The order evidently intended: by delivery, then futures before
      options, then by strike; futures of one delivery are tied. */
  predicate PositionBeforeFixed(x: Position, y: Position)
  {
    x.con.delivery < y.con.delivery ||
    (x.con.delivery == y.con.delivery &&
     ((!x.con.isOption && y.con.isOption) ||
      (x.con.isOption && y.con.isOption && x.con.strike < y.con.strike)))
  }

  /** As written the comparator is not a strict weak order as `sort.Slice`
      requires: a future is `less` than itself, and two futures of one
      delivery are each `less` than the other, so no arrangement of them is
      ordered. */
  lemma PositionBeforeReflexive(f: Position, g: Position)
    requires !f.con.isOption && !g.con.isOption && f.con.delivery == g.con.delivery
    ensures PositionBefore(f, f)
    ensures PositionBefore(f, g) && PositionBefore(g, f)
    ensures !SortedBy([f, g], PositionBefore) && !SortedBy([g, f], PositionBefore)
  {
    assert [f, g][1] == g && [f, g][0] == f;
    assert [g, f][1] == f && [g, f][0] == g;
  }

  /** The two comparators agree except between two futures of one
      delivery. */
  lemma ComparatorsAgree(x: Position, y: Position)
    ensures x.con.isOption || y.con.isOption || x.con.delivery != y.con.delivery ==>
      PositionBefore(x, y) == PositionBeforeFixed(x, y)
  {
  }

  /** The intended comparator is a strict weak order. */
  lemma FixedStrictWeak(s: seq<Position>)
    ensures StrictWeakOn(s, PositionBeforeFixed)
  {
  }

  /** With options only, the comparator as written is a strict weak order. */
  lemma OptionsStrictWeak(s: seq<Position>)
    requires forall i :: 0 <= i < |s| ==> s[i].con.isOption
    ensures StrictWeakOn(s, PositionBefore)
  {
    FixedStrictWeak(s);
    forall i, j | 0 <= i < |s| && 0 <= j < |s|
      ensures PositionBefore(s[i], s[j]) == PositionBeforeFixed(s[i], s[j])
    {
      ComparatorsAgree(s[i], s[j]);
    }
  }

  /** A permutation of options ordered by the comparator as written is
      ordered by the intended one. */
  lemma OptionsSorted(s0: seq<Position>, t: seq<Position>)
    requires forall i :: 0 <= i < |s0| ==> s0[i].con.isOption
    requires multiset(t) == multiset(s0) && SortedBy(t, PositionBefore)
    ensures SortedBy(t, PositionBeforeFixed)
  {
    forall i | 0 <= i < |t|
      ensures t[i].con.isOption
    {
      assert t[i] in multiset(t);
      var k := IndexOf(s0, t[i]);
    }
    forall p, q | 0 <= p < q < |t|
      ensures !PositionBeforeFixed(t[q], t[p])
    {
      ComparatorsAgree(t[q], t[p]);
    }
  }

  /** `Positions.Sort` as written: the positions are permuted in place;
      the result is ordered when every position is an option (then the
      comparator is the intended one). */
  method SortPositions(a: array<Position>)
    modifies a
    ensures multiset(a[..]) == multiset(old(a[..]))
    ensures (forall i :: 0 <= i < a.Length ==> old(a[i]).con.isOption) ==>
      SortedBy(a[..], PositionBeforeFixed)
  {
    ghost var s0 := a[..];
    ghost var options := forall i :: 0 <= i < |s0| ==> s0[i].con.isOption;
    if options {
      OptionsStrictWeak(s0);
    }
    SortSlice(a, PositionBefore);
    if options {
      OptionsSorted(s0, a[..]);
    }
  }

  /** `Positions.Sort` with the intended comparator: a permutation ordered
      by delivery, futures first, then strike. */
  method SortPositionsFixed(a: array<Position>)
    modifies a
    ensures multiset(a[..]) == multiset(old(a[..]))
    ensures SortedBy(a[..], PositionBeforeFixed)
  {
    FixedStrictWeak(a[..]);
    SortSlice(a, PositionBeforeFixed);
  }
}
