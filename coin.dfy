/** Coin names and the per-coin tables of coin.go. */
module Coins {
  import opened Wrappers
  import opened Num

  /** A token name; Go's `Coin` is a string type. */
  type Coin = string

  const BTC: Coin := "BTC"
  const ETH: Coin := "ETH"
  const USDT: Coin := "USDT"
  const IOTX: Coin := "IOTX"
  const ZRX: Coin := "ZRX"
  const ONT: Coin := "ONT"
  const ETC: Coin := "ETC"
  const EOS: Coin := "EOS"
  const NEO: Coin := "NEO"
  const IOTA: Coin := "IOTA"
  const BGG: Coin := "BGG"
  const FT: Coin := "FT"
  const HT: Coin := "HT"
  const XMX: Coin := "XMX"
  const NKN: Coin := "NKN"
  const TRX: Coin := "TRX"
  const MFT: Coin := "MFT"
  const MITH: Coin := "MITH"
  const MDT: Coin := "MDT"
  const GTC: Coin := "GTC"
  const BNB: Coin := "BNB"
  /** Declared outside the files modelled here; spelled as its name. */
  const USD: Coin := "USD"
  const APOT: Coin := "APOT"

  /** `Coin.Format`: the display pattern of a coin. */
  function Format(c: Coin): (f: string)
    ensures c == IOTX ==> f == "#,###."
    ensures c == ETH ==> f == "#,###.###"
    ensures c == USDT ==> f == "#,###.##"
    ensures c !in {IOTX, ETH, USDT} ==> f == "#,###.####"
  {
    if c == IOTX then "#,###."
    else if c == ETH then "#,###.###"
    else if c == USDT then "#,###.##"
    else "#,###.####"
  }

  /** Decimals that `RoundCoinAmount` keeps, for the coins it knows. */
  function AmountDecimals(c: Coin): (k: Option<nat>)
    ensures k.Some? <==> c in {IOTX, ETH, ZRX, ONT, TRX, FT, MFT, MDT, BTC, ETC, EOS, NEO}
    ensures k.Some? ==> k.value in {0, 2, 3, 6}
  {
    if c in {IOTX, ZRX, TRX, MFT, MDT} then Some(0)
    else if c == ETH then Some(3)
    else if c in {ONT, FT} then Some(2)
    else if c in {BTC, ETC, EOS, NEO} then Some(6)
    else None
  }

  /** `math.Floor(amount*scale) / scale`. */
  function FloorTo(amount: real, scale: real): real
    requires scale >= 1.0
  {
    Floor(amount * scale) / scale
  }

  /** `Coin.RoundCoinAmount`: floors to the coin's decimals; NaN for a coin
      without a rule. */
  function RoundCoinAmount(c: Coin, amount: real): (r: Fl)
    ensures r.R? <==> AmountDecimals(c).Some?
  {
    match AmountDecimals(c)
    case Some(k) => R(FloorTo(amount, Pow10(k)))
    case None => NaN
  }

  lemma FloorToIs(x: real, scale: real)
    requires scale >= 1.0
    ensures FloorTo(x, scale) == Floor(x * scale) / scale
  {
  }

  lemma FloorToBelow(amount: real, p: real)
    requires p >= 1.0
    ensures FloorTo(amount, p) <= amount
  {
    var x := amount * p;
    DivMul(amount, p);
    DivLe(Floor(x), x, p);
  }

  lemma FloorToNear(amount: real, p: real)
    requires p >= 1.0
    ensures amount - FloorTo(amount, p) < 1.0 / p
  {
    var x := amount * p;
    var F := Floor(x);
    DivMul(amount, p);
    DivLt(x, F + 1.0, p);
    assert (F + 1.0) / p == F / p + 1.0 / p;
  }

  lemma FloorToIdempotent(amount: real, p: real)
    requires p >= 1.0
    ensures FloorTo(FloorTo(amount, p), p) == FloorTo(amount, p)
  {
    var F := Floor(amount * p);
    var g := FloorTo(amount, p);
    DivMul(F, p);
    assert g * p == F;
    assert Floor(F) == F;
    FloorToIs(g, p);
  }

  /** A listed coin's rounded amount is below the amount by less than one
      unit of its last kept decimal, and rounding again changes nothing. */
  lemma RoundCoinAmountBounds(c: Coin, amount: real)
    requires AmountDecimals(c).Some?
    ensures RoundCoinAmount(c, amount).r <= amount
    ensures amount - RoundCoinAmount(c, amount).r < 1.0 / Pow10(AmountDecimals(c).value)
    ensures RoundCoinAmount(c, RoundCoinAmount(c, amount).r) == RoundCoinAmount(c, amount)
  {
    var p := Pow10(AmountDecimals(c).value);
    FloorToBelow(amount, p);
    FloorToNear(amount, p);
    FloorToIdempotent(amount, p);
  }

  /** Whether `RenderCoinAmount` prints nothing for this amount. */
  predicate RendersEmpty(c: Coin, amount: real)
  {
    if c == USDT then Abs(amount) < 1.0
    else if c == BNB then Abs(amount) < 0.1
    else if c == BTC then Abs(amount) < 0.0001
    else if c == ETH then false
    else if c in {IOTX, ZRX, ONT} then amount == 0.0
    else if c == FT then amount < 10.0
    else amount < 0.01
  }

  /** The symbol `RenderCoinAmount` puts before the digits. */
  function RenderPrefix(c: Coin): (p: string)
    ensures |p| >= 2
  {
    if c == USDT then "`$ `" else if c == BNB then "`BNB `"
    else if c == BTC then "`฿ `" else if c == ETH then "`Ξ `"
    else if c == IOTX then "`I `" else if c == ZRX then "`Z `"
    else if c == ONT then "`O `" else if c == FT then "`F `"
    else "`" + c + " `"
  }

  function RenderPattern(c: Coin): string
  {
    if c == BNB then "#,###.#" else if c == BTC then "###.####"
    else if c == ETH then "###.###" else "#,###."
  }

  /** `Coin.RenderCoinAmount`; `renderFloat` stands for `util.RenderFloat`,
      which is not part of this model. The text is empty exactly below the
      coin's threshold. */
  function RenderCoinAmount(c: Coin, amount: real, renderFloat: (string, real) -> string): (s: string)
    ensures s == "" <==> RendersEmpty(c, amount)
    ensures !RendersEmpty(c, amount) ==> s == RenderPrefix(c) + renderFloat(RenderPattern(c), amount)
  {
    if RendersEmpty(c, amount) then "" else RenderPrefix(c) + renderFloat(RenderPattern(c), amount)
  }

  /** Go's `<` on strings: byte-wise lexicographic, which for UTF-8 is the
      order of code points. */
  predicate Less(a: string, b: string)
  {
    if a == [] then b != []
    else if b == [] then false
    else a[0] < b[0] || (a[0] == b[0] && Less(a[1..], b[1..]))
  }

  lemma {:induction false} LessIrreflexive(a: string)
    ensures !Less(a, a)
  {
    if a != [] { LessIrreflexive(a[1..]); }
  }

  lemma {:induction false} LessTransitive(a: string, b: string, c: string)
    requires Less(a, b) && Less(b, c)
    ensures Less(a, c)
  {
    if a != [] && b != [] && c != [] && a[0] == b[0] && b[0] == c[0] {
      LessTransitive(a[1..], b[1..], c[1..]);
    }
  }

  lemma {:induction false} LessTotal(a: string, b: string)
    requires a != b
    ensures Less(a, b) || Less(b, a)
  {
    if a != [] && b != [] && a[0] == b[0] {
      assert a == [a[0]] + a[1..] && b == [b[0]] + b[1..];
      LessTotal(a[1..], b[1..]);
    }
  }

  /** `Coins.Len`. */
  function Len(s: seq<Coin>): (n: nat)
    ensures n == |s|
  {
    |s|
  }

  /** `Coins.Less` at two positions. */
  predicate LessAt(s: seq<Coin>, i: nat, j: nat)
    requires i < |s| && j < |s|
  {
    Less(s[i], s[j])
  }

  /** `Coins.Swap`: exchanges two entries in place. */
  method Swap(s: array<Coin>, i: nat, j: nat)
    requires i < s.Length && j < s.Length
    modifies s
    ensures s[..] == old(s[..])[i := old(s[j])][j := old(s[i])]
    ensures multiset(s[..]) == multiset(old(s[..]))
  {
    s[i], s[j] := s[j], s[i];
  }
}
