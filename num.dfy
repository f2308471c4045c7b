/**
 * Numbers as the Go source uses them. Prices and amounts are mathematical
 * reals; a float64 that can be NaN is an `Fl`. Go's integer division and
 * remainder truncate toward zero, unlike Dafny's Euclidean `/` and `%`, so
 * they are written out here.
 */
module Num {
  /** A float64 that is either a number or NaN ("no value"); a division by
      zero, which Go turns into an infinity or NaN, is `NaN` here. */
  datatype Fl = NaN | R(r: real)

  const Int64Min: int := -0x8000_0000_0000_0000
  const Int64Max: int := 0x7fff_ffff_ffff_ffff

  predicate IsInt64(x: int) { Int64Min <= x <= Int64Max }

  function Abs(x: real): (r: real)
    ensures r >= 0.0 && (r == x || r == -x)
  {
    if x < 0.0 then -x else x
  }

  function Min(a: real, b: real): (r: real)
    ensures r <= a && r <= b && (r == a || r == b)
  {
    if a <= b then a else b
  }

  function Max(a: real, b: real): (r: real)
    ensures r >= a && r >= b && (r == a || r == b)
  {
    if a >= b then a else b
  }

  /** float64 division: a zero divisor gives no value. */
  function Div(a: real, b: real): (r: Fl)
    ensures r == NaN <==> b == 0.0
    ensures r.R? ==> r.r * b == a
  {
    if b == 0.0 then NaN else R(a / b)
  }

  /** NaN-propagating arithmetic on `Fl`. */
  function Add(a: Fl, b: Fl): (r: Fl)
    ensures r.R? <==> a.R? && b.R?
  {
    if a.R? && b.R? then R(a.r + b.r) else NaN
  }

  function Sub(a: Fl, b: Fl): (r: Fl)
    ensures r.R? <==> a.R? && b.R?
  {
    if a.R? && b.R? then R(a.r - b.r) else NaN
  }

  function Mul(a: Fl, b: Fl): (r: Fl)
    ensures r.R? <==> a.R? && b.R?
  {
    if a.R? && b.R? then R(a.r * b.r) else NaN
  }

  /** float64 division of two possibly missing values. */
  function Quotient(a: Fl, b: Fl): (r: Fl)
    ensures r.R? <==> a.R? && b.R? && b.r != 0.0
    ensures r.R? ==> r.r * b.r == a.r
  {
    if a.R? && b.R? then Div(a.r, b.r) else NaN
  }

  /** Go's integer `/`: the quotient truncated toward zero. */
  function Quo(a: int, b: int): (q: int)
    requires b != 0
    ensures a >= 0 && b > 0 ==> q == a / b
  {
    if (a >= 0) == (b > 0) then
      (if a >= 0 then a / b else (-a) / (-b))
    else
      -((if a >= 0 then a else -a) / (if b > 0 then b else -b))
  }

  /** Go's integer `%`: the remainder takes the sign of the dividend. */
  function Rem(a: int, b: int): (r: int)
    requires b != 0
  {
    a - Quo(a, b) * b
  }

  lemma QuoRemSpec(a: int, b: int)
    requires b > 0
    ensures a == Quo(a, b) * b + Rem(a, b)
    ensures a >= 0 ==> 0 <= Rem(a, b) < b
    ensures a < 0 ==> -b < Rem(a, b) <= 0
    ensures Quo(-a, b) == -Quo(a, b)
  {
    if a >= 0 {
      assert Quo(a, b) == a / b;
      assert Rem(a, b) == a % b;
      assert Quo(-a, b) == -(a / b);
    } else {
      var q := (-a) / b;
      assert Quo(a, b) == -q;
      assert Rem(a, b) == -((-a) % b);
      assert Quo(-a, b) == q;
    }
  }

  /** Rounds to the nearest integer, halves to the even neighbour (the rule
      of strconv's fixed-precision formatting). */
  function RoundHalfEven(x: real): (n: int)
    ensures x - 0.5 <= n as real <= x + 0.5
    ensures n as real == x - 0.5 || n as real == x + 0.5 ==> n % 2 == 0
  {
    var f := x.Floor;
    var frac := x - f as real;
    if frac < 0.5 then f
    else if frac > 0.5 then f + 1
    else if f % 2 == 0 then f else f + 1
  }

  /** math.Round: nearest integer, halves away from zero. */
  function RoundHalfAway(x: real): (n: int)
    ensures x - 0.5 <= n as real <= x + 0.5
    ensures n as real == x + 0.5 ==> x >= 0.0
    ensures n as real == x - 0.5 ==> x <= 0.0
  {
    if x >= 0.0 then (x + 0.5).Floor else -((-x + 0.5).Floor)
  }

  /** `10^k`. The recursion lives in `TenTo`, so that a scale factor
      written `Pow10(k)` in a function body and in a lemma is one term. */
  function Pow10(k: nat): (p: real)
    ensures p >= 1.0
  {
    TenTo(k)
  }

  function TenTo(k: nat): (p: real)
    ensures p >= 1.0
  {
    if k == 0 then 1.0 else 10.0 * TenTo(k - 1)
  }

  /** `math.Floor`: the largest integer at or below `x`. */
  function Floor(x: real): (r: real)
    ensures r <= x < r + 1.0
    ensures r == r.Floor as real
  {
    x.Floor as real
  }

  lemma DivMul(x: real, p: real)
    requires p != 0.0
    ensures (x / p) * p == x
    ensures (x * p) / p == x
  {
  }

  lemma DivLe(x: real, y: real, p: real)
    requires p > 0.0 && x <= y
    ensures x / p <= y / p
  {
    DivMul(x, p);
    DivMul(y, p);
    assert (y / p - x / p) * p == y - x;
  }

  lemma DivLt(x: real, y: real, p: real)
    requires p > 0.0 && x < y
    ensures x / p < y / p
  {
    DivMul(x, p);
    DivMul(y, p);
    assert (y / p - x / p) * p == y - x;
  }
}
