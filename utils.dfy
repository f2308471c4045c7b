/** The helpers of utils/slice.go, utils/math.go and utils/Format.go. */
module Utils {
  import opened Num
  import opened Chrono
  import opened Text

  /** `Contains`: a scan for an element equal to `e`. */
  method Contains<T(==)>(a: seq<T>, e: T) returns (found: bool)
    ensures found <==> e in a
  {
    var i := 0;
    while i < |a|
      invariant 0 <= i <= |a|
      invariant e !in a[..i]
    {
      if a[i] == e {
        return true;
      }
      i := i + 1;
    }
    assert a[..i] == a;
    return false;
  }

  function Sum(s: seq<real>): real
  {
    if s == [] then 0.0 else Sum(s[..|s| - 1]) + s[|s| - 1]
  }

  /** `AverageSlice`: the sum over `i + 1`, where `i` is the last index
      visited, so the mean of a non-empty slice and 0 for an empty one. */
  method AverageSlice(sl: seq<real>) returns (avg: real)
    ensures sl == [] ==> avg == 0.0
    ensures sl != [] ==> avg * |sl| as real == Sum(sl)
  {
    var i := 0;
    var vs := 0.0;
    var k := 0;
    while k < |sl|
      invariant 0 <= k <= |sl|
      invariant vs == Sum(sl[..k])
      invariant k > 0 ==> i == k - 1
      invariant k == 0 ==> i == 0
    {
      assert sl[..k + 1][..k] == sl[..k];
      vs := vs + sl[k];
      i := k;
      k := k + 1;
    }
    assert sl[..k] == sl;
    avg := vs / (i + 1) as real;
    DivMul(vs, (i + 1) as real);
  }

  /** `MinOf`: the smallest argument; an empty argument list panics. */
  method MinOf(vars: seq<int>) returns (min: int)
    requires |vars| >= 1
    ensures min in vars
    ensures forall k :: 0 <= k < |vars| ==> min <= vars[k]
  {
    min := vars[0];
    var j := 0;
    while j < |vars|
      invariant 0 <= j <= |vars|
      invariant min in vars
      invariant forall k :: 0 <= k < j ==> min <= vars[k]
    {
      if min > vars[j] {
        min := vars[j];
      }
      j := j + 1;
    }
  }

  /** `MaxOf`: the largest argument; an empty argument list panics. */
  method MaxOf(vars: seq<int>) returns (max: int)
    requires |vars| >= 1
    ensures max in vars
    ensures forall k :: 0 <= k < |vars| ==> max >= vars[k]
  {
    max := vars[0];
    var j := 0;
    while j < |vars|
      invariant 0 <= j <= |vars|
      invariant max in vars
      invariant forall k :: 0 <= k < j ==> max >= vars[k]
    {
      if max < vars[j] {
        max := vars[j];
      }
      j := j + 1;
    }
  }

  /** `Sign`: 1, -1 or 0. */
  function Sign(v: real): (s: real)
    ensures s == 1.0 <==> v > 0.0
    ensures s == -1.0 <==> v < 0.0
    ensures s == 0.0 <==> v == 0.0
  {
    if v > 0.0 then 1.0 else if v < 0.0 then -1.0 else 0.0
  }

  /** The algebra of `Sign`. */
  lemma SignLaws(v: real)
    ensures v * Sign(v) == Abs(v)
    ensures Sign(-v) == -Sign(v)
    ensures Sign(Sign(v)) == Sign(v)
  {
  }

  /** Hours and minutes that `FormatDuration` prints. */
  function DurationParts(d: int): (hm: (int, int))
    requires IsInt64(d)
  {
    var rd := RoundDuration(d, Minute);
    var h := Quo(rd, Hour);
    var rest := rd - h * Hour;
    (h, Quo(rest, Minute))
  }

  /** `FormatDuration`: the duration rounded to a minute, as "{h}h{m}m". */
  function FormatDuration(d: int): (s: string)
    requires IsInt64(d)
  {
    var (h, m) := DurationParts(d);
    IntToString(h) + "h" + IntToString(m) + "m"
  }

  /** Rounding to a minute lands on a multiple of a minute unless the
      result is clamped at the int64 end; halves go away from zero. */
  lemma RoundToMinute(d: int)
    requires IsInt64(d)
    ensures var rd := RoundDuration(d, Minute);
      (rd == Int64Max || rd == Int64Min || rd % Minute == 0) &&
      (rd != Int64Max && rd != Int64Min ==> -Minute <= 2 * (rd - d) <= Minute) &&
      (d >= 0 ==> rd >= 0) && (d <= 0 ==> rd <= 0)
  {
    QuoRemSpec(d, Minute);
  }

  lemma PartsOfNonNegative(rd: int)
    requires 0 <= rd
    ensures var h := Quo(rd, Hour); var m := Quo(rd - h * Hour, Minute);
      0 <= m <= 59 && h >= 0 && h * Hour + m * Minute <= rd < h * Hour + (m + 1) * Minute &&
      (rd % Minute == 0 ==> (h * 60 + m) * Minute == rd)
  {
    assert Hour == 3_600_000_000_000 && Minute == 60_000_000_000;
    PartsInNanoseconds(rd);
  }

  /** `PartsOfNonNegative` with the hour and the minute written out in
      nanoseconds. */
  lemma PartsInNanoseconds(rd: int)
    requires 0 <= rd
    ensures var h := rd / 3_600_000_000_000; var m := (rd - h * 3_600_000_000_000) / 60_000_000_000;
      0 <= m <= 59 && h >= 0 &&
      h * 3_600_000_000_000 + m * 60_000_000_000 <= rd < h * 3_600_000_000_000 + (m + 1) * 60_000_000_000 &&
      (rd % 60_000_000_000 == 0 ==> (h * 60 + m) * 60_000_000_000 == rd)
  {
  }

  lemma PartsOfNonPositive(rd: int)
    requires rd <= 0
    ensures var h := Quo(rd, Hour); var m := Quo(rd - h * Hour, Minute);
      h <= 0 && m <= 0
  {
    QuoRemSpec(rd, Hour);
    var h := Quo(rd, Hour);
    QuoRemSpec(rd - h * Hour, Minute);
  }

  /** For a non-negative duration the minutes are 0..59 and the parts add
      up to the rounded duration; a negative one has no positive part. */
  lemma DurationPartsSpec(d: int)
    requires IsInt64(d)
    ensures var (h, m) := DurationParts(d);
      var rd := RoundDuration(d, Minute);
      (d >= 0 ==> 0 <= m <= 59 && h >= 0 && h * Hour + m * Minute <= rd < h * Hour + (m + 1) * Minute) &&
      (d >= 0 && rd % Minute == 0 ==> (h * 60 + m) * Minute == rd) &&
      (d < 0 ==> h <= 0 && m <= 0)
  {
    var rd := RoundDuration(d, Minute);
    RoundToMinute(d);
    if d >= 0 { PartsOfNonNegative(rd); } else { PartsOfNonPositive(rd); }
  }

  lemma FormatZero()
    ensures FormatDuration(0) == "0h0m"
  {
    assert DurationParts(0) == (0, 0);
  }
}
