/**
 * The uptime field of the `ping` command (cogs/ping.py:30-33): a whole number
 * of seconds split with `divmod` into hours, minutes and seconds and printed as
 * "{hours}時間 {minutes}分 {seconds}秒".
 */
module Ping {
  import opened Text

  datatype Uptime = Uptime(hours: int, minutes: int, seconds: int)

  /**
   * Python's `divmod(a, b)` for a positive divisor: floor division and a
   * remainder that is never negative, which are Dafny's `/` and `%` for b > 0.
   */
  function DivMod(a: int, b: int): (r: (int, int))
    requires b > 0
    ensures r.0 * b + r.1 == a && 0 <= r.1 < b
  {
    (a / b, a % b)
  }

  /** cogs/ping.py:31-32. */
  function SplitUptime(total: int): (u: Uptime)
    ensures u.hours * 3600 + u.minutes * 60 + u.seconds == total
    ensures 0 <= u.minutes < 60 && 0 <= u.seconds < 60
    ensures u.hours * 3600 <= total < (u.hours + 1) * 3600
  {
    var (hours, remainder) := DivMod(total, 3600);
    var (minutes, seconds) := DivMod(remainder, 60);
    Uptime(hours, minutes, seconds)
  }

  /** The hours are the largest number of whole hours that fit in the total, with no upper bound. */
  lemma HoursAreFloor(total: int, h: int)
    requires h * 3600 <= total
    ensures h <= SplitUptime(total).hours
  {
    var u := SplitUptime(total);
    if u.hours < h {
      MulStep(u.hours, h, 3600);
    }
  }

  lemma MulStep(q: int, q': int, b: int)
    requires q < q' && b > 0
    ensures (q + 1) * b <= q' * b
  {
    assert q' * b - (q + 1) * b == (q' - q - 1) * b;
  }

  /** The quotient and remainder of a positive divisor are unique. */
  lemma FloorUnique(a: int, b: int, q: int, r: int)
    requires b > 0 && q * b + r == a && 0 <= r < b
    ensures q == a / b && r == a % b
  {
    var q', r' := a / b, a % b;
    if q < q' {
      MulStep(q, q', b);
    } else if q' < q {
      MulStep(q', q, b);
    }
  }

  /** Any split with minutes and seconds below 60 that adds up to the total is the one computed. */
  lemma SplitUptimeUnique(total: int, u: Uptime)
    requires u.hours * 3600 + u.minutes * 60 + u.seconds == total
    requires 0 <= u.minutes < 60 && 0 <= u.seconds < 60
    ensures u == SplitUptime(total)
  {
    var s := SplitUptime(total);
    FloorUnique(total, 3600, u.hours, u.minutes * 60 + u.seconds);
    FloorUnique(total, 3600, s.hours, s.minutes * 60 + s.seconds);
    FloorUnique(u.minutes * 60 + u.seconds, 60, u.minutes, u.seconds);
    FloorUnique(s.minutes * 60 + s.seconds, 60, s.minutes, s.seconds);
  }

  const HoursUnit := "時間 "
  const MinutesUnit := "分 "
  const SecondsUnit := "秒"

  /**
   * `f"{hours}時間 {minutes}分 {seconds}秒"` (cogs/ping.py:33). It opens with the
   * hours and closes with the seconds unit, and carries a minus sign only when
   * the uptime is negative, since minutes and seconds never are.
   */
  function UptimeText(total: int): (r: string)
    ensures IntToString(SplitUptime(total).hours) + HoursUnit <= r
    ensures |SecondsUnit| <= |r| && r[|r| - |SecondsUnit|..] == SecondsUnit
    ensures '-' in r <==> total < 0
  {
    var u := SplitUptime(total);
    IntToString(u.hours) + (HoursUnit + (IntToString(u.minutes) + (MinutesUnit + (IntToString(u.seconds) + SecondsUnit))))
  }

  /** A printed integer followed by a unit can be split back into the two. */
  lemma PeelNumeral(i: int, j: int, unit: string, x: string, y: string)
    requires |unit| > 0 && !IsNumeric(unit[0])
    requires IntToString(i) + (unit + x) == IntToString(j) + (unit + y)
    ensures i == j && x == y
  {
    IntToStringNumeric(i);
    IntToStringNumeric(j);
    NumeralPrefixUnique(IntToString(i), unit + x, IntToString(j), unit + y);
    IntToStringInjective(i, j);
    assert x == (unit + x)[|unit|..];
    assert y == (unit + y)[|unit|..];
  }

  /** Different uptimes print differently: the text can be read back to the number of seconds. */
  lemma UptimeTextInjective(a: int, b: int)
    requires UptimeText(a) == UptimeText(b)
    ensures a == b
  {
    var u, v := SplitUptime(a), SplitUptime(b);
    var tailU := IntToString(u.minutes) + (MinutesUnit + (IntToString(u.seconds) + SecondsUnit));
    var tailV := IntToString(v.minutes) + (MinutesUnit + (IntToString(v.seconds) + SecondsUnit));
    PeelNumeral(u.hours, v.hours, HoursUnit, tailU, tailV);
    PeelNumeral(u.minutes, v.minutes, MinutesUnit, IntToString(u.seconds) + SecondsUnit, IntToString(v.seconds) + SecondsUnit);
    assert IntToString(u.seconds) + (SecondsUnit + "") == IntToString(u.seconds) + SecondsUnit;
    assert IntToString(v.seconds) + (SecondsUnit + "") == IntToString(v.seconds) + SecondsUnit;
    PeelNumeral(u.seconds, v.seconds, SecondsUnit, "", "");
  }
}
