/** The release countdown (js/countdown.js): the time left is split into
    days, hours, minutes and seconds and shown zero-padded; once the
    release moment has passed the released message replaces it. */
module Countdown {
  import opened Text

  const SecondMs: int := 1000
  const MinuteMs: int := 60 * SecondMs
  const HourMs: int := 60 * MinuteMs
  const DayMs: int := 24 * HourMs

  /** The field widths: days take three digits, the rest two. */
  const DayDigits: nat := 3
  const UnitDigits: nat := 2

  /** The four whole units of a non-negative distance. */
  datatype Parts = Parts(days: nat, hours: nat, minutes: nat, seconds: nat)

  /** The whole days, hours, minutes and seconds in `distance` milliseconds. */
  function Decompose(distance: nat): (p: Parts)
    ensures p.days * DayMs + p.hours * HourMs + p.minutes * MinuteMs + p.seconds * SecondMs + distance % SecondMs == distance
    ensures p.hours < 24 && p.minutes < 60 && p.seconds < 60
  {
    UnitsAddUp(distance);
    Parts(distance / DayMs, (distance % DayMs) / HourMs, (distance % HourMs) / MinuteMs, (distance % MinuteMs) / SecondMs)
  }

  /** A positive multiple of `m` is at least `m`. */
  lemma MulAtLeast(k: int, m: int)
    requires k >= 1 && m > 0
    ensures k * m >= m
  {
  }

  /** Quotient and remainder are the only ones with `0 <= r < m`. */
  lemma DivModUnique(x: int, q: int, r: int, m: int)
    requires m > 0 && x == q * m + r && 0 <= r < m
    ensures x / m == q && x % m == r
  {
    var q2 := x / m;
    var r2 := x % m;
    assert (q - q2) * m == r2 - r;
    if q > q2 {
      MulAtLeast(q - q2, m);
      assert false;
    }
    if q < q2 {
      MulAtLeast(q2 - q, m);
      assert false;
    }
  }

  /** Adding whole multiples of `m` does not change the remainder. */
  lemma ModAddMultiple(a: nat, b: nat, m: nat)
    requires m > 0
    ensures (a * m + b) % m == b % m
  {
    assert a * m + b == (a + b / m) * m + b % m;
    DivModUnique(a * m + b, a + b / m, b % m, m);
  }

  /** The remainder by a multiple of `m`, taken again by `m`. */
  lemma ModMod(x: nat, k: nat, m: nat)
    requires k > 0 && m > 0
    ensures (x % (k * m)) % m == x % m
  {
    var q := x / (k * m);
    var r := x % (k * m);
    assert x == q * (k * m) + r;
    assert q * (k * m) == (q * k) * m;
    ModAddMultiple(q * k, r, m);
  }

  lemma UnitsAddUp(d: nat)
    ensures (d / DayMs) * DayMs + ((d % DayMs) / HourMs) * HourMs + ((d % HourMs) / MinuteMs) * MinuteMs
            + ((d % MinuteMs) / SecondMs) * SecondMs + d % SecondMs == d
    ensures (d % DayMs) / HourMs < 24 && (d % HourMs) / MinuteMs < 60 && (d % MinuteMs) / SecondMs < 60
  {
    var r1 := d % DayMs;
    assert d == (d / DayMs) * DayMs + r1;
    ModMod(d, 24, HourMs);
    assert r1 == (r1 / HourMs) * HourMs + d % HourMs;
    var r2 := d % HourMs;
    ModMod(d, 60, MinuteMs);
    assert r2 == (r2 / MinuteMs) * MinuteMs + d % MinuteMs;
    var r3 := d % MinuteMs;
    ModMod(d, 60, SecondMs);
    assert r3 == (r3 / SecondMs) * SecondMs + d % SecondMs;
  }

  /** The decomposition is the only one with those bounds. */
  lemma DecomposeUnique(distance: nat, p: Parts)
    requires p.days * DayMs + p.hours * HourMs + p.minutes * MinuteMs + p.seconds * SecondMs + distance % SecondMs == distance
    requires p.hours < 24 && p.minutes < 60 && p.seconds < 60
    ensures p == Decompose(distance)
  {
    var q := Decompose(distance);
    var rest := p.hours * HourMs + p.minutes * MinuteMs + p.seconds * SecondMs + distance % SecondMs;
    assert 0 <= rest < DayMs;
    assert p.days == q.days;
    var restH := p.minutes * MinuteMs + p.seconds * SecondMs + distance % SecondMs;
    assert 0 <= restH < HourMs;
    assert p.hours == q.hours;
    var restM := p.seconds * SecondMs + distance % SecondMs;
    assert 0 <= restM < MinuteMs;
    assert p.minutes == q.minutes;
  }

  /** `formatNumber`: the decimal form of `n`, left-padded with '0' to
      `digits`; longer numbers are kept whole. */
  function FormatNumber(n: nat, digits: nat): (s: string)
    ensures |s| == if |NatToString(n)| < digits then digits else |NatToString(n)|
    ensures s[|s| - |NatToString(n)|..] == NatToString(n)
    ensures forall i :: 0 <= i < |s| - |NatToString(n)| ==> s[i] == '0'
    ensures forall i :: 0 <= i < |s| ==> IsDigit(s[i])
  {
    PadStart(NatToString(n), digits, '0')
  }

  /** Reading a formatted number back gives the number. */
  lemma FormatNumberRoundTrip(n: nat, digits: nat)
    ensures ParseDecimal(FormatNumber(n, digits)) == n
  {
    var t := NatToString(n);
    var s := FormatNumber(n, digits);
    var z := s[..|s| - |t|];
    assert s == z + t;
    ParseLeadingZeros(z, t);
    ParseNatToString(n);
  }

  /** What the countdown shows. */
  datatype Display = Released | Showing(days: string, hours: string, minutes: string, seconds: string)

  /** `update`, for a release moment `target` and the current time `now`. */
  function Update(target: int, now: int): (d: Display)
    ensures d.Released? <==> target - now < 0
    ensures d.Showing? ==> |d.days| >= DayDigits && |d.hours| == UnitDigits && |d.minutes| == UnitDigits && |d.seconds| == UnitDigits
  {
    var distance := target - now;
    if distance < 0 then Released
    else
      var p := Decompose(distance);
      assert |NatToString(p.hours)| <= 2 by { SmallNumberWidth(p.hours); }
      assert |NatToString(p.minutes)| <= 2 by { SmallNumberWidth(p.minutes); }
      assert |NatToString(p.seconds)| <= 2 by { SmallNumberWidth(p.seconds); }
      Showing(FormatNumber(p.days, DayDigits), FormatNumber(p.hours, UnitDigits),
              FormatNumber(p.minutes, UnitDigits), FormatNumber(p.seconds, UnitDigits))
  }

  /** Numbers below 100 print in at most two digits. */
  lemma SmallNumberWidth(n: nat)
    ensures n < 100 ==> |NatToString(n)| <= 2
  {
    if 10 <= n < 100 {
      assert NatToString(n) == NatToString(n / 10) + [DigitChar(n % 10)];
    }
  }

  /** At the release moment itself the countdown still shows all zeros. */
  lemma ZeroDistanceShowsZeros(target: int)
    ensures Update(target, target) == Showing("000", "00", "00", "00")
  {
    assert NatToString(0) == "0";
  }

  /** The shown fields read back to the time left, up to the milliseconds
      below a second. */
  lemma ShownTimeReadsBack(target: int, now: int)
    requires target >= now
    ensures var d := Update(target, now);
            d.Showing? &&
            ParseDecimal(d.days) * DayMs + ParseDecimal(d.hours) * HourMs + ParseDecimal(d.minutes) * MinuteMs
              + ParseDecimal(d.seconds) * SecondMs + (target - now) % SecondMs == target - now
  {
    var p := Decompose(target - now);
    FormatNumberRoundTrip(p.days, DayDigits);
    FormatNumberRoundTrip(p.hours, UnitDigits);
    FormatNumberRoundTrip(p.minutes, UnitDigits);
    FormatNumberRoundTrip(p.seconds, UnitDigits);
  }
}
