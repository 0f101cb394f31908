/** The countdown of `actualizarContador`: the time left until the next full
    moon, broken into days, hours, minutes and seconds with `Math.floor` and
    JavaScript's `%`. */
module Countdown {
  import opened JsBuiltins
  import opened MoonTables
  import FullMoon

  const HourMs: int := 3_600_000
  const MinuteMs: int := 60_000
  const SecondMs: int := 1_000

  datatype Breakdown = Breakdown(days: int, hours: int, minutes: int, seconds: int)

  /** Dafny's `/` by a positive divisor rounds down, as `Math.floor` of the
      quotient does. */
  function Desglose(diferencia: int): (b: Breakdown)
    ensures diferencia >= 0 ==>
      0 <= b.days && 0 <= b.hours < 24 && 0 <= b.minutes < 60 && 0 <= b.seconds < 60
    ensures diferencia < 0 ==>
      b.days < 0 && -24 <= b.hours <= 0 && -60 <= b.minutes <= 0 && -60 <= b.seconds <= 0
  {
    Breakdown(
      diferencia / DayMs,
      TRem(diferencia, DayMs) / HourMs,
      TRem(diferencia, HourMs) / MinuteMs,
      TRem(diferencia, MinuteMs) / SecondMs)
  }

  /** A division with remainder in `[0, m)` is the Euclidean one. */
  lemma DivModUnique(a: int, m: int, q: int, r: int)
    requires 0 < m && 0 <= r < m && a == q * m + r
    ensures a / m == q && a % m == r
  {
    var q', r' := a / m, a % m;
    assert a == q' * m + r';
    if q' < q {
      MulAtLeast(q - q', m);
    } else if q < q' {
      MulAtLeast(q' - q, m);
    }
  }

  lemma MulAtLeast(k: int, m: int)
    requires 1 <= k && 0 < m
    ensures k * m >= m
  {
  }

  /** For a non-negative duration the four parts add back up to the
      duration with its sub-second remainder dropped. */
  lemma DesgloseRecombines(d: int)
    requires d >= 0
    ensures var b := Desglose(d);
      b.days * DayMs + b.hours * HourMs + b.minutes * MinuteMs + b.seconds * SecondMs
        == d - d % SecondMs
  {
    var days, r1 := d / DayMs, d % DayMs;
    var hours, r2 := r1 / HourMs, r1 % HourMs;
    var minutes, r3 := r2 / MinuteMs, r2 % MinuteMs;
    var seconds, r4 := r3 / SecondMs, r3 % SecondMs;
    assert d == days * DayMs + r1;
    assert r1 == hours * HourMs + r2;
    assert r2 == minutes * MinuteMs + r3;
    assert r3 == seconds * SecondMs + r4;
    DivModUnique(d, HourMs, days * 24 + hours, r2);
    DivModUnique(d, MinuteMs, days * 1440 + hours * 60 + minutes, r3);
    DivModUnique(d, SecondMs, days * 86400 + hours * 3600 + minutes * 60 + seconds, r4);
  }

  /** `actualizarContador` for the instant `ahora`: the next full moon and
      the breakdown of the time left until it. */
  method ActualizarContador(ahora: int) returns (proxima: int, b: Breakdown)
    ensures proxima == FullMoon.ProximaLunaLlenaAt(ahora)
    ensures b == Desglose(proxima - ahora)
  {
    proxima := FullMoon.ProximaLunaLlena(ahora);
    var diferencia := proxima - ahora;
    b := Desglose(diferencia);
  }

  /** Before the last tabulated full moon the countdown never shows a
      negative part. */
  lemma CountdownNonNegativeInTable(ahora: int)
    requires ahora < FullMoon.LastLlena()
    ensures var b := Desglose(FullMoon.ProximaLunaLlenaAt(ahora) - ahora);
      b.days >= 0 && b.hours >= 0 && b.minutes >= 0 && b.seconds >= 0
  {
    FullMoon.ProximaLunaLlenaSpec(ahora);
  }

  /** Once the 29-day fallback has passed, the countdown shows negative
      days. */
  lemma CountdownNegativeAfterFallback(ahora: int)
    requires FullMoon.LastLlena() + FullMoon.FallbackDays * DayMs < ahora
    ensures Desglose(FullMoon.ProximaLunaLlenaAt(ahora) - ahora).days < 0
  {
    FullMoon.ProximaLunaLlenaSpec(ahora);
  }
}
