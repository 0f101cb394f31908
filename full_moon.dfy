/** `calcularProximaLunaLlena`: the first tabulated full moon after the
    current instant, or an extrapolation from the last entry once the table
    is exhausted. The current instant is a parameter. */
module FullMoon {
  import opened Wrappers
  import opened MoonTables
  import LunarPhase

  /** `setDate(getDate() + 29.53)`: the day number is truncated to an
      integer, so the fallback moves 29 whole calendar days on. */
  const FallbackDays: int := 29

  /** Index of the first entry strictly after `x`, if there is one. */
  function FirstAfter(t: seq<int>, x: int): (r: Option<nat>)
    ensures r.Some? ==>
      r.value < |t| && x < t[r.value] && forall j :: 0 <= j < r.value ==> t[j] <= x
    ensures r.None? ==> forall j :: 0 <= j < |t| ==> t[j] <= x
  {
    if t == [] then None
    else if x < t[0] then Some(0)
    else
      match FirstAfter(t[1..], x)
      case None => None
      case Some(i) => Some(i + 1)
  }

  /** On an ascending sequence, the first entry after `x` is the least
      entry after `x`, and without one `x` is at or past the last entry. */
  lemma FirstAfterIsLeast(t: seq<int>, x: int)
    requires StrictlyIncreasing(t)
    ensures FirstAfter(t, x).Some? ==>
      forall e :: e in t && x < e ==> t[FirstAfter(t, x).value] <= e
    ensures FirstAfter(t, x).None? && t != [] ==> t[|t| - 1] <= x
  {
    match FirstAfter(t, x)
    case Some(i) =>
      forall e | e in t && x < e ensures t[i] <= e {
        var j :| 0 <= j < |t| && t[j] == e;
        assert i <= j;
      }
    case None =>
  }

  function LastLlena(): int {
    LunasLlenas[|LunasLlenas| - 1]
  }

  /** What `calcularProximaLunaLlena` returns for the instant `ahora`. */
  function ProximaLunaLlenaAt(ahora: int): int {
    match FirstAfter(LunasLlenas, ahora)
    case Some(i) => LunasLlenas[i]
    case None => LastLlena() + FallbackDays * DayMs
  }

  /** Before the last tabulated full moon the result is the earliest
      tabulated full moon strictly after `ahora`; from the last one on it is
      the last entry plus 29 whole days. */
  lemma ProximaLunaLlenaSpec(ahora: int)
    ensures ahora < LastLlena() ==>
      ahora < ProximaLunaLlenaAt(ahora) && ProximaLunaLlenaAt(ahora) in LunasLlenas
      && forall e :: e in LunasLlenas && ahora < e ==> ProximaLunaLlenaAt(ahora) <= e
    ensures LastLlena() <= ahora ==>
      ProximaLunaLlenaAt(ahora) == LastLlena() + 29 * DayMs
  {
    TablesAscending();
    FirstAfterIsLeast(LunasLlenas, ahora);
  }

  /** `calcularProximaLunaLlena`: the scan with its early return, then the
      fallback. */
  method ProximaLunaLlena(ahora: int) returns (fecha: int)
    ensures fecha == ProximaLunaLlenaAt(ahora)
    ensures ahora < LastLlena() ==> ahora < fecha && fecha in LunasLlenas
  {
    var lunasLlenas := LunasLlenas;
    for i := 0 to |lunasLlenas|
      invariant forall j :: 0 <= j < i ==> lunasLlenas[j] <= ahora
    {
      if lunasLlenas[i] > ahora {
        return lunasLlenas[i];
      }
    }
    var ultimaFecha := lunasLlenas[|lunasLlenas| - 1];
    fecha := ultimaFecha + FallbackDays * DayMs;
  }

  /** As written, the fallback is a single step of 29 days from the last
      entry: from 2026-01-02T23:14-03:00 on it lies at or before `ahora`, so
      the "next" full moon is in the past. */
  lemma FallbackInPast(ahora: int)
    requires LastLlena() + FallbackDays * DayMs <= ahora
    ensures ProximaLunaLlenaAt(ahora) <= ahora
  {
  }

  /** The evidently intended extrapolation: whole synodic months of 29.53
      days past the last entry, as many as it takes to pass `ahora`. */
  function ProximaLunaLlenaExtrapolated(ahora: int): (r: int)
    ensures ahora < r
    ensures ahora < LastLlena() ==> r == ProximaLunaLlenaAt(ahora)
    ensures LastLlena() <= ahora ==>
      (r - LastLlena()) % LunarPhase.CycleMs == 0 && r - LunarPhase.CycleMs <= ahora
  {
    match FirstAfter(LunasLlenas, ahora)
    case Some(i) => LunasLlenas[i]
    case None =>
      var q := (ahora - LastLlena()) / LunarPhase.CycleMs;
      LastLlena() + (q + 1) * LunarPhase.CycleMs
  }
}
