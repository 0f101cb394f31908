/** `obtenerFaseLunar`: the lunar phase of an instant, estimated from the
    nearest tabulated new moon at or before it and a mean synodic month of
    29.53 days. Ages are kept in whole milliseconds: the cycle and every bin
    bound of the source are whole numbers of milliseconds. */
module LunarPhase {
  import opened JsBuiltins
  import opened MoonTables

  /** 29.53 days. */
  const CycleMs: int := 2_551_392_000

  /** The eight glyphs the estimator returns. */
  datatype Phase =
    | New             // 🌑
    | WaxingCrescent  // 🌒
    | FirstQuarter    // 🌓
    | WaxingGibbous   // 🌔
    | Full            // 🌕
    | WaningGibbous   // 🌖
    | LastQuarter     // 🌗
    | WaningCrescent  // 🌘

  /** The emoji the source returns for each phase. */
  function Glyph(p: Phase): string {
    match p
    case New => "\U{1F311}"
    case WaxingCrescent => "\U{1F312}"
    case FirstQuarter => "\U{1F313}"
    case WaxingGibbous => "\U{1F314}"
    case Full => "\U{1F315}"
    case WaningGibbous => "\U{1F316}"
    case LastQuarter => "\U{1F317}"
    case WaningCrescent => "\U{1F318}"
  }

  /** Each phase has its own emoji, so the phase and the emoji the page
      shows carry the same information. */
  lemma GlyphInjective(p: Phase, q: Phase)
    requires Glyph(p) == Glyph(q)
    ensures p == q
  {
    assert Glyph(p)[0] == Glyph(q)[0];
  }

  /** The upper bounds of the first eight bins: 1, 6.38, 8.38, 13.76, 15.76,
      21.14, 23.14 and 28.53 days. */
  const Bounds: seq<int> := [
    86_400_000, 551_232_000, 724_032_000, 1_188_864_000,
    1_361_664_000, 1_826_496_000, 1_999_296_000, 2_464_992_000
  ]

  /** The phase of each of the nine bins `[Bounds[k-1], Bounds[k])`; the
      last bin, from 28.53 days on, wraps back to the new moon. */
  const BinPhases: seq<Phase> := [
    New, WaxingCrescent, FirstQuarter, WaxingGibbous,
    Full, WaningGibbous, LastQuarter, WaningCrescent, New
  ]

  /** The chain of comparisons at the end of `obtenerFaseLunar`. */
  function Classify(age: int): Phase {
    if age < 86_400_000 then New
    else if age < 551_232_000 then WaxingCrescent
    else if age < 724_032_000 then FirstQuarter
    else if age < 1_188_864_000 then WaxingGibbous
    else if age < 1_361_664_000 then Full
    else if age < 1_826_496_000 then WaningGibbous
    else if age < 1_999_296_000 then LastQuarter
    else if age < 2_464_992_000 then WaningCrescent
    else New
  }

  /** The number of entries of an ascending sequence of bounds at or below
      `x`: the index of the half-open bin `x` falls in. */
  function CountAtMost(b: seq<int>, x: int): (k: nat)
    requires StrictlyIncreasing(b)
    ensures k <= |b|
    ensures k == 0 || b[k - 1] <= x
    ensures k == |b| || x < b[k]
  {
    if b == [] then 0
    else if b[|b| - 1] <= x then |b|
    else CountAtMost(b[..|b| - 1], x)
  }

  /** The bins do not overlap: at most one bin index fits an age. */
  lemma BinUnique(b: seq<int>, x: int, k: nat)
    requires StrictlyIncreasing(b) && k <= |b|
    requires k == 0 || b[k - 1] <= x
    requires k == |b| || x < b[k]
    ensures k == CountAtMost(b, x)
  {
  }

  /** Classification is total and gap-free: every age lies in exactly one
      half-open bin (an age equal to a bound belongs to the bin above it),
      and the age gets that bin's phase. */
  lemma ClassifyByBin(age: int, k: nat)
    requires k <= |Bounds|
    requires k == 0 || Bounds[k - 1] <= age
    requires k == |Bounds| || age < Bounds[k]
    ensures StrictlyIncreasing(Bounds) && k == CountAtMost(Bounds, age)
    ensures Classify(age) == BinPhases[k]
  {
    assert AdjacentIncreasing(Bounds);
    AdjacentMakesStrict(Bounds);
    BinUnique(Bounds, age, k);
  }

  /** An age exactly on a bound belongs to the next bin; ages from 28.53
      days on are a new moon again. */
  lemma ClassifyAtBounds(k: nat)
    requires k < |Bounds|
    ensures Classify(Bounds[k]) == BinPhases[k + 1]
    ensures Classify(Bounds[k] - 1) == BinPhases[k]
  {
    assert AdjacentIncreasing(Bounds);
    AdjacentMakesStrict(Bounds);
    ClassifyByBin(Bounds[k], k + 1);
    ClassifyByBin(Bounds[k] - 1, k);
  }

  /** Index of the last entry at or below `x`, or 0 when there is none: the
      entry the scan of `obtenerFaseLunar` keeps in `lunaNuevaMasCercana`. */
  function PriorIndex(t: seq<int>, x: int): (i: nat)
    requires |t| > 0
    ensures i < |t|
    ensures (exists j :: 0 <= j < |t| && t[j] <= x) ==>
      t[i] <= x && forall j :: i < j < |t| ==> x < t[j]
    ensures (forall j :: 0 <= j < |t| ==> x < t[j]) ==> i == 0
  {
    if |t| == 1 then 0
    else if t[|t| - 1] <= x then |t| - 1
    else
      var i := PriorIndex(t[..|t| - 1], x);
      assert forall j :: 0 <= j < |t| - 1 ==> t[..|t| - 1][j] == t[j];
      i
  }

  /** On an ascending table a forward scan that stops at the first entry
      above `x` has found `PriorIndex`: this is why the `break` is sound. */
  lemma PriorIndexByScan(t: seq<int>, x: int, i: nat)
    requires |t| > 0 && StrictlyIncreasing(t) && i <= |t|
    requires forall j :: 0 <= j < i ==> t[j] <= x
    requires i == |t| || x < t[i]
    ensures PriorIndex(t, x) == if i == 0 then 0 else i - 1
  {
    if i > 0 {
      assert t[i - 1] <= x;
    } else {
      assert forall j :: 0 <= j < |t| ==> x < t[j] by {
        forall j | 0 <= j < |t| ensures x < t[j] {
          if j > 0 { assert t[0] < t[j]; }
        }
      }
    }
  }

  /** The tabulated new moon the age is measured from. */
  function NuevaMasCercana(fecha: int): int {
    LunasNuevas[PriorIndex(LunasNuevas, fecha)]
  }

  /** The nearest prior new moon is the last table entry at or before the
      date when the date is not before the table, and the first entry when
      the date precedes every entry. */
  lemma NuevaMasCercanaIsLastAtOrBefore(fecha: int)
    ensures LunasNuevas[0] <= fecha ==>
      exists i :: 0 <= i < |LunasNuevas| && NuevaMasCercana(fecha) == LunasNuevas[i]
        && LunasNuevas[i] <= fecha
        && forall j :: i < j < |LunasNuevas| ==> fecha < LunasNuevas[j]
    ensures fecha < LunasNuevas[0] ==> NuevaMasCercana(fecha) == LunasNuevas[0]
  {
    TablesAscending();
    var i := PriorIndex(LunasNuevas, fecha);
    if fecha < LunasNuevas[0] {
      assert forall j :: 0 <= j < |LunasNuevas| ==> fecha < LunasNuevas[j] by {
        forall j | 0 <= j < |LunasNuevas| ensures fecha < LunasNuevas[j] {
          if j > 0 { assert LunasNuevas[0] < LunasNuevas[j]; }
        }
      }
    }
  }

  /** Days since the nearest prior new moon modulo 29.53, in milliseconds,
      with JavaScript's `%`: negative for dates before the table. */
  function Age(fecha: int): int {
    TRem(fecha - NuevaMasCercana(fecha), CycleMs)
  }

  /** From the first tabulated new moon on, the age lies in [0, 29.53 days);
      before it the age is not positive. */
  lemma AgeRange(fecha: int)
    ensures LunasNuevas[0] <= fecha ==> 0 <= Age(fecha) < CycleMs
    ensures fecha < LunasNuevas[0] ==> -CycleMs < Age(fecha) <= 0
  {
    NuevaMasCercanaIsLastAtOrBefore(fecha);
  }

  /** What `obtenerFaseLunar` returns, as a function of the date. */
  function FaseLunar(fecha: int): Phase {
    Classify(Age(fecha))
  }

  /** A date before the table gets a non-positive age, so it is always shown
      as a new moon. */
  lemma BeforeTableIsNew(fecha: int)
    requires fecha < LunasNuevas[0]
    ensures FaseLunar(fecha) == New
  {
    AgeRange(fecha);
  }

  /** The first tabulated instant is a new moon, and seven days later the
      moon is in its first quarter (7 days lies in [6.38, 8.38)). */
  lemma FaseLunarExamples()
    ensures FaseLunar(1730476020000) == New
    ensures FaseLunar(1730476020000 + 7 * DayMs) == FirstQuarter
  {
    TablesAscending();
    PriorIndexByScan(LunasNuevas, 1730476020000, 1);
    PriorIndexByScan(LunasNuevas, 1730476020000 + 7 * DayMs, 1);
  }

  /** `obtenerFaseLunar`: a forward scan of the new-moon table that keeps the
      latest entry at or before the date and stops at the first one after it,
      then the age and its classification. */
  method ObtenerFaseLunar(fecha: int) returns (fase: Phase)
    ensures fase == FaseLunar(fecha)
    ensures fecha < LunasNuevas[0] ==> fase == New
  {
    TablesAscending();
    var lunasNuevas := LunasNuevas;
    var masCercana := lunasNuevas[0];
    var i := 0;
    while i < |lunasNuevas|
      invariant 0 <= i <= |lunasNuevas|
      invariant forall j :: 0 <= j < i ==> lunasNuevas[j] <= fecha
      invariant masCercana == lunasNuevas[if i == 0 then 0 else i - 1]
    {
      if lunasNuevas[i] <= fecha {
        masCercana := lunasNuevas[i];
      } else {
        break;
      }
      i := i + 1;
    }
    PriorIndexByScan(lunasNuevas, fecha, i);
    var edad := TRem(fecha - masCercana, CycleMs);
    fase := Classify(edad);
  }
}
