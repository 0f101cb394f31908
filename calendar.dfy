/** The day loop of `generarCalendarioLunar`: one cell per day of the current
    month, each showing the phase emoji of that day's local midnight, and
    today's cell marked. The instant of each day's midnight is given by the caller. */
module Calendar {
  import opened LunarPhase

  /** A day of the calendar: its number, the phase emoji shown under it and
      whether it is today. */
  datatype Cell = Cell(dia: nat, fase: string, esHoy: bool)

  /** The Gregorian leap-year rule of JavaScript's `Date`. */
  predicate IsLeapYear(year: int) {
    (year % 4 == 0 && year % 100 != 0) || year % 400 == 0
  }

  /** The year the `Date` constructor uses for a year argument: 0 to 99
      stand for 1900 to 1999. */
  function ConstructorYear(year: int): int {
    if 0 <= year <= 99 then 1900 + year else year
  }

  /** `new Date(year, mes + 1, 0).getDate()`: day 0 of the next month is the
      last day of month `mes` (0 for January, 11 for December) of the year
      the constructor reads. */
  function DaysInMonth(year: int, mes: int): (n: nat)
    requires 0 <= mes < 12
    ensures 28 <= n <= 31
    ensures n == 29 <==> mes == 1 && IsLeapYear(ConstructorYear(year))
    ensures n == 28 <==> mes == 1 && !IsLeapYear(ConstructorYear(year))
    ensures n == 30 <==> mes in {3, 5, 8, 10}
  {
    if mes == 1 then (if IsLeapYear(ConstructorYear(year)) then 29 else 28)
    else if mes == 3 || mes == 5 || mes == 8 || mes == 10 then 30
    else 31
  }

  /** Year 0 is read as 1900, which is not a leap year, although 0 would
      be one; year 2000 is read as itself and is a leap year. */
  lemma TwoDigitYears()
    ensures IsLeapYear(0) && DaysInMonth(0, 1) == 28
    ensures DaysInMonth(2000, 1) == 29
  {
  }

  /** `generarCalendarioLunar` without the DOM: `medianoche(dia)` is the
      instant of `new Date(year, mes, dia)` and `hoy` is `hoy.getDate()`.
      Cell `dia` shows the emoji `obtenerFaseLunar` gives for that instant,
      and only the cell whose number is `hoy` is marked as today. */
  method GenerarCalendarioLunar(year: int, mes: int, hoy: int, medianoche: int -> int)
    returns (celdas: seq<Cell>)
    requires 0 <= mes < 12
    ensures |celdas| == DaysInMonth(year, mes)
    ensures forall i :: 0 <= i < |celdas| ==>
      celdas[i] == Cell(i + 1, Glyph(FaseLunar(medianoche(i + 1))), i + 1 == hoy)
    ensures forall i, j :: 0 <= i < j < |celdas| ==> !(celdas[i].esHoy && celdas[j].esHoy)
    ensures 1 <= hoy <= |celdas| ==> celdas[hoy - 1].esHoy
  {
    var diasEnMes := DaysInMonth(year, mes);
    celdas := [];
    for dia := 1 to diasEnMes + 1
      invariant |celdas| == dia - 1
      invariant forall i :: 0 <= i < |celdas| ==>
        celdas[i] == Cell(i + 1, Glyph(FaseLunar(medianoche(i + 1))), i + 1 == hoy)
    {
      var fecha := medianoche(dia);
      var faseLunar := ObtenerFaseLunar(fecha);
      var esHoy := dia == hoy;
      celdas := celdas + [Cell(dia, Glyph(faseLunar), esHoy)];
    }
  }
}
