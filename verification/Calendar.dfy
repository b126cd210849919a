/**
 * The proleptic Gregorian calendar with the normalisation of Go's time.Date and AddDate:
 * out-of-range months and days carry into the neighbouring months. A closed-form day count
 * is the reference the normalisation is proved against.
 */
module Calendar {

  datatype Date = Date(y: int, m: int, d: int)

  predicate IsLeap(y: int) {
    y % 4 == 0 && (y % 100 != 0 || y % 400 == 0)
  }

  function DaysIn(y: int, m: int): (n: int)
    requires 1 <= m <= 12
    ensures 28 <= n <= 31
  {
    if m == 2 then (if IsLeap(y) then 29 else 28)
    else if m == 4 || m == 6 || m == 9 || m == 11 then 30
    else 31
  }

  predicate Valid(a: Date) {
    1 <= a.m <= 12 && 1 <= a.d <= DaysIn(a.y, a.m)
  }

  predicate Less(a: Date, b: Date) {
    a.y < b.y || (a.y == b.y && (a.m < b.m || (a.m == b.m && a.d < b.d)))
  }

  function NextMonth(y: int, m: int): (int, int) {
    if m == 12 then (y + 1, 1) else (y, m + 1)
  }

  function PreviousMonth(y: int, m: int): (int, int) {
    if m == 1 then (y - 1, 12) else (y, m - 1)
  }

  /** time.Date(y, m, d, ...) read back as a civil date. */
  function Norm(y: int, m: int, d: int): (a: Date)
    ensures Valid(a)
    decreases if d < 1 then 100 - d else d, if 1 <= m <= 12 then 0 else 1
  {
    if m < 1 || m > 12 then
      Norm(y + (m - 1) / 12, (m - 1) % 12 + 1, d)
    else if d < 1 then
      var (py, pm) := PreviousMonth(y, m);
      Norm(py, pm, d + DaysIn(py, pm))
    else if d > DaysIn(y, m) then
      var (ny, nm) := NextMonth(y, m);
      Norm(ny, nm, d - DaysIn(y, m))
    else
      Date(y, m, d)
  }

  function AddDate(a: Date, years: int, months: int, days: int): Date {
    Norm(a.y + years, a.m + months, a.d + days)
  }

  // ---------- the reference: a closed-form day count ----------

  function DaysBeforeYear(y: int): int {
    365 * (y - 1) + (y - 1) / 4 - (y - 1) / 100 + (y - 1) / 400
  }

  function DaysBeforeMonth(y: int, m: int): int
    requires 1 <= m <= 12
  {
    [0, 31, 59, 90, 120, 151, 181, 212, 243, 273, 304, 334][m - 1] + if m > 2 && IsLeap(y) then 1 else 0
  }

  function MonthStart(y: int, m: int): int
    requires 1 <= m <= 12
  {
    DaysBeforeYear(y) + DaysBeforeMonth(y, m)
  }

  function DayNumber(a: Date): int
    requires 1 <= a.m <= 12
  {
    MonthStart(a.y, a.m) + a.d - 1
  }

  lemma Fourths(y: int)
    ensures y / 4 == (y - 1) / 4 + if y % 4 == 0 then 1 else 0
    ensures y % 100 == 0 ==> y % 4 == 0
  {
  }

  lemma Centuries(y: int)
    ensures y / 100 == (y - 1) / 100 + if y % 100 == 0 then 1 else 0
    ensures y / 400 == (y - 1) / 400 + if y % 400 == 0 then 1 else 0
    ensures y % 400 == 0 ==> y % 100 == 0
  {
  }

  lemma YearLength(y: int)
    ensures DaysBeforeYear(y + 1) == DaysBeforeYear(y) + if IsLeap(y) then 366 else 365
  {
    Fourths(y);
    Centuries(y);
  }

  lemma MonthLength(y: int, m: int)
    requires 1 <= m <= 12
    ensures var (ny, nm) := NextMonth(y, m); MonthStart(ny, nm) == MonthStart(y, m) + DaysIn(y, m)
  {
    if m == 12 {
      YearLength(y);
    }
  }

  /** Normalising never changes which day is meant. */
  lemma {:induction false} NormKeepsDay(y: int, m: int, d: int)
    requires 1 <= m <= 12
    ensures DayNumber(Norm(y, m, d)) == MonthStart(y, m) + d - 1
    decreases if d < 1 then 100 - d else d
  {
    hide MonthStart;
    if d < 1 {
      var (py, pm) := PreviousMonth(y, m);
      MonthLength(py, pm);
      NormKeepsDay(py, pm, d + DaysIn(py, pm));
    } else if d > DaysIn(y, m) {
      var (ny, nm) := NextMonth(y, m);
      MonthLength(y, m);
      NormKeepsDay(ny, nm, d - DaysIn(y, m));
    }
  }

  lemma {:induction false} LaterMonthStartsLater(y: int, m: int, y': int, m': int)
    requires 1 <= m <= 12 && 1 <= m' <= 12
    requires y < y' || (y == y' && m < m')
    ensures MonthStart(y, m) + DaysIn(y, m) <= MonthStart(y', m')
    decreases (y' - y) * 12 + m' - m
  {
    var (ny, nm) := NextMonth(y, m);
    MonthLength(y, m);
    if (ny, nm) != (y', m') {
      LaterMonthStartsLater(ny, nm, y', m');
    }
  }

  /** The day count orders valid dates as the calendar does; so it is also injective. */
  lemma DayNumberOrders(a: Date, b: Date)
    requires Valid(a) && Valid(b)
    ensures Less(a, b) <==> DayNumber(a) < DayNumber(b)
    ensures a == b <==> DayNumber(a) == DayNumber(b)
  {
    if a.y < b.y || (a.y == b.y && a.m < b.m) {
      LaterMonthStartsLater(a.y, a.m, b.y, b.m);
    } else if b.y < a.y || (a.y == b.y && b.m < a.m) {
      LaterMonthStartsLater(b.y, b.m, a.y, a.m);
    }
  }

  // ---------- the four uses the billing code makes of normalisation ----------

  /** time.Date(y, m + 1, 0, ...) is the last day of month m. */
  lemma LastDay(y: int, m: int)
    requires 1 <= m <= 12
    ensures Norm(y, m + 1, 0) == Date(y, m, DaysIn(y, m))
  {
    var (ny, nm) := NextMonth(y, m);
    assert Norm(y, m + 1, 0) == Norm(ny, nm, 0);
  }

  /** AddDate(0, 1, 0) keeps the day when next month has it and else spills into the month after. */
  lemma AddOneMonth(a: Date)
    requires Valid(a)
    ensures var (ny, nm) := NextMonth(a.y, a.m);
      AddDate(a, 0, 1, 0) ==
        if a.d <= DaysIn(ny, nm) then Date(ny, nm, a.d)
        else var (y2, m2) := NextMonth(ny, nm); Date(y2, m2, a.d - DaysIn(ny, nm))
  {
    var (ny, nm) := NextMonth(a.y, a.m);
    assert Norm(a.y, a.m + 1, a.d) == Norm(ny, nm, a.d);
    if a.d > DaysIn(ny, nm) {
      var (sy, sm) := NextMonth(ny, nm);
      assert Norm(ny, nm, a.d) == Norm(sy, sm, a.d - DaysIn(ny, nm)) == Date(sy, sm, a.d - DaysIn(ny, nm));
    }
  }

  /** AddDate(0, 0, 1) is the next day. */
  lemma AddOneDay(a: Date)
    requires Valid(a)
    ensures var t := AddDate(a, 0, 0, 1);
      && DayNumber(t) == DayNumber(a) + 1
      && t == if a.d < DaysIn(a.y, a.m) then Date(a.y, a.m, a.d + 1) else var (ny, nm) := NextMonth(a.y, a.m); Date(ny, nm, 1)
  {
    NormKeepsDay(a.y, a.m, a.d + 1);
  }

  /** AddDate(0, 1, -1) from the first of a month is its last day. */
  lemma LastDayFromFirst(y: int, m: int)
    requires 1 <= m <= 12
    ensures AddDate(Date(y, m, 1), 0, 1, -1) == Date(y, m, DaysIn(y, m))
  {
    LastDay(y, m);
  }
}
