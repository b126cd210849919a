/**
 * The due date the invoice generator computes, and the scheduler's own test for clients due
 * tomorrow. Both are modelled on one local civil calendar, to the nanosecond.
 */
module DueDate {
  import opened Calendar

  datatype Instant = Instant(date: Date, nanos: nat)

  const DAY_NANOS := 86400 * 1_000_000_000
  const END_OF_DAY := 86399 * 1_000_000_000
  const FIVE_PAST_MIDNIGHT := 300 * 1_000_000_000

  predicate ValidInstant(t: Instant) {
    Calendar.Valid(t.date) && t.nanos < DAY_NANOS
  }

  predicate Before(a: Instant, b: Instant) {
    Less(a.date, b.date) || (a.date == b.date && a.nanos < b.nanos)
  }

  function Clamp(day: int, y: int, m: int): int
    requires 1 <= m <= 12
  {
    if day > DaysIn(y, m) then DaysIn(y, m) else day
  }

  function EffectiveDay(now: Instant, dueDay: int): int {
    var dd := if dueDay < 1 then now.date.d else dueDay;
    if dd > 31 then 31 else dd
  }

  /** computeClientDueDate. */
  function ComputeDueDate(now: Instant, dueDay: int): Instant {
    var dd := EffectiveDay(now, dueDay);
    var lastDay := Norm(now.date.y, now.date.m + 1, 0).d;
    var day := if dd > lastDay then lastDay else dd;
    var due := Instant(Norm(now.date.y, now.date.m, day), END_OF_DAY);
    if Before(due, now) then
      var next := AddDate(now.date, 0, 1, 0);
      var nextLast := Norm(next.y, next.m + 1, 0).d;
      var nextDay := if dd > nextLast then nextLast else dd;
      Instant(Norm(next.y, next.m, nextDay), END_OF_DAY)
    else
      due
  }

  /** The 23:59:59 instant of the due day in a given month, the day clamped to the month. */
  function DueIn(y: int, m: int, dd: int): Instant
    requires 1 <= m <= 12
  {
    Instant(Date(y, m, Clamp(dd, y, m)), END_OF_DAY)
  }

  /** A clamped due-day instant of any month. */
  predicate IsDueInstant(t: Instant, dd: int) {
    Calendar.Valid(t.date) && t == DueIn(t.date.y, t.date.m, dd)
  }

  predicate RollsOver(now: Instant, dueDay: int)
    requires ValidInstant(now)
  {
    Before(DueIn(now.date.y, now.date.m, EffectiveDay(now, dueDay)), now)
  }

  /** The day of `now` exists in the month after it. */
  predicate DayExistsNextMonth(now: Instant)
    requires ValidInstant(now)
  {
    var (ny, nm) := NextMonth(now.date.y, now.date.m);
    now.date.d <= DaysIn(ny, nm)
  }

  /** What computeClientDueDate returns, month by month. */
  lemma DueDateByMonth(now: Instant, dueDay: int)
    requires ValidInstant(now)
    ensures var dd := EffectiveDay(now, dueDay);
      var (ny, nm) := NextMonth(now.date.y, now.date.m);
      var (sy, sm) := NextMonth(ny, nm);
      ComputeDueDate(now, dueDay) ==
        if !RollsOver(now, dueDay) then DueIn(now.date.y, now.date.m, dd)
        else if DayExistsNextMonth(now) then DueIn(ny, nm, dd)
        else DueIn(sy, sm, dd)
  {
    var dd := EffectiveDay(now, dueDay);
    LastDay(now.date.y, now.date.m);
    AddOneMonth(now.date);
    var next := AddDate(now.date, 0, 1, 0);
    LastDay(next.y, next.m);
  }

  /** Never in the past, at 23:59:59, on the due day clamped to the length of its month. */
  lemma DueDateShape(now: Instant, dueDay: int)
    requires ValidInstant(now)
    ensures var due := ComputeDueDate(now, dueDay);
      ValidInstant(due) && !Before(due, now) && IsDueInstant(due, EffectiveDay(now, dueDay))
    ensures var due := ComputeDueDate(now, dueDay);
      var wanted, last := if dueDay < 1 then now.date.d else dueDay, DaysIn(due.date.y, due.date.m);
      && due.date.d == (if wanted > last then last else wanted) && due.nanos == 86399 * 1_000_000_000
      && (Less(now.date, due.date) || (now.date == due.date && now.nanos <= due.nanos))
  {
    DueDateByMonth(now, dueDay);
  }

  ghost predicate IsEarliestDue(t: Instant, now: Instant, dd: int) {
    && IsDueInstant(t, dd) && !Before(t, now)
    && forall u :: IsDueInstant(u, dd) && !Before(u, now) ==> !Before(u, t)
  }

  /** The result is the earliest due instant from now on, exactly when it does not skip a month. */
  lemma DueDateEarliest(now: Instant, dueDay: int)
    requires ValidInstant(now)
    ensures IsEarliestDue(ComputeDueDate(now, dueDay), now, EffectiveDay(now, dueDay))
      <==> (!RollsOver(now, dueDay) || DayExistsNextMonth(now))
  {
    var due, dd := ComputeDueDate(now, dueDay), EffectiveDay(now, dueDay);
    DueDateByMonth(now, dueDay);
    DueDateShape(now, dueDay);
    if RollsOver(now, dueDay) && !DayExistsNextMonth(now) {
      var (ny, nm) := NextMonth(now.date.y, now.date.m);
      var skipped := DueIn(ny, nm, dd);
      assert IsDueInstant(skipped, dd) && !Before(skipped, now) && Before(skipped, due);
    }
  }

  /** When it is not the earliest, the earliest is one month earlier: the month that was skipped. */
  lemma DueDateSkipsOneMonth(now: Instant, dueDay: int)
    requires ValidInstant(now) && RollsOver(now, dueDay) && !DayExistsNextMonth(now)
    ensures var (ny, nm) := NextMonth(now.date.y, now.date.m);
      var due := ComputeDueDate(now, dueDay);
      && IsEarliestDue(DueIn(ny, nm, EffectiveDay(now, dueDay)), now, EffectiveDay(now, dueDay))
      && (due.date.y, due.date.m) == NextMonth(ny, nm)
  {
    DueDateByMonth(now, dueDay);
  }

  /** A day that skips: on 31 January, due day 5, the result is 5 March although 5 February is to come. */
  lemma DueDateSkipsFebruary()
    ensures var now := Instant(Date(2025, 1, 31), FIVE_PAST_MIDNIGHT);
      && ComputeDueDate(now, 5) == Instant(Date(2025, 3, 5), END_OF_DAY)
      && IsEarliestDue(Instant(Date(2025, 2, 5), END_OF_DAY), now, 5)
  {
    var now := Instant(Date(2025, 1, 31), FIVE_PAST_MIDNIGHT);
    DueDateByMonth(now, 5);
    DueDateSkipsOneMonth(now, 5);
  }

  // ---------- the scheduler ----------

  /** isDueTomorrow. */
  predicate IsDueTomorrow(tomorrow: Date, dueDay: int) {
    dueDay >= 1 &&
    var last := Norm(tomorrow.y, tomorrow.m + 1, 0).d;
    tomorrow.d == if dueDay > last then last else dueDay
  }

  /** A day is a client's due day exactly when it is the payment day clamped to the length of its month. */
  lemma DueTomorrowExactly(tomorrow: Date, dueDay: int)
    requires Calendar.Valid(tomorrow)
    ensures IsDueTomorrow(tomorrow, dueDay) <==>
      var last := DaysIn(tomorrow.y, tomorrow.m);
      dueDay >= 1 && tomorrow.d == if dueDay > last then last else dueDay
  {
    LastDay(tomorrow.y, tomorrow.m);
  }

  /** So every month has exactly one such day for each payment day. */
  lemma OneDueDayAMonth(y: int, m: int, dueDay: int) returns (d: int)
    requires 1 <= m <= 12 && dueDay >= 1
    ensures Calendar.Valid(Date(y, m, d)) && IsDueTomorrow(Date(y, m, d), dueDay)
    ensures forall e :: Calendar.Valid(Date(y, m, e)) && IsDueTomorrow(Date(y, m, e), dueDay) ==> e == d
  {
    d := Clamp(dueDay, y, m);
    LastDay(y, m);
  }

  function Tomorrow(now: Instant): Date {
    AddDate(now.date, 0, 0, 1)
  }

  datatype Period = Period(start: Date, end: Date)

  /** The first and last day of the month of a date, as both the scheduler and the generator compute them. */
  function PeriodOf(a: Date): Period {
    var start := Norm(a.y, a.m, 1);
    Period(start, AddDate(start, 0, 1, -1))
  }

  lemma PeriodIsMonth(a: Date)
    requires Calendar.Valid(a)
    ensures PeriodOf(a) == Period(Date(a.y, a.m, 1), Date(a.y, a.m, DaysIn(a.y, a.m)))
  {
    LastDayFromFirst(a.y, a.m);
  }

  /**
   * For a client the scheduler finds due tomorrow, the generator's due date is tomorrow, and
   * its invoice period is the one the scheduler checked, exactly when tomorrow is in this
   * month or today's day exists in the next.
   */
  lemma SchedulerAgrees(now: Instant, dueDay: int)
    requires ValidInstant(now) && IsDueTomorrow(Tomorrow(now), dueDay)
    ensures var due := ComputeDueDate(now, dueDay);
      var agree := Tomorrow(now).d != 1 || DayExistsNextMonth(now);
      && (due.date == Tomorrow(now) <==> agree)
      && (PeriodOf(due.date) == PeriodOf(Tomorrow(now)) <==> agree)
  {
    var tomorrow := Tomorrow(now);
    AddOneDay(now.date);
    LastDay(tomorrow.y, tomorrow.m);
    DueDateByMonth(now, dueDay);
    PeriodIsMonth(tomorrow);
    PeriodIsMonth(ComputeDueDate(now, dueDay).date);
  }

  /** A day on which they disagree: 31 January, due day 1. The scheduler checks February, the invoice is for March. */
  lemma SchedulerDisagreesOnJanuary31()
    ensures var now := Instant(Date(2025, 1, 31), FIVE_PAST_MIDNIGHT);
      && IsDueTomorrow(Tomorrow(now), 1) && Tomorrow(now) == Date(2025, 2, 1)
      && ComputeDueDate(now, 1).date == Date(2025, 3, 1)
  {
    var now := Instant(Date(2025, 1, 31), FIVE_PAST_MIDNIGHT);
    AddOneDay(now.date);
    LastDay(2025, 2);
    DueDateByMonth(now, 1);
  }

  // ---------- the daily timer ----------

  /** The time StartDailyScheduler waits for. */
  function NextRun(now: Instant): Instant {
    var today := Instant(Norm(now.date.y, now.date.m, now.date.d), FIVE_PAST_MIDNIGHT);
    if Before(now, today) then today else Instant(AddDate(today.date, 0, 0, 1), FIVE_PAST_MIDNIGHT)
  }

  /** It is the earliest 00:05 strictly after now: no day is missed and none runs twice. */
  lemma NextRunIsEarliest(now: Instant, u: Instant)
    requires ValidInstant(now)
    ensures ValidInstant(NextRun(now)) && NextRun(now).nanos == 5 * 60 * 1_000_000_000 && Before(now, NextRun(now))
    ensures ValidInstant(u) && u.nanos == 5 * 60 * 1_000_000_000 && Before(now, u) ==> !Before(u, NextRun(now))
  {
    AddOneDay(now.date);
    if ValidInstant(u) {
      DayNumberOrders(now.date, u.date);
      DayNumberOrders(u.date, AddDate(now.date, 0, 0, 1));
    }
  }
}
