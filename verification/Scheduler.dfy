/** The daily invoice job: which clients it visits, what it adds, and what running it again adds. */
module Scheduler {
  import opened Options
  import opened InvoiceNumber
  import Calendar
  import opened DueDate
  import opened Billing
  import opened BillingService

  datatype TenantRow = TenantRow(id: Id, active: bool)

  // ---------- one visit ----------

  predicate IsCovered(invoices: seq<Invoice>, c: ClientRow, period: Period) {
    ExistsFor(invoices, c.tenant, c.client, period)
  }

  /** The job generates for a client due tomorrow that has no invoice for tomorrow's month. */
  predicate Generates(invoices: seq<Invoice>, c: ClientRow, now: Instant) {
    IsDueTomorrow(Tomorrow(now), c.dueDay) && !IsCovered(invoices, c, PeriodOf(Tomorrow(now)))
  }

  function Visit(invoices: seq<Invoice>, c: ClientRow, now: Instant): seq<Invoice>
    requires ValidNow(now)
  {
    if Generates(invoices, c, now) then AfterGenerate(invoices, c, now) else invoices
  }

  function JobOver(invoices: seq<Invoice>, clients: seq<ClientRow>, now: Instant): seq<Invoice>
    requires ValidNow(now)
  {
    if clients == [] then invoices
    else Visit(JobOver(invoices, clients[..|clients| - 1], now), clients[|clients| - 1], now)
  }

  lemma VisitShape(invoices: seq<Invoice>, c: ClientRow, now: Instant)
    requires ValidNow(now) && Numbered(invoices)
    ensures Numbered(Visit(invoices, c, now))
    ensures UniquePeriods(invoices) ==> UniquePeriods(Visit(invoices, c, now))
    ensures var due := DueFor(invoices, c, now);
      Visit(invoices, c, now) ==
        if Generates(invoices, c, now) && c.price.Some? && !IsCovered(invoices, c, PeriodOf(due))
        then invoices + [NewInvoice(invoices, MonthlyRequest(c, due), MonthOf(now.date))]
        else invoices
  {
    hide Numbered, NewInvoice, WithInvoice, UniquePeriods, DueFor, PeriodOf;
    if Generates(invoices, c, now) {
      if UniquePeriods(invoices) { GenerateKeepsUnique(invoices, c, now); }
      if c.price.Some? {
        WithInvoiceNumbered(invoices, MonthlyRequest(c, DueFor(invoices, c, now)), MonthOf(now.date));
      }
    }
  }

  /** Rows were added at the end of the table, if anything. */
  predicate Grown(before: seq<Invoice>, after: seq<Invoice>) {
    before <= after
  }

  lemma CoverGrows(before: seq<Invoice>, after: seq<Invoice>, c: ClientRow, period: Period)
    requires Grown(before, after)
    ensures IsCovered(before, c, period) ==> IsCovered(after, c, period)
    ensures HasAny(before, c.tenant, c.client) ==> HasAny(after, c.tenant, c.client)
  {
    if i :| 0 <= i < |before| && Covers(before[i], c.tenant, c.client, period) {
      assert Covers(after[i], c.tenant, c.client, period);
    }
    if i :| 0 <= i < |before| && before[i].tenant == c.tenant && before[i].client == c.client {
      assert after[i] == before[i];
    }
  }

  lemma CoveredHasAny(invoices: seq<Invoice>, c: ClientRow, period: Period)
    ensures IsCovered(invoices, c, period) ==> HasAny(invoices, c.tenant, c.client)
  {
    if i :| 0 <= i < |invoices| && Covers(invoices[i], c.tenant, c.client, period) {
      assert invoices[i].tenant == c.tenant && invoices[i].client == c.client;
    }
  }

  // ---------- settled clients ----------

  /** A visit at `now` has nothing left to add for the client, however the table grows. */
  predicate Settled(invoices: seq<Invoice>, c: ClientRow, now: Instant) {
    || c.price.None?
    || !Generates(invoices, c, now)
    || (Started(invoices, c) && IsCovered(invoices, c, PeriodOf(ComputeDueDate(now, c.dueDay).date)))
  }

  /** The creation date no longer decides the due date. */
  predicate Started(invoices: seq<Invoice>, c: ClientRow) {
    !c.template || HasAny(invoices, c.tenant, c.client)
  }

  /** Settled, or past the one invoice of a template client dated by its creation. */
  predicate Ready(invoices: seq<Invoice>, c: ClientRow, now: Instant) {
    Settled(invoices, c, now) || Started(invoices, c)
  }

  lemma SettledGrows(before: seq<Invoice>, after: seq<Invoice>, c: ClientRow, now: Instant)
    requires Grown(before, after)
    ensures Settled(before, c, now) ==> Settled(after, c, now)
    ensures Ready(before, c, now) ==> Ready(after, c, now)
  {
    hide PeriodOf, ComputeDueDate, IsCovered, HasAny, IsDueTomorrow;
    CoverGrows(before, after, c, PeriodOf(Tomorrow(now)));
    CoverGrows(before, after, c, PeriodOf(ComputeDueDate(now, c.dueDay).date));
  }

  /** A visit adds nothing for a settled client, settles a ready one, and makes any client ready. */
  lemma VisitSettles(invoices: seq<Invoice>, c: ClientRow, now: Instant)
    requires ValidNow(now) && Numbered(invoices)
    ensures var after := Visit(invoices, c, now);
      && Grown(invoices, after) && Numbered(after)
      && (Settled(invoices, c, now) ==> after == invoices)
      && (Ready(invoices, c, now) ==> Settled(after, c, now))
      && Ready(after, c, now)
  {
    hide PeriodOf, ComputeDueDate, Tomorrow, IsDueTomorrow, Numbered, UniquePeriods, NextNumber, Visit;
    VisitShape(invoices, c, now);
    var after, due := Visit(invoices, c, now), DueFor(invoices, c, now);
    CoveredHasAny(invoices, c, PeriodOf(due));
    if after != invoices {
      assert Covers(after[|invoices|], c.tenant, c.client, PeriodOf(due));
      assert after[|invoices|].tenant == c.tenant && after[|invoices|].client == c.client;
    }
  }

  // ---------- whole jobs ----------

  /** A job only appends, keeps numbers and the one-invoice rule, and moves every client it visits one stage on. */
  lemma {:induction false} JobSettles(invoices: seq<Invoice>, clients: seq<ClientRow>, now: Instant)
    requires ValidNow(now) && Numbered(invoices)
    ensures var after := JobOver(invoices, clients, now);
      && Grown(invoices, after) && Numbered(after)
      && (UniquePeriods(invoices) ==> UniquePeriods(after))
      && forall c :: c in clients ==> Ready(after, c, now) && (Ready(invoices, c, now) ==> Settled(after, c, now))
  {
    hide Ready, Settled, Numbered, UniquePeriods, Visit;
    if clients != [] {
      var front, last := clients[..|clients| - 1], clients[|clients| - 1];
      JobSettles(invoices, front, now);
      var middle, after := JobOver(invoices, front, now), JobOver(invoices, clients, now);
      VisitShape(middle, last, now);
      VisitSettles(middle, last, now);
      forall c | c in clients ensures Ready(after, c, now) && (Ready(invoices, c, now) ==> Settled(after, c, now)) {
        SettledGrows(invoices, middle, c, now);
        SettledGrows(middle, after, c, now);
        assert c in front || c == last;
      }
    }
  }

  predicate IsFor(inv: Invoice, c: ClientRow) {
    inv.tenant == c.tenant && inv.client == c.client
  }

  /** What a job adds is only for clients that were not settled. */
  lemma {:induction false} JobAddsForUnsettled(invoices: seq<Invoice>, clients: seq<ClientRow>, now: Instant, i: nat)
    requires ValidNow(now) && Numbered(invoices) && |invoices| <= i < |JobOver(invoices, clients, now)|
    ensures exists c :: c in clients && !Settled(invoices, c, now) && IsFor(JobOver(invoices, clients, now)[i], c)
  {
    hide Settled, Numbered, Visit, Generates, PeriodOf, DueFor, NextNumber, UniquePeriods;
    var front, last := clients[..|clients| - 1], clients[|clients| - 1];
    var middle := JobOver(invoices, front, now);
    JobSettles(invoices, front, now);
    VisitShape(middle, last, now);
    if i < |middle| {
      JobAddsForUnsettled(invoices, front, now, i);
    } else {
      VisitSettles(middle, last, now);
      SettledGrows(invoices, middle, last, now);
    }
  }

  /** A second job at the same time adds invoices only for template clients. */
  lemma SecondJob(invoices: seq<Invoice>, clients: seq<ClientRow>, now: Instant, i: nat)
    requires ValidNow(now) && Numbered(invoices)
    requires var once := JobOver(invoices, clients, now); |once| <= i < |JobOver(once, clients, now)|
    ensures var twice := JobOver(JobOver(invoices, clients, now), clients, now);
      exists c :: c in clients && c.template && !Started(invoices, c) && IsFor(twice[i], c)
  {
    hide Settled, Numbered, UniquePeriods, Started;
    var once := JobOver(invoices, clients, now);
    JobSettles(invoices, clients, now);
    JobAddsForUnsettled(once, clients, now, i);
    var c :| c in clients && !Settled(once, c, now) && IsFor(JobOver(once, clients, now)[i], c);
    assert !Started(invoices, c);
    TemplateUnlessStarted(invoices, c);
  }

  lemma TemplateUnlessStarted(invoices: seq<Invoice>, c: ClientRow)
    ensures !c.template ==> Started(invoices, c)
  {
  }

  /** A third job adds nothing at all; a second adds nothing when no client is of the template kind. */
  lemma JobsSettle(invoices: seq<Invoice>, clients: seq<ClientRow>, now: Instant)
    requires ValidNow(now) && Numbered(invoices)
    ensures var once := JobOver(invoices, clients, now);
      var twice := JobOver(once, clients, now);
      && JobOver(twice, clients, now) == twice
      && ((forall c :: c in clients ==> !c.template) ==> twice == once)
  {
    hide Settled, Numbered, UniquePeriods, Started;
    var once := JobOver(invoices, clients, now);
    var twice := JobOver(once, clients, now);
    var thrice := JobOver(twice, clients, now);
    JobSettles(invoices, clients, now);
    JobSettles(once, clients, now);
    JobSettles(twice, clients, now);
    if |thrice| > |twice| {
      JobAddsForUnsettled(twice, clients, now, |twice|);
    }
    if |twice| > |once| {
      SecondJob(invoices, clients, now, |once|);
    }
  }

  /** A new template client gets a second invoice from a second visit exactly when its creation month is neither month concerned. */
  lemma TemplateSecondVisit(invoices: seq<Invoice>, c: ClientRow, now: Instant)
    requires ValidNow(now) && Numbered(invoices)
    requires c.template && c.price.Some? && !HasAny(invoices, c.tenant, c.client) && IsDueTomorrow(Tomorrow(now), c.dueDay)
    ensures var once := Visit(invoices, c, now);
      |once| == |invoices| + 1 && once[|invoices|].due == c.createdAt
    ensures var once := Visit(invoices, c, now);
      Visit(once, c, now) != once <==>
        PeriodOf(c.createdAt) != PeriodOf(Tomorrow(now)) && PeriodOf(c.createdAt) != PeriodOf(ComputeDueDate(now, c.dueDay).date)
  {
    hide PeriodOf, ComputeDueDate, Tomorrow, IsDueTomorrow, Numbered, UniquePeriods, NextNumber, Visit;
    forall i | 0 <= i < |invoices| ensures forall p :: !Covers(invoices[i], c.tenant, c.client, p) {
    }
    VisitShape(invoices, c, now);
    var once := Visit(invoices, c, now);
    VisitShape(once, c, now);
    assert once[|invoices|].tenant == c.tenant && once[|invoices|].client == c.client;
    assert Covers(once[|invoices|], c.tenant, c.client, PeriodOf(c.createdAt));
  }

  // ---------- exactly when a second job adds ----------

  predicate DistinctClients(clients: seq<ClientRow>) {
    forall i, j :: 0 <= i < j < |clients| ==> (clients[i].tenant, clients[i].client) != (clients[j].tenant, clients[j].client)
  }

  /** A template client without invoices, due tomorrow, created in neither month concerned. */
  predicate AddsTwice(invoices: seq<Invoice>, c: ClientRow, now: Instant) {
    && c.template && c.price.Some? && !HasAny(invoices, c.tenant, c.client)
    && IsDueTomorrow(Tomorrow(now), c.dueDay)
    && PeriodOf(c.createdAt) != PeriodOf(Tomorrow(now))
    && PeriodOf(c.createdAt) != PeriodOf(ComputeDueDate(now, c.dueDay).date)
  }

  /** The rows added since are all of other clients. */
  predicate SameFor(before: seq<Invoice>, after: seq<Invoice>, c: ClientRow) {
    before <= after && forall i :: |before| <= i < |after| ==> !IsFor(after[i], c)
  }

  lemma SameCover(before: seq<Invoice>, after: seq<Invoice>, c: ClientRow, period: Period)
    requires SameFor(before, after, c)
    ensures IsCovered(before, c, period) <==> IsCovered(after, c, period)
    ensures HasAny(before, c.tenant, c.client) <==> HasAny(after, c.tenant, c.client)
  {
    CoverGrows(before, after, c, period);
    if i :| 0 <= i < |after| && Covers(after[i], c.tenant, c.client, period) {
      assert IsFor(after[i], c) && Covers(before[i], c.tenant, c.client, period);
    }
    if i :| 0 <= i < |after| && after[i].tenant == c.tenant && after[i].client == c.client {
      assert IsFor(after[i], c) && before[i] == after[i];
    }
  }

  lemma SameStage(before: seq<Invoice>, after: seq<Invoice>, c: ClientRow, now: Instant)
    requires SameFor(before, after, c)
    ensures Settled(before, c, now) <==> Settled(after, c, now)
    ensures AddsTwice(before, c, now) <==> AddsTwice(after, c, now)
  {
    hide PeriodOf, ComputeDueDate, IsCovered, HasAny, IsDueTomorrow, SameFor;
    SameCover(before, after, c, PeriodOf(Tomorrow(now)));
    SameCover(before, after, c, PeriodOf(ComputeDueDate(now, c.dueDay).date));
  }

  /** A job over other clients does not touch this one's invoices. */
  lemma {:induction false} JobSameFor(invoices: seq<Invoice>, clients: seq<ClientRow>, c: ClientRow, now: Instant)
    requires ValidNow(now) && Numbered(invoices)
    requires forall i :: 0 <= i < |clients| ==> (clients[i].tenant, clients[i].client) != (c.tenant, c.client)
    ensures SameFor(invoices, JobOver(invoices, clients, now), c)
  {
    hide Numbered, Visit, Generates, PeriodOf, DueFor, NextNumber, UniquePeriods;
    if clients != [] {
      var front, last := clients[..|clients| - 1], clients[|clients| - 1];
      JobSameFor(invoices, front, c, now);
      JobSettles(invoices, front, now);
      VisitShape(JobOver(invoices, front, now), last, now);
    }
  }

  lemma VisitAddsExactly(invoices: seq<Invoice>, c: ClientRow, now: Instant)
    requires ValidNow(now) && Numbered(invoices)
    ensures Visit(invoices, c, now) != invoices <==> !Settled(invoices, c, now)
  {
    hide PeriodOf, ComputeDueDate, Tomorrow, IsDueTomorrow, Numbered, UniquePeriods, NextNumber, Visit;
    VisitShape(invoices, c, now);
    CoveredHasAny(invoices, c, PeriodOf(DueFor(invoices, c, now)));
  }

  lemma UnsettledAfterVisit(invoices: seq<Invoice>, c: ClientRow, now: Instant)
    requires ValidNow(now) && Numbered(invoices)
    ensures !Settled(Visit(invoices, c, now), c, now) <==> AddsTwice(invoices, c, now)
  {
    hide PeriodOf, ComputeDueDate, Tomorrow, IsDueTomorrow, Numbered, UniquePeriods, NextNumber, Visit;
    VisitSettles(invoices, c, now);
    CoveredHasAny(invoices, c, PeriodOf(Tomorrow(now)));
    if c.template && c.price.Some? && !HasAny(invoices, c.tenant, c.client) && IsDueTomorrow(Tomorrow(now), c.dueDay) {
      TemplateSecondVisit(invoices, c, now);
      VisitAddsExactly(Visit(invoices, c, now), c, now);
    }
  }

  lemma UnsettledAfterJob(invoices: seq<Invoice>, clients: seq<ClientRow>, k: nat, now: Instant)
    requires ValidNow(now) && Numbered(invoices) && DistinctClients(clients) && k < |clients|
    ensures !Settled(JobOver(invoices, clients, now), clients[k], now) <==> AddsTwice(invoices, clients[k], now)
  {
    hide Numbered, UniquePeriods, Settled, AddsTwice, Visit, SameFor;
    var c, before := clients[k], JobOver(invoices, clients[..k], now);
    JobSettles(invoices, clients[..k], now);
    JobSameFor(invoices, clients[..k], c, now);
    SameStage(invoices, before, c, now);
    UnsettledAfterVisit(before, c, now);
    VisitSettles(before, c, now);
    JobSameFor(Visit(before, c, now), clients[k + 1..], c, now);
    JobFrom(invoices, clients, k, now);
    SameStage(Visit(before, c, now), JobOver(invoices, clients, now), c, now);
  }

  /** A job is what precedes a client, the visit of that client, and the rest. */
  lemma JobFrom(invoices: seq<Invoice>, clients: seq<ClientRow>, k: nat, now: Instant)
    requires ValidNow(now) && k < |clients|
    ensures JobOver(invoices, clients, now) ==
      JobOver(Visit(JobOver(invoices, clients[..k], now), clients[k], now), clients[k + 1..], now)
  {
    hide Visit;
    assert clients == clients[..k + 1] + clients[k + 1..] && clients[..k + 1][..k] == clients[..k];
    JobOverSplit(invoices, clients[..k + 1], clients[k + 1..], now);
  }

  lemma JobAddsForClient(invoices: seq<Invoice>, clients: seq<ClientRow>, k: nat, now: Instant)
    requires ValidNow(now) && Numbered(invoices) && DistinctClients(clients) && k < |clients| && !Settled(invoices, clients[k], now)
    ensures JobOver(invoices, clients, now) != invoices
  {
    hide Numbered, UniquePeriods, Settled, Visit;
    var c, before := clients[k], JobOver(invoices, clients[..k], now);
    JobSettles(invoices, clients[..k], now);
    JobSameFor(invoices, clients[..k], c, now);
    SameStage(invoices, before, c, now);
    VisitAddsExactly(before, c, now);
    VisitSettles(before, c, now);
    JobSettles(Visit(before, c, now), clients[k + 1..], now);
    JobFrom(invoices, clients, k, now);
  }

  /** A second job at the same time adds an invoice exactly when some client is of that kind before the first. */
  lemma SecondJobExactly(invoices: seq<Invoice>, clients: seq<ClientRow>, now: Instant)
    requires ValidNow(now) && Numbered(invoices) && DistinctClients(clients)
    ensures var once := JobOver(invoices, clients, now);
      JobOver(once, clients, now) != once <==> exists k :: 0 <= k < |clients| && AddsTwice(invoices, clients[k], now)
  {
    hide Numbered, UniquePeriods, Settled, AddsTwice, JobOver;
    var once := JobOver(invoices, clients, now);
    JobSettles(invoices, clients, now);
    JobSettles(once, clients, now);
    forall k | 0 <= k < |clients| ensures !Settled(once, clients[k], now) <==> AddsTwice(invoices, clients[k], now) {
      UnsettledAfterJob(invoices, clients, k, now);
    }
    if k :| 0 <= k < |clients| && AddsTwice(invoices, clients[k], now) {
      JobAddsForClient(once, clients, k, now);
    }
    if |JobOver(once, clients, now)| > |once| {
      JobAddsForUnsettled(once, clients, now, |once|);
    }
  }

  /** Such a client: created in December, due on the 10th, and two jobs on 9 February. */
  lemma SecondJobAdds()
    ensures var c := ClientRow(1, 2, true, 10, Calendar.Date(2024, 12, 3), Some(5), true);
      var now := Instant(Calendar.Date(2025, 2, 9), FIVE_PAST_MIDNIGHT);
      var once := JobOver([], [c], now);
      |once| == 1 && |JobOver(once, [c], now)| == 2
  {
    var c := ClientRow(1, 2, true, 10, Calendar.Date(2024, 12, 3), Some(5), true);
    var now := Instant(Calendar.Date(2025, 2, 9), FIVE_PAST_MIDNIGHT);
    var due := Calendar.Date(2025, 2, 10);
    assert IsDueTomorrow(Tomorrow(now), 10) && Tomorrow(now) == due by {
      Calendar.AddOneDay(now.date);
      Calendar.LastDay(2025, 2);
    }
    assert ComputeDueDate(now, 10).date == due by { DueDateByMonth(now, 10); }
    PeriodIsMonth(due);
    PeriodIsMonth(c.createdAt);
    hide PeriodOf, ComputeDueDate, Tomorrow, IsDueTomorrow, NextNumber, Visit;
    TemplateSecondVisit([], c, now);
    var once := Visit([], c, now);
    VisitSettles([], c, now);
    VisitShape(once, c, now);
    assert [c][..0] == [];
    assert JobOver([], [c], now) == Visit(JobOver([], [], now), c, now) == once;
    assert JobOver(once, [c], now) == Visit(JobOver(once, [], now), c, now) == Visit(once, c, now);
  }

  /** When the job generates for a client with invoices or without a template, the new invoice is due tomorrow exactly when the two computations agree. */
  lemma VisitCoversTomorrow(invoices: seq<Invoice>, c: ClientRow, now: Instant)
    requires ValidNow(now) && Numbered(invoices)
    requires Generates(invoices, c, now) && c.price.Some? && Started(invoices, c)
    ensures IsCovered(Visit(invoices, c, now), c, PeriodOf(Tomorrow(now))) <==> (Tomorrow(now).d != 1 || DayExistsNextMonth(now))
  {
    hide PeriodOf, ComputeDueDate, Tomorrow, IsDueTomorrow, Numbered, UniquePeriods, NextNumber, Visit;
    VisitShape(invoices, c, now);
    SchedulerAgrees(now, c.dueDay);
    var after, due := Visit(invoices, c, now), DueFor(invoices, c, now);
    if after != invoices {
      assert Covers(after[|invoices|], c.tenant, c.client, PeriodOf(due));
      assert forall i :: 0 <= i < |invoices| ==> after[i] == invoices[i];
    }
  }

  // ---------- what a job does for the due and for the others ----------

  /** A client without a template, with a price, whose payment day clamped to the month is tomorrow, on a day the two computations agree. */
  predicate IsDue(c: ClientRow, now: Instant)
    requires ValidNow(now)
  {
    var t := Tomorrow(now);
    && c.price.Some? && !c.template && c.dueDay >= 1 && 1 <= t.m <= 12
    && (var last := Calendar.DaysIn(t.y, t.m); t.d == if c.dueDay > last then last else c.dueDay)
    && (t.d != 1 || DayExistsNextMonth(now))
  }

  /** An invoice of the client is for the calendar month of a date. */
  predicate HasMonth(invoices: seq<Invoice>, c: ClientRow, d: Calendar.Date) {
    1 <= d.m <= 12 &&
    exists i :: 0 <= i < |invoices| && invoices[i].tenant == c.tenant && invoices[i].client == c.client
      && invoices[i].period == Period(Calendar.Date(d.y, d.m, 1), Calendar.Date(d.y, d.m, Calendar.DaysIn(d.y, d.m)))
  }

  /** Every such client a job visits has an invoice for tomorrow's month afterwards. */
  lemma JobCoversDue(invoices: seq<Invoice>, clients: seq<ClientRow>, c: ClientRow, now: Instant)
    requires ValidNow(now) && Numbered(invoices) && c in clients && IsDue(c, now)
    ensures HasMonth(JobOver(invoices, clients, now), c, Tomorrow(now))
  {
    var t, after := Tomorrow(now), JobOver(invoices, clients, now);
    assert Calendar.Valid(t) by { Calendar.AddOneDay(now.date); }
    JobSettles(invoices, clients, now);
    DueTomorrowExactly(t, c.dueDay);
    SchedulerAgrees(now, c.dueDay);
    PeriodIsMonth(t);
    hide JobOver, PeriodOf, Tomorrow, IsDueTomorrow, ComputeDueDate, Numbered, UniquePeriods;
    assert IsCovered(after, c, PeriodOf(t));
    var i :| 0 <= i < |after| && Covers(after[i], c.tenant, c.client, PeriodOf(t));
    assert after[i].tenant == c.tenant && after[i].client == c.client;
  }

  /** The client an invoice was made for: its price is the total, and its payment day clamped to the month is tomorrow. */
  predicate MadeFor(inv: Invoice, c: ClientRow, t: Calendar.Date) {
    && inv.tenant == c.tenant && inv.client == c.client && c.price == Some(inv.total)
    && c.dueDay >= 1 && 1 <= t.m <= 12
    && var last := Calendar.DaysIn(t.y, t.m);
       t.d == if c.dueDay > last then last else c.dueDay
  }

  /** It was made for one of these clients. */
  predicate MadeForOne(inv: Invoice, clients: seq<ClientRow>, t: Calendar.Date) {
    exists c :: c in clients && MadeFor(inv, c, t)
  }

  lemma VisitMadeFor(invoices: seq<Invoice>, c: ClientRow, now: Instant)
    requires ValidNow(now) && Numbered(invoices)
    ensures forall i :: |invoices| <= i < |Visit(invoices, c, now)| ==> MadeFor(Visit(invoices, c, now)[i], c, Tomorrow(now))
  {
    VisitShape(invoices, c, now);
    if c.price.Some? {
      assert Calendar.Valid(Tomorrow(now)) by { Calendar.AddOneDay(now.date); }
      DueTomorrowExactly(Tomorrow(now), c.dueDay);
      MonthlyTotal(c, DueFor(invoices, c, now));
    }
    hide Visit, PeriodOf, Tomorrow, IsDueTomorrow, NextNumber, Numbered, UniquePeriods, DueFor, Total;
  }

  /** Everything a job adds is made for a visited client due tomorrow. */
  lemma {:induction false} JobAddsOnlyDue(invoices: seq<Invoice>, clients: seq<ClientRow>, now: Instant, i: nat)
    requires ValidNow(now) && Numbered(invoices) && |invoices| <= i < |JobOver(invoices, clients, now)|
    ensures MadeForOne(JobOver(invoices, clients, now)[i], clients, Tomorrow(now))
  {
    hide Numbered, Visit, UniquePeriods, MadeFor, Ready, Settled;
    var front, last := clients[..|clients| - 1], clients[|clients| - 1];
    var middle := JobOver(invoices, front, now);
    JobSettles(invoices, front, now);
    VisitSettles(middle, last, now);
    if i < |middle| {
      JobAddsOnlyDue(invoices, front, now, i);
      var c :| c in front && MadeFor(middle[i], c, Tomorrow(now));
      assert c in clients && JobOver(invoices, clients, now)[i] == middle[i];
    } else {
      VisitMadeFor(middle, last, now);
      assert last in clients && MadeFor(JobOver(invoices, clients, now)[i], last, Tomorrow(now));
    }
  }

  // ---------- runs ----------

  /** A job, or one operation on the books. */
  datatype Event = Job(clients: seq<ClientRow>, now: Instant) | Single(op: Op)

  predicate ValidEvent(e: Event) {
    match e
    case Job(_, now) => ValidNow(now)
    case Single(op) => ValidOp(op)
  }

  predicate ValidEvents(events: seq<Event>) {
    forall i :: 0 <= i < |events| ==> ValidEvent(events[i])
  }

  function AfterEvent(b: Books, e: Event): Books
    requires ValidEvent(e)
  {
    match e
    case Job(clients, now) => b.(invoices := JobOver(b.invoices, clients, now))
    case Single(op) => Apply(b, op)
  }

  function AfterEvents(b: Books, events: seq<Event>): Books
    requires ValidEvents(events)
    decreases |events|
  {
    if events == [] then b else AfterEvents(AfterEvent(b, events[0]), events[1..])
  }

  /** A manual invoice for a period that already has one. */
  predicate Duplicates(b: Books, e: Event) {
    e.Single? && e.op.Create? && ExistsFor(b.invoices, e.op.request.tenant, e.op.request.client, e.op.request.period)
  }

  predicate NoDuplicateIn(b: Books, events: seq<Event>)
    requires ValidEvents(events)
    decreases |events|
  {
    events == [] || (!Duplicates(b, events[0]) && NoDuplicateIn(AfterEvent(b, events[0]), events[1..]))
  }

  lemma EventKeepsUnique(b: Books, e: Event)
    requires ValidEvent(e) && Numbered(b.invoices) && UniquePeriods(b.invoices)
    ensures Numbered(AfterEvent(b, e).invoices)
    ensures UniquePeriods(AfterEvent(b, e).invoices) <==> !Duplicates(b, e)
  {
    hide Numbered, UniquePeriods, Apply, JobOver, ExistsFor;
    match e {
      case Job(clients, now) => JobSettles(b.invoices, clients, now);
      case Single(op) =>
        StepUnique(b, op);
        StepNumbered(b, op);
    }
  }

  /**
   * Over any run of jobs, generations, payments, cancellations, overdue marks and manual
   * invoices for uncovered periods there is one invoice at most for a tenant, client and period.
   */
  lemma {:induction false} RunKeepsUnique(b: Books, events: seq<Event>)
    requires ValidEvents(events) && Numbered(b.invoices) && UniquePeriods(b.invoices) && NoDuplicateIn(b, events)
    ensures UniquePeriods(AfterEvents(b, events).invoices) && Numbered(AfterEvents(b, events).invoices)
    decreases |events|
  {
    hide Numbered, UniquePeriods, AfterEvent, Duplicates;
    if events != [] {
      EventKeepsUnique(b, events[0]);
      RunKeepsUnique(AfterEvent(b, events[0]), events[1..]);
    }
  }

  // ---------- which clients a job visits ----------

  /** SELECT ... WHERE tenant_id = t AND status = 'active' ORDER BY created_at DESC; the table is kept in that order. */
  function ActiveOf(clients: seq<ClientRow>, tenant: Id): seq<ClientRow> {
    if clients == [] then []
    else
      var last := clients[|clients| - 1];
      ActiveOf(clients[..|clients| - 1], tenant) + if last.tenant == tenant && last.active then [last] else []
  }

  /** The clients of the active tenants, tenant by tenant. */
  function AllActive(tenants: seq<TenantRow>, clients: seq<ClientRow>): seq<ClientRow> {
    if tenants == [] then []
    else
      var last := tenants[|tenants| - 1];
      AllActive(tenants[..|tenants| - 1], clients) + if last.active then ActiveOf(clients, last.id) else []
  }

  predicate DistinctTenants(tenants: seq<TenantRow>) {
    forall i, j :: 0 <= i < j < |tenants| ==> tenants[i].id != tenants[j].id
  }

  function Times(clients: seq<ClientRow>, c: ClientRow): nat {
    multiset(clients)[c]
  }

  lemma TimesJoin(a: seq<ClientRow>, b: seq<ClientRow>, c: ClientRow)
    ensures Times(a + b, c) == Times(a, c) + Times(b, c)
    ensures Times([], c) == 0 && Times([c], c) == 1
    ensures forall x :: x != c ==> Times([x], c) == 0
  {
  }

  lemma {:induction false} ActiveOfTimes(clients: seq<ClientRow>, tenant: Id, c: ClientRow)
    ensures Times(ActiveOf(clients, tenant), c) == if c.tenant == tenant && c.active then Times(clients, c) else 0
  {
    hide Times;
    TimesJoin([], [], c);
    if clients != [] {
      var front, last := clients[..|clients| - 1], clients[|clients| - 1];
      ActiveOfTimes(front, tenant, c);
      assert clients == front + [last];
      TimesJoin(front, [last], c);
      TimesJoin(ActiveOf(front, tenant), if last.tenant == tenant && last.active then [last] else [], c);
    }
  }

  /** Every active client of an active tenant is visited as often as it is in the table, which is once; no other is. */
  lemma {:induction false} VisitsEachOnce(tenants: seq<TenantRow>, clients: seq<ClientRow>, c: ClientRow)
    requires DistinctTenants(tenants)
    ensures Times(AllActive(tenants, clients), c) == if c.active && TenantRow(c.tenant, true) in tenants then Times(clients, c) else 0
  {
    hide ActiveOf;
    if tenants != [] {
      var front, last := tenants[..|tenants| - 1], tenants[|tenants| - 1];
      VisitsEachOnce(front, clients, c);
      ActiveOfTimes(clients, last.id, c);
      assert tenants == front + [last];
      assert TenantRow(c.tenant, true) in front ==> last.id != c.tenant;
    }
  }

  lemma {:induction false} ActiveOfHas(clients: seq<ClientRow>, tenant: Id, c: ClientRow)
    ensures c in ActiveOf(clients, tenant) <==> c in clients && c.tenant == tenant && c.active
  {
    if clients != [] {
      var front, last := clients[..|clients| - 1], clients[|clients| - 1];
      ActiveOfHas(front, tenant, c);
      assert clients == front + [last];
    }
  }

  lemma {:induction false} AllActiveHas(tenants: seq<TenantRow>, clients: seq<ClientRow>, c: ClientRow)
    ensures c in AllActive(tenants, clients) <==> c in clients && c.active && TenantRow(c.tenant, true) in tenants
  {
    hide ActiveOf;
    if tenants != [] {
      var front, last := tenants[..|tenants| - 1], tenants[|tenants| - 1];
      AllActiveHas(front, clients, c);
      ActiveOfHas(clients, last.id, c);
      assert tenants == front + [last];
    }
  }

  lemma {:induction false} JobOverSplit(invoices: seq<Invoice>, a: seq<ClientRow>, b: seq<ClientRow>, now: Instant)
    requires ValidNow(now)
    ensures JobOver(invoices, a + b, now) == JobOver(JobOver(invoices, a, now), b, now)
    decreases |b|
  {
    hide Visit;
    if b == [] {
      assert a + b == a;
    } else {
      JobOverSplit(invoices, a, b[..|b| - 1], now);
      assert (a + b)[..|a + b| - 1] == a + b[..|b| - 1];
    }
  }

  const PAGE_SIZE := 100

  function Least(a: nat, b: nat): nat {
    if a < b then a else b
  }

  /** LIMIT size OFFSET skip. */
  function Slice(rows: seq<ClientRow>, skip: nat, size: nat): seq<ClientRow> {
    var offset := Least(skip, |rows|);
    rows[offset..Least(offset + size, |rows|)]
  }

  function PageOf(rows: seq<ClientRow>, page: nat, size: nat): seq<ClientRow>
    requires page >= 1
  {
    Slice(rows, (page - 1) * size, size)
  }

  /** The first k pages, one after the other. */
  function Pages(rows: seq<ClientRow>, size: nat, k: nat): seq<ClientRow> {
    if k == 0 then [] else Pages(rows, size, k - 1) + PageOf(rows, k, size)
  }

  /** As many pages as it takes, and any more of them, are exactly the rows in their order: each row is on one page. */
  lemma {:induction false} PagesJoin(rows: seq<ClientRow>, size: nat, k: nat)
    ensures Pages(rows, size, k) == rows[..Least(k * size, |rows|)]
    ensures k * size >= |rows| ==> Pages(rows, size, k) == rows
  {
    if k > 0 {
      PagesJoin(rows, size, k - 1);
      assert k * size == (k - 1) * size + size;
    }
  }

  /** A page is empty exactly when the pages before it hold all rows. */
  lemma PageEmpty(rows: seq<ClientRow>, page: nat, size: nat)
    requires page >= 1 && size >= 1
    ensures PageOf(rows, page, size) == [] <==> (page - 1) * size >= |rows|
  {
  }

  lemma SliceSnoc(rows: seq<ClientRow>, c: ClientRow, skip: nat, size: nat)
    ensures Slice(rows + [c], skip, size) ==
      if skip <= |rows| && |Slice(rows, skip, size)| < size then Slice(rows, skip, size) + [c] else Slice(rows, skip, size)
  {
  }

  lemma EmptySlice(skip: nat, size: nat)
    ensures Slice([], skip, size) == []
  {
  }

  lemma NoneActive(clients: seq<ClientRow>, tenant: Id)
    ensures ActiveOf(clients[..0], tenant) == []
  {
  }

  lemma ActiveSnoc(clients: seq<ClientRow>, i: nat, tenant: Id)
    requires i < |clients|
    ensures ActiveOf(clients[..i + 1], tenant) ==
      if clients[i].tenant == tenant && clients[i].active then ActiveOf(clients[..i], tenant) + [clients[i]] else ActiveOf(clients[..i], tenant)
  {
    assert clients[..i + 1][..i] == clients[..i];
  }

  /** The job, with the three tables it reads. */
  class InvoiceScheduler {
    var tenants: seq<TenantRow>
    var clients: seq<ClientRow>
    const billing: BillingService

    constructor (tenants: seq<TenantRow>, clients: seq<ClientRow>, billing: BillingService)
      ensures this.tenants == tenants && this.clients == clients && this.billing == billing
    {
      this.tenants, this.clients, this.billing := tenants, clients, billing;
    }

    /** ClientRepository.List for the active clients of a tenant: LIMIT, OFFSET and the total. */
    method List(tenant: Id, page: int, pageSize: int) returns (rows: seq<ClientRow>, total: nat)
      ensures total == |ActiveOf(clients, tenant)|
      ensures rows == PageOf(ActiveOf(clients, tenant), if page < 1 then 1 else page, if pageSize < 1 || pageSize > 100 then 20 else pageSize)
    {
      var p, size := page, pageSize;
      if p < 1 {
        p := 1;
      }
      if size < 1 || size > 100 {
        size := 20;
      }
      hide Slice, ActiveOf;
      var skip := (p - 1) * size;
      rows, total := [], 0;
      NoneActive(clients, tenant);
      assert Slice([], skip, size) == [] by { EmptySlice(skip, size); }
      for i := 0 to |clients|
        invariant total == |ActiveOf(clients[..i], tenant)|
        invariant rows == Slice(ActiveOf(clients[..i], tenant), skip, size)
      {
        ActiveSnoc(clients, i, tenant);
        if clients[i].tenant == tenant && clients[i].active {
          SliceSnoc(ActiveOf(clients[..i], tenant), clients[i], skip, size);
          if skip <= total && |rows| < size {
            rows := rows + [clients[i]];
          }
          total := total + 1;
        }
      }
      assert clients[..|clients|] == clients;
    }

    method VisitClient(c: ClientRow, now: Instant)
      requires ValidNow(now)
      modifies billing`invoices
      ensures billing.invoices == Visit(old(billing.invoices), c, now)
    {
      hide IsDueTomorrow, PeriodOf, AfterGenerate, Tomorrow;
      if !IsDueTomorrow(Tomorrow(now), c.dueDay) {
        return;
      }
      if ExistsFor(billing.invoices, c.tenant, c.client, PeriodOf(Tomorrow(now))) {
        return;
      }
      var _ := billing.GenerateMonthlyInvoice(c, now);
    }

    method VisitTenant(tenant: Id, now: Instant) returns (scanned: nat)
      requires ValidNow(now)
      modifies billing`invoices
      ensures billing.invoices == JobOver(old(billing.invoices), ActiveOf(clients, tenant), now)
      ensures scanned == |ActiveOf(clients, tenant)|
    {
      hide Visit, ActiveOf;
      ghost var all := ActiveOf(clients, tenant);
      var page := 1;
      scanned := 0;
      while true
        invariant page >= 1 && scanned == (page - 1) * PAGE_SIZE <= |all|
        invariant billing.invoices == JobOver(old(billing.invoices), all[..scanned], now)
        invariant page > 1 ==> scanned < |all|
        decreases |all| + 1 - scanned
      {
        var rows, total := List(tenant, page, PAGE_SIZE);
        if |rows| == 0 {
          break;
        }
        ghost var start := scanned;
        for i := 0 to |rows|
          invariant scanned == start + i
          invariant billing.invoices == JobOver(old(billing.invoices), all[..scanned], now)
        {
          assert all[..scanned + 1][..scanned] == all[..scanned] && all[scanned] == rows[i];
          scanned := scanned + 1;
          VisitClient(rows[i], now);
        }
        if page * PAGE_SIZE >= total {
          break;
        }
        page := page + 1;
      }
      assert all[..scanned] == all;
    }

    /** runScheduledJob: the page loop of every active tenant ends, and the table becomes that of a job over all active clients. */
    method RunScheduledJob(now: Instant) returns (scanned: nat)
      requires ValidNow(now)
      modifies billing`invoices
      ensures billing.invoices == JobOver(old(billing.invoices), AllActive(tenants, clients), now)
      ensures scanned == |AllActive(tenants, clients)|
      ensures Numbered(old(billing.invoices)) ==>
        forall c :: c in clients && c.active && TenantRow(c.tenant, true) in tenants && IsDue(c, now) ==>
          HasMonth(billing.invoices, c, Tomorrow(now))
      ensures Numbered(old(billing.invoices)) ==>
        && old(billing.invoices) <= billing.invoices
        && forall i :: |old(billing.invoices)| <= i < |billing.invoices| ==>
             MadeForOne(billing.invoices[i], AllActive(tenants, clients), Tomorrow(now))
    {
      hide JobOver, ActiveOf;
      scanned := 0;
      JobOverNone(billing.invoices, now);
      for i := 0 to |tenants|
        invariant scanned == |AllActive(tenants[..i], clients)|
        invariant billing.invoices == JobOver(old(billing.invoices), AllActive(tenants[..i], clients), now)
      {
        assert tenants[..i + 1][..i] == tenants[..i];
        if !tenants[i].active {
          assert AllActive(tenants[..i + 1], clients) == AllActive(tenants[..i], clients);
          continue;
        }
        JobOverSplit(old(billing.invoices), AllActive(tenants[..i], clients), ActiveOf(clients, tenants[i].id), now);
        var n := VisitTenant(tenants[i].id, now);
        scanned := scanned + n;
      }
      assert tenants[..|tenants|] == tenants;
      if Numbered(old(billing.invoices)) {
        JobPromise(old(billing.invoices), tenants, clients, now);
      }
    }
  }

  lemma JobPromise(invoices: seq<Invoice>, tenants: seq<TenantRow>, clients: seq<ClientRow>, now: Instant)
    requires ValidNow(now) && Numbered(invoices)
    ensures var after := JobOver(invoices, AllActive(tenants, clients), now);
      && invoices <= after
      && (forall c :: c in clients && c.active && TenantRow(c.tenant, true) in tenants && IsDue(c, now) ==> HasMonth(after, c, Tomorrow(now)))
      && forall i :: |invoices| <= i < |after| ==>
           MadeForOne(after[i], AllActive(tenants, clients), Tomorrow(now))
  {
    hide IsDue, HasMonth, MadeForOne, JobOver, AllActive, Numbered, UniquePeriods, Tomorrow;
    var visited := AllActive(tenants, clients);
    var after := JobOver(invoices, visited, now);
    JobSettles(invoices, visited, now);
    forall c | c in clients && c.active && TenantRow(c.tenant, true) in tenants && IsDue(c, now) ensures HasMonth(after, c, Tomorrow(now)) {
      AllActiveHas(tenants, clients, c);
      JobCoversDue(invoices, visited, c, now);
    }
    forall i | |invoices| <= i < |after| ensures MadeForOne(after[i], visited, Tomorrow(now)) {
      JobAddsOnlyDue(invoices, visited, now, i);
    }
  }

  lemma JobOverNone(invoices: seq<Invoice>, now: Instant)
    requires ValidNow(now)
    ensures JobOver(invoices, [], now) == invoices
  {
  }
}
