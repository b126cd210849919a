/**
 * What every action of the campaign protocol keeps. Well-formedness, the limiter bound, the
 * never-under-counting of the counters and the wake-up property hold over every run. The
 * exact counters and the one-task-per-pending-recipient property hold over every careful run.
 */
module CampaignInvariants {
  import opened Counting
  import opened Collections
  import opened Campaign

  // ---------- ways to count deliveries ----------

  function Awaiting(r: Id): Delivery -> bool {
    (d: Delivery) => d.task.recipient == r && (d.stage.Planned? || d.stage.InQueue? || d.stage.Waiting? || d.stage.Sending?)
  }

  function InFlight(c: Id, o: Outcome): Delivery -> bool {
    (d: Delivery) => d.task.campaign == c && d.stage == Counting(o)
  }

  function Holding(t: Id): Delivery -> bool {
    (d: Delivery) =>
      d.task.tenant == t && (d.stage.Sending? || d.stage.Counting? || d.stage.Checking? || d.stage.Releasing?)
  }

  function Outstanding(c: Id): Delivery -> bool {
    (d: Delivery) => d.task.campaign == c && !d.stage.Releasing?
  }

  // ---------- the invariants ----------

  ghost predicate TaskFits(s: State, t: Task) {
    && t.recipient in s.rows
    && s.rows[t.recipient].campaign == t.campaign
    && t.campaign in s.campaigns
    && s.campaigns[t.campaign].tenant == t.tenant
  }

  ghost predicate WellFormed(s: State) {
    && (forall r :: r in s.rows ==> s.rows[r].campaign in s.campaigns)
    && (forall w :: w in s.work ==> w < s.next && TaskFits(s, s.work[w].task))
    && (forall k :: k in s.retries ==> k < s.next && RetryFits(s, s.retries[k]))
  }

  ghost predicate RetryFits(s: State, k: Retry) {
    && k.campaign in s.campaigns
    && k.listed != []
    && Distinct(k.listed)
    && forall r :: r in k.listed ==> r in s.rows && s.rows[r].campaign == k.campaign
  }

  /** The channel of tenant t holds one token per handler between acquire and release, at most max. */
  ghost predicate Limited(s: State) {
    && s.max >= 1
    && forall t :: SlotsOf(s.slots, t) == Count(s.work, Holding(t)) <= s.max
  }

  /** The counters never under-count, and a completed campaign has counted at least its total. */
  ghost predicate CoveredAt(s: State, c: Id)
    requires c in s.campaigns
  {
    var k := s.campaigns[c];
    && k.sent + Count(s.work, InFlight(c, SendOk)) >= RowCount(s, c, Sent)
    && k.failed + Count(s.work, InFlight(c, SendError)) >= RowCount(s, c, Failed)
    && (k.status == Completed ==> k.sent + k.failed >= k.total)
  }

  ghost predicate Covered(s: State) {
    forall c :: c in s.campaigns ==> CoveredAt(s, c)
  }

  /** A campaign that has counted its total is completed, or a delivery is still on its way to the completion check. */
  ghost predicate AwakeAt(s: State, c: Id)
    requires c in s.campaigns
  {
    var k := s.campaigns[c];
    && (k.status == Queued || k.status == Running || k.status == Completed)
    && (k.status == Completed || k.sent + k.failed < k.total || Count(s.work, Outstanding(c)) > 0)
    && Count(s.rows, OfCampaign(c)) == k.total
  }

  ghost predicate Awake(s: State) {
    forall c :: c in s.campaigns ==> AwakeAt(s, c)
  }

  ghost predicate Safe(s: State) {
    WellFormed(s) && Limited(s) && Covered(s) && Awake(s)
  }

  ghost predicate ExactCountersAt(s: State, c: Id)
    requires c in s.campaigns
  {
    && s.campaigns[c].sent + Count(s.work, InFlight(c, SendOk)) == RowCount(s, c, Sent)
    && s.campaigns[c].failed + Count(s.work, InFlight(c, SendError)) == RowCount(s, c, Failed)
  }

  ghost predicate ExactCounters(s: State) {
    forall c :: c in s.campaigns ==> ExactCountersAt(s, c)
  }

  /** Each pending recipient has exactly one delivery before its row update, a settled one has none. */
  ghost predicate ExactTokens(s: State) {
    forall r :: r in s.rows ==> Count(s.work, Awaiting(r)) == Bit(s.rows[r].status == Pending)
  }

  ghost predicate Exact(s: State) {
    ExactCounters(s) && ExactTokens(s)
  }

  /** No task is redelivered, and a reset takes back exactly the listed rows with no failure mark in flight. */
  ghost predicate Careful(s: State, a: Action)
    requires Enabled(s, a)
  {
    match a
    case Reset(k) => ResetIsCareful(s, k)
    case Redeliver(_) => false
    case _ => true
  }

  ghost predicate ResetIsCareful(s: State, k: Id)
    requires Enabled(s, Reset(k))
  {
    var c := s.retries[k].campaign;
    && Count(s.work, InFlight(c, SendError)) == 0
    && Elements(s.retries[k].listed) == FailedRows(s.rows, c)
  }

  ghost predicate CarefulRun(s: State, run: seq<Action>)
    requires ValidRun(s, run)
    decreases |run|
  {
    run == [] || (Careful(s, run[0]) && CarefulRun(Next(s, run[0]), run[1..]))
  }

  // ---------- how one action moves a count ----------

  lemma {:induction false} SpawnKeys(work: map<Id, Delivery>, next: Id, tasks: seq<Task>)
    requires forall w :: w in work ==> w < next
    ensures forall w :: w in Spawn(work, next, tasks) <==> w in work || next <= w < next + |tasks|
    ensures forall w :: w in work ==> Spawn(work, next, tasks)[w] == work[w]
    ensures forall w :: next <= w < next + |tasks| ==> Spawn(work, next, tasks)[w] == Delivery(tasks[w - next], Planned)
    decreases |tasks|
  {
    if tasks != [] {
      SpawnKeys(work[next := Delivery(tasks[0], Planned)], next + 1, tasks[1..]);
    }
  }

  ghost function TaskCount(tasks: seq<Task>, p: Delivery -> bool): nat {
    if tasks == [] then 0 else Bit(p(Delivery(tasks[0], Planned))) + TaskCount(tasks[1..], p)
  }

  lemma {:induction false} SpawnCount(work: map<Id, Delivery>, next: Id, tasks: seq<Task>, p: Delivery -> bool)
    requires forall w :: w in work ==> w < next
    ensures Count(Spawn(work, next, tasks), p) == Count(work, p) + TaskCount(tasks, p)
    decreases |tasks|
  {
    if tasks != [] {
      var d := Delivery(tasks[0], Planned);
      CountUpdate(work, next, d, p);
      SpawnCount(work[next := d], next + 1, tasks[1..], p);
    }
  }

  lemma TasksForTail(t: Id, c: Id, recs: seq<Id>)
    requires recs != []
    ensures TasksFor(t, c, recs)[1..] == TasksFor(t, c, recs[1..])
  {
  }

  lemma {:induction false} AwaitingCount(t: Id, c: Id, recs: seq<Id>, r: Id)
    requires Distinct(recs)
    ensures TaskCount(TasksFor(t, c, recs), Awaiting(r)) == Bit(r in recs)
  {
    if recs != [] {
      TasksForTail(t, c, recs);
      AwaitingCount(t, c, recs[1..], r);
      assert r in recs <==> r == recs[0] || r in recs[1..];
    }
  }

  /** A delivery test that only looks past the queue does not see newly planned deliveries. */
  lemma {:induction false} PlannedUnseen(tasks: seq<Task>, p: Delivery -> bool)
    requires forall t :: !p(Delivery(t, Planned))
    ensures TaskCount(tasks, p) == 0
  {
    if tasks != [] {
      PlannedUnseen(tasks[1..], p);
    }
  }

  lemma {:induction false} OutstandingCount(t: Id, c: Id, recs: seq<Id>, c': Id)
    ensures TaskCount(TasksFor(t, c, recs), Outstanding(c')) == if c' == c then |recs| else 0
  {
    if recs != [] {
      TasksForTail(t, c, recs);
      OutstandingCount(t, c, recs[1..], c');
    }
  }

  /** The tasks an action plans. */
  ghost function Planning(s: State, a: Action): seq<Task>
    requires Enabled(s, a)
  {
    match a
    case Create(c, t, recs) => TasksFor(t, c, recs)
    case Reset(k) =>
      var c := s.retries[k].campaign;
      TasksFor(s.campaigns[c].tenant, c, s.retries[k].listed)
    case _ => []
  }

  predicate Moves(a: Action) {
    a.Enqueue? || a.Deliver? || a.Acquire? || a.Mark? || a.Increment? || a.Check?
  }

  ghost function WorkDelta(s: State, a: Action, p: Delivery -> bool): int
    requires Enabled(s, a)
  {
    if Moves(a) then Bit(p(Next(s, a).work[a.w])) - Bit(p(s.work[a.w]))
    else if a.Release? then 0 - Bit(p(s.work[a.w])) as int
    else if a.Redeliver? then Bit(p(Next(s, a).work[s.next]))
    else TaskCount(Planning(s, a), p)
  }

  lemma WorkCount(s: State, a: Action, p: Delivery -> bool)
    requires WellFormed(s) && Enabled(s, a)
    ensures Count(Next(s, a).work, p) == Count(s.work, p) + WorkDelta(s, a, p)
  {
    hide Count;
    if Moves(a) {
      CountUpdate(s.work, a.w, Next(s, a).work[a.w], p);
    } else if a.Release? {
      CountRemove(s.work, a.w, p);
    } else if a.Redeliver? {
      CountUpdate(s.work, s.next, Next(s, a).work[s.next], p);
    } else if !a.ListFailed? {
      SpawnCount(s.work, s.next, Planning(s, a), p);
    }
  }

  /** Resetting turns every failed row of the campaign into a pending one and touches no other. */
  lemma ResetCount(rows: map<Id, Recipient>, c: Id, c': Id)
    ensures Count(ResetRows(rows, c), OfCampaign(c')) == Count(rows, OfCampaign(c'))
    ensures Count(ResetRows(rows, c), IsRow(c', Sent)) == Count(rows, IsRow(c', Sent))
    ensures Count(ResetRows(rows, c), IsRow(c', Failed)) == if c' == c then 0 else Count(rows, IsRow(c', Failed))
    ensures |FailedRows(rows, c)| == Count(rows, IsRow(c, Failed))
  {
    var rows' := ResetRows(rows, c);
    CountSame(rows, rows', OfCampaign(c'));
    CountSame(rows, rows', IsRow(c', Sent));
    if c' == c {
      CountZero(rows', IsRow(c, Failed));
    } else {
      CountSame(rows, rows', IsRow(c', Failed));
    }
    CountAs(rows, IsRow(c, Failed), FailedRows(rows, c));
  }

  /** A new campaign's rows are all pending and belong to it alone. */
  lemma CreateCount(s: State, a: Action, c: Id, st: RecipientStatus)
    requires a.Create? && WellFormed(s) && Enabled(s, a) && st != Pending
    ensures Count(Next(s, a).rows, IsRow(c, st)) == Count(s.rows, IsRow(c, st))
    ensures c == a.campaign ==> Count(s.rows, IsRow(c, st)) == 0
  {
    CountSame(s.rows, Next(s, a).rows, IsRow(c, st));
    if c == a.campaign {
      CountZero(s.rows, IsRow(c, st));
    }
  }

  lemma CreateTotal(s: State, a: Action, c: Id)
    requires a.Create? && WellFormed(s) && Enabled(s, a)
    ensures Count(Next(s, a).rows, OfCampaign(c)) == if c == a.campaign then |a.recipients| else Count(s.rows, OfCampaign(c))
  {
    PendingTotal(s.rows, a.campaign, a.recipients, c);
  }

  lemma PendingTotal(rows: map<Id, Recipient>, c: Id, recs: seq<Id>, c': Id)
    requires Distinct(recs) && forall r :: r in recs ==> r !in rows
    requires forall r :: r in rows ==> rows[r].campaign != c
    ensures Count(WithPending(rows, c, recs), OfCampaign(c')) == if c' == c then |recs| else Count(rows, OfCampaign(c'))
  {
    var rows' := WithPending(rows, c, recs);
    if c' == c {
      DistinctSize(recs);
      CountAs(rows', OfCampaign(c), Elements(recs));
    } else {
      CountSame(rows, rows', OfCampaign(c'));
    }
  }

  // ---------- well-formedness ----------

  lemma InitSafe(requestedMax: int)
    ensures Safe(Init(requestedMax)) && Exact(Init(requestedMax))
  {
    var s := Init(requestedMax);
    forall t ensures Count(s.work, Holding(t)) == 0 { CountZero(s.work, Holding(t)); }
  }

  lemma WellFormedStep(s: State, a: Action)
    requires WellFormed(s) && Enabled(s, a)
    ensures WellFormed(Next(s, a))
  {
    if a.Create? || a.Reset? {
      WellFormedSpawn(s, a);
    } else {
      WellFormedMove(s, a);
    }
  }

  lemma WellFormedMove(s: State, a: Action)
    requires !a.Create? && !a.Reset? && WellFormed(s) && Enabled(s, a)
    ensures WellFormed(Next(s, a))
  {
    hide Distinct;
    var s' := Next(s, a);
    forall w | w in s'.work ensures w < s'.next && TaskFits(s', s'.work[w].task) {
      if w in s.work {
        FitsKept(s, a, s.work[w].task);
      }
    }
    forall k | k in s'.retries ensures k < s'.next && RetryFits(s', s'.retries[k]) {
      if k in s.retries {
        assert RetryFits(s, s.retries[k]);
      } else {
        ListingFits(s, a);
      }
    }
  }

  lemma ListingFits(s: State, a: Action)
    requires a.ListFailed? && WellFormed(s) && Enabled(s, a)
    ensures RetryFits(Next(s, a), Retry(a.target, a.listed))
  {
    forall r | r in a.listed ensures r in s.rows && s.rows[r].campaign == a.target {
      assert r in FailedRows(s.rows, a.target);
    }
  }

  /** Rows keep their campaign and campaigns their tenant, so what fitted before still fits. */
  lemma FitsKept(s: State, a: Action, t: Task)
    requires WellFormed(s) && Enabled(s, a) && TaskFits(s, t)
    ensures TaskFits(Next(s, a), t)
  {
  }

  lemma PlanningFits(s: State, a: Action, i: nat)
    requires (a.Create? || a.Reset?) && WellFormed(s) && Enabled(s, a) && i < |Planning(s, a)|
    ensures TaskFits(Next(s, a), Planning(s, a)[i])
  {
    if a.Reset? {
      var k := s.retries[a.retry];
      assert RetryFits(s, k) && k.listed[i] in k.listed;
    } else {
      assert a.recipients[i] in a.recipients;
    }
  }

  lemma WellFormedSpawn(s: State, a: Action)
    requires (a.Create? || a.Reset?) && WellFormed(s) && Enabled(s, a)
    ensures WellFormed(Next(s, a))
  {
    var s', tasks := Next(s, a), Planning(s, a);
    SpawnKeys(s.work, s.next, tasks);
    forall w | w in s'.work ensures w < s'.next && TaskFits(s', s'.work[w].task) {
      hide TaskFits;
      if w in s.work {
        FitsKept(s, a, s.work[w].task);
      } else {
        PlanningFits(s, a, w - s.next);
      }
    }
    forall k | k in s'.retries ensures k < s'.next && RetryFits(s', s'.retries[k]) {
      assert RetryFits(s, s.retries[k]);
    }
  }

  // ---------- the limiter ----------

  lemma LimitedStep(s: State, a: Action)
    requires WellFormed(s) && Limited(s) && Enabled(s, a)
    ensures Limited(Next(s, a))
  {
    var s' := Next(s, a);
    forall t ensures SlotsOf(s'.slots, t) == Count(s'.work, Holding(t)) <= s'.max {
      LimitedStepAt(s, a, t);
    }
  }

  lemma LimitedStepAt(s: State, a: Action, t: Id)
    requires WellFormed(s) && Enabled(s, a) && SlotsOf(s.slots, t) == Count(s.work, Holding(t)) <= s.max
    ensures SlotsOf(Next(s, a).slots, t) == Count(Next(s, a).work, Holding(t)) <= Next(s, a).max
  {
    hide Count, WellFormed, Spawn, ResetRows, WithPending, FailedRows, TasksFor, IsFailedListing, Distinct;
    WorkCount(s, a, Holding(t));
    PlannedUnseen(Planning(s, a), Holding(t));
  }

  /** A waiting handler can acquire exactly while fewer than max of its tenant hold a slot. */
  lemma AcquireExactly(s: State, w: Id)
    requires Limited(s) && w in s.work && s.work[w].stage == Waiting
    ensures Enabled(s, Acquire(w)) <==> Count(s.work, Holding(s.work[w].task.tenant)) < s.max
  {
    hide Count;
    assert SlotsOf(s.slots, s.work[w].task.tenant) == Count(s.work, Holding(s.work[w].task.tenant));
  }

  /** A handler that has acquired can always release: its receive never blocks. */
  lemma ReleaseNeverBlocks(s: State, w: Id)
    requires Limited(s) && w in s.work && s.work[w].stage == Releasing
    ensures Enabled(s, Release(w))
  {
    CountPositive(s.work, w, Holding(s.work[w].task.tenant));
  }

  // ---------- never under-counting ----------

  lemma RowMarked(s: State, w: Id, o: Outcome, q: Recipient -> bool)
    requires WellFormed(s) && Enabled(s, Mark(w, o))
    ensures var r := s.work[w].task.recipient;
      Count(Next(s, Mark(w, o)).rows, q) == Count(s.rows, q) - Bit(q(s.rows[r])) + Bit(q(s.rows[r].(status := MarkedStatus(o))))
  {
    var r := s.work[w].task.recipient;
    assert TaskFits(s, s.work[w].task);
    CountUpdate(s.rows, r, s.rows[r].(status := MarkedStatus(o)), q);
  }

  lemma CoveredStep(s: State, a: Action)
    requires WellFormed(s) && Covered(s) && Enabled(s, a)
    ensures Covered(Next(s, a))
  {
    forall c | c in Next(s, a).campaigns ensures CoveredAt(Next(s, a), c) {
      CoveredStepAt(s, a, c);
    }
  }

  lemma CoveredStepAt(s: State, a: Action, c: Id)
    requires WellFormed(s) && Enabled(s, a) && c in Next(s, a).campaigns
    requires c in s.campaigns ==> CoveredAt(s, c)
    ensures CoveredAt(Next(s, a), c)
  {
    if a.Create? || a.Reset? {
      CoveredPlan(s, a, c);
    } else {
      CoveredMove(s, a, c);
    }
  }

  lemma CoveredPlan(s: State, a: Action, c: Id)
    requires (a.Create? || a.Reset?) && WellFormed(s) && Enabled(s, a) && c in Next(s, a).campaigns
    requires c in s.campaigns ==> CoveredAt(s, c)
    ensures CoveredAt(Next(s, a), c)
  {
    hide Count, Spawn, ResetRows, WithPending, FailedRows, TasksFor, Distinct;
    WorkCount(s, a, InFlight(c, SendOk));
    WorkCount(s, a, InFlight(c, SendError));
    PlannedUnseen(Planning(s, a), InFlight(c, SendOk));
    PlannedUnseen(Planning(s, a), InFlight(c, SendError));
    if a.Create? {
      CreateCount(s, a, c, Sent);
      CreateCount(s, a, c, Failed);
    } else {
      ResetCount(s.rows, s.retries[a.retry].campaign, c);
    }
  }

  lemma CoveredMove(s: State, a: Action, c: Id)
    requires !a.Create? && !a.Reset? && WellFormed(s) && Enabled(s, a) && c in s.campaigns && CoveredAt(s, c)
    ensures CoveredAt(Next(s, a), c)
  {
    hide Count, IsFailedListing, Distinct, WellFormed;
    WorkCount(s, a, InFlight(c, SendOk));
    WorkCount(s, a, InFlight(c, SendError));
    if a.Mark? {
      RowMarked(s, a.w, a.outcome, IsRow(c, Sent));
      RowMarked(s, a.w, a.outcome, IsRow(c, Failed));
    }
    FitsItsRow(s, a);
  }

  /** A delivery's row exists and belongs to the campaign of its task. */
  lemma FitsItsRow(s: State, a: Action)
    requires WellFormed(s) && Enabled(s, a)
    ensures Moves(a) || a.Release? ==> TaskFits(s, s.work[a.w].task)
  {
  }

  // ---------- wake-up ----------

  lemma AwakeStep(s: State, a: Action)
    requires WellFormed(s) && Awake(s) && Enabled(s, a)
    ensures Awake(Next(s, a))
  {
    forall c | c in Next(s, a).campaigns ensures AwakeAt(Next(s, a), c) {
      AwakeStepAt(s, a, c);
    }
  }

  lemma AwakeStepAt(s: State, a: Action, c: Id)
    requires WellFormed(s) && Enabled(s, a) && c in Next(s, a).campaigns
    requires c in s.campaigns ==> AwakeAt(s, c)
    ensures AwakeAt(Next(s, a), c)
  {
    if a.Create? || a.Reset? {
      AwakePlan(s, a, c);
    } else {
      AwakeMove(s, a, c);
    }
  }

  lemma AwakePlan(s: State, a: Action, c: Id)
    requires (a.Create? || a.Reset?) && WellFormed(s) && Enabled(s, a) && c in Next(s, a).campaigns
    requires c in s.campaigns ==> AwakeAt(s, c)
    ensures AwakeAt(Next(s, a), c)
  {
    hide Count, Spawn, ResetRows, WithPending, FailedRows, TasksFor, Distinct;
    WorkCount(s, a, Outstanding(c));
    if a.Create? {
      CreateTotal(s, a, c);
      OutstandingCount(a.tenant, a.campaign, a.recipients, c);
    } else {
      var k := s.retries[a.retry];
      ResetCount(s.rows, k.campaign, c);
      OutstandingCount(s.campaigns[k.campaign].tenant, k.campaign, k.listed, c);
      assert RetryFits(s, k);
    }
  }

  lemma AwakeMove(s: State, a: Action, c: Id)
    requires !a.Create? && !a.Reset? && WellFormed(s) && Enabled(s, a) && c in s.campaigns && AwakeAt(s, c)
    ensures AwakeAt(Next(s, a), c)
  {
    hide Count, IsFailedListing, Distinct, WellFormed;
    WorkCount(s, a, Outstanding(c));
    FitsItsRow(s, a);
    if a.Mark? {
      RowMarked(s, a.w, a.outcome, OfCampaign(c));
    } else if a.Increment? {
      CountPositive(Next(s, a).work, a.w, Outstanding(s.work[a.w].task.campaign));
    }
  }

  lemma SafeStep(s: State, a: Action)
    requires Safe(s) && Enabled(s, a)
    ensures Safe(Next(s, a))
  {
    hide WellFormed, Limited, Covered, Awake;
    WellFormedStep(s, a);
    LimitedStep(s, a);
    CoveredStep(s, a);
    AwakeStep(s, a);
  }

  /** Over every run, with redelivered tasks and overlapping retries. */
  lemma {:induction false} SafeRun(s: State, run: seq<Action>)
    requires Safe(s) && ValidRun(s, run)
    ensures Safe(After(s, run))
    decreases |run|
  {
    hide Safe;
    if run != [] {
      SafeStep(s, run[0]);
      SafeRun(Next(s, run[0]), run[1..]);
    }
  }

  // ---------- exactness ----------

  lemma ExactCountersStepAt(s: State, a: Action, c: Id)
    requires WellFormed(s) && Enabled(s, a) && c in Next(s, a).campaigns
    requires c in s.campaigns ==> ExactCountersAt(s, c)
    requires a.Reset? && s.retries[a.retry].campaign == c ==> Count(s.work, InFlight(c, SendError)) == 0
    requires a.Mark? && TaskFits(s, s.work[a.w].task) ==> s.rows[s.work[a.w].task.recipient].status == Pending
    ensures ExactCountersAt(Next(s, a), c)
  {
    if a.Create? || a.Reset? {
      ExactCountersPlan(s, a, c);
    } else {
      ExactCountersMove(s, a, c);
    }
  }

  lemma ExactCountersPlan(s: State, a: Action, c: Id)
    requires (a.Create? || a.Reset?) && WellFormed(s) && Enabled(s, a) && c in Next(s, a).campaigns
    requires c in s.campaigns ==> ExactCountersAt(s, c)
    requires a.Reset? && s.retries[a.retry].campaign == c ==> Count(s.work, InFlight(c, SendError)) == 0
    ensures ExactCountersAt(Next(s, a), c)
  {
    hide Count, Spawn, ResetRows, WithPending, FailedRows, TasksFor;
    WorkCount(s, a, InFlight(c, SendOk));
    WorkCount(s, a, InFlight(c, SendError));
    PlannedUnseen(Planning(s, a), InFlight(c, SendOk));
    PlannedUnseen(Planning(s, a), InFlight(c, SendError));
    if a.Reset? {
      ResetCount(s.rows, s.retries[a.retry].campaign, c);
    } else {
      CreateCount(s, a, c, Sent);
      CreateCount(s, a, c, Failed);
      if c == a.campaign {
        CountZero(s.work, InFlight(c, SendOk));
        CountZero(s.work, InFlight(c, SendError));
      }
    }
  }

  lemma ExactCountersMove(s: State, a: Action, c: Id)
    requires !a.Create? && !a.Reset? && WellFormed(s) && Enabled(s, a) && c in s.campaigns && ExactCountersAt(s, c)
    requires a.Mark? && TaskFits(s, s.work[a.w].task) ==> s.rows[s.work[a.w].task.recipient].status == Pending
    ensures ExactCountersAt(Next(s, a), c)
  {
    hide Count, IsFailedListing;
    WorkCount(s, a, InFlight(c, SendOk));
    WorkCount(s, a, InFlight(c, SendError));
    if a.Mark? {
      RowMarked(s, a.w, a.outcome, IsRow(c, Sent));
      RowMarked(s, a.w, a.outcome, IsRow(c, Failed));
    }
  }

  lemma ExactTokensStepAt(s: State, a: Action, r: Id)
    requires WellFormed(s) && ExactTokens(s) && Enabled(s, a) && r in Next(s, a).rows && !a.Redeliver?
    requires a.Reset? ==> Elements(s.retries[a.retry].listed) == FailedRows(s.rows, s.retries[a.retry].campaign)
    ensures Count(Next(s, a).work, Awaiting(r)) == Bit(Next(s, a).rows[r].status == Pending)
  {
    if a.Create? || a.Reset? {
      ExactTokensPlan(s, a, r);
    } else {
      ExactTokensMove(s, a, r);
    }
  }

  lemma ExactTokensMove(s: State, a: Action, r: Id)
    requires !a.Create? && !a.Reset? && !a.Redeliver?
    requires WellFormed(s) && ExactTokens(s) && Enabled(s, a) && r in s.rows
    ensures Count(Next(s, a).work, Awaiting(r)) == Bit(Next(s, a).rows[r].status == Pending)
  {
    hide Count, IsFailedListing, Distinct, TaskFits, WellFormed, CampaignOf, Incremented, Checked;
    assert Count(s.work, Awaiting(r)) == Bit(s.rows[r].status == Pending);
    WorkCount(s, a, Awaiting(r));
    if a.Mark? {
      MarkFindsPending(s, a.w);
    }
  }

  lemma ExactTokensPlan(s: State, a: Action, r: Id)
    requires (a.Create? || a.Reset?) && WellFormed(s) && ExactTokens(s) && Enabled(s, a) && r in Next(s, a).rows
    requires a.Reset? ==> Elements(s.retries[a.retry].listed) == FailedRows(s.rows, s.retries[a.retry].campaign)
    ensures Count(Next(s, a).work, Awaiting(r)) == Bit(Next(s, a).rows[r].status == Pending)
  {
    hide Count, Spawn, TasksFor;
    WorkCount(s, a, Awaiting(r));
    if a.Create? {
      AwaitingCount(a.tenant, a.campaign, a.recipients, r);
      if r !in s.rows {
        CountZero(s.work, Awaiting(r));
      }
    } else {
      var k := s.retries[a.retry];
      AwaitingCount(s.campaigns[k.campaign].tenant, k.campaign, k.listed, r);
      assert RetryFits(s, k) && (r in k.listed <==> r in Elements(k.listed));
    }
  }

  lemma MarkFindsPending(s: State, w: Id)
    requires WellFormed(s) && ExactTokens(s) && w in s.work && s.work[w].stage == Sending
    ensures TaskFits(s, s.work[w].task) && s.rows[s.work[w].task.recipient].status == Pending
  {
    hide Count;
    var r := s.work[w].task.recipient;
    CountPositive(s.work, w, Awaiting(r));
    assert TaskFits(s, s.work[w].task) && r in s.rows;
  }

  lemma ExactStep(s: State, a: Action)
    requires WellFormed(s) && Exact(s) && Enabled(s, a) && Careful(s, a)
    ensures Exact(Next(s, a))
  {
    if a.Mark? {
      MarkFindsPending(s, a.w);
    }
    forall c | c in Next(s, a).campaigns ensures ExactCountersAt(Next(s, a), c) {
      ExactCountersStepAt(s, a, c);
    }
    forall r | r in Next(s, a).rows ensures Count(Next(s, a).work, Awaiting(r)) == Bit(Next(s, a).rows[r].status == Pending) {
      ExactTokensStepAt(s, a, r);
    }
  }

  /**
   * The reset of a retry keeps the counters and the tasks exact if and only if no failure
   * mark is in flight and the rows it takes back are the rows that were listed.
   */
  lemma ResetKeepsExact(s: State, k: Id)
    requires WellFormed(s) && Exact(s) && Enabled(s, Reset(k))
    ensures Exact(Next(s, Reset(k))) <==> ResetIsCareful(s, k)
  {
    hide Count;
    if ResetIsCareful(s, k) {
      ExactStep(s, Reset(k));
    } else if Exact(Next(s, Reset(k))) {
      ExactResetWasCareful(s, k);
    }
  }

  lemma ExactResetWasCareful(s: State, k: Id)
    requires WellFormed(s) && Exact(s) && Enabled(s, Reset(k)) && Exact(Next(s, Reset(k)))
    ensures ResetIsCareful(s, k)
  {
    hide Count, ExactTokens, ExactCounters, Next, WellFormed;
    NoMarkInFlight(s, k);
    ListedAreFailed(s, k);
  }

  lemma NoMarkInFlight(s: State, k: Id)
    requires WellFormed(s) && ExactCounters(s) && Enabled(s, Reset(k)) && ExactCounters(Next(s, Reset(k)))
    ensures Count(s.work, InFlight(s.retries[k].campaign, SendError)) == 0
  {
    hide Count, Spawn, TasksFor, ResetRows, FailedRows;
    var s', c := Next(s, Reset(k)), s.retries[k].campaign;
    assert ExactCountersAt(s', c) && ExactCountersAt(s, c);
    ResetCount(s.rows, c, c);
    WorkCount(s, Reset(k), InFlight(c, SendError));
    PlannedUnseen(Planning(s, Reset(k)), InFlight(c, SendError));
  }

  lemma ListedAreFailed(s: State, k: Id)
    requires WellFormed(s) && ExactTokens(s) && Enabled(s, Reset(k)) && ExactTokens(Next(s, Reset(k)))
    ensures Elements(s.retries[k].listed) == FailedRows(s.rows, s.retries[k].campaign)
  {
    var c, listed := s.retries[k].campaign, s.retries[k].listed;
    assert RetryFits(s, s.retries[k]);
    forall r ensures r in Elements(listed) <==> r in FailedRows(s.rows, c) {
      if r in s.rows {
        ListedIsFailed(s, k, r);
      }
    }
  }

  lemma ListedIsFailed(s: State, k: Id, r: Id)
    requires WellFormed(s) && ExactTokens(s) && Enabled(s, Reset(k)) && ExactTokens(Next(s, Reset(k))) && r in s.rows
    ensures r in s.retries[k].listed <==> r in FailedRows(s.rows, s.retries[k].campaign)
  {
    hide Count, Spawn, TasksFor;
    var s', c, listed := Next(s, Reset(k)), s.retries[k].campaign, s.retries[k].listed;
    assert RetryFits(s, s.retries[k]);
    WorkCount(s, Reset(k), Awaiting(r));
    AwaitingCount(s.campaigns[c].tenant, c, listed, r);
    assert Count(s.work, Awaiting(r)) == Bit(s.rows[r].status == Pending);
    assert r in s'.rows && Count(s'.work, Awaiting(r)) == Bit(s'.rows[r].status == Pending);
  }

  /** A redelivered task always breaks the one-task rule. */
  lemma RedeliveryBreaksExact(s: State, r: Id)
    requires WellFormed(s) && Exact(s) && Enabled(s, Redeliver(r))
    ensures !Exact(Next(s, Redeliver(r)))
  {
    hide Count;
    WorkCount(s, Redeliver(r), Awaiting(r));
    assert r in Next(s, Redeliver(r)).rows;
  }

  lemma {:induction false} ExactRun(s: State, run: seq<Action>)
    requires Safe(s) && Exact(s) && ValidRun(s, run) && CarefulRun(s, run)
    ensures Safe(After(s, run)) && Exact(After(s, run))
    decreases |run|
  {
    hide WellFormed, Limited, Covered, Awake, Exact;
    if run != [] {
      SafeStep(s, run[0]);
      ExactStep(s, run[0]);
      ExactRun(Next(s, run[0]), run[1..]);
    }
  }
}
