/**
 * What the campaign protocol reaches: counted conservation, quiescence means completed, the
 * workers can always move while work is left, and every maximal worker run is finite and drains.
 */
module CampaignProgress {
  import opened Counting
  import opened Collections
  import opened Campaign
  import opened CampaignInvariants

  // ---------- conservation ----------

  lemma RowsPartition(rows: map<Id, Recipient>, c: Id)
    ensures Count(rows, OfCampaign(c)) == Count(rows, IsRow(c, Pending)) + Count(rows, IsRow(c, Sent)) + Count(rows, IsRow(c, Failed))
  {
    var settled := (r: Recipient) => r.campaign == c && r.status != Pending;
    CountSplit(rows, OfCampaign(c), IsRow(c, Pending), settled);
    CountSplit(rows, settled, IsRow(c, Sent), IsRow(c, Failed));
  }

  /** Counted, in-flight and pending recipients always add up to the campaign's total. */
  lemma Conservation(s: State, c: Id)
    requires Safe(s) && Exact(s) && c in s.campaigns
    ensures s.campaigns[c].sent + Count(s.work, InFlight(c, SendOk))
          + s.campaigns[c].failed + Count(s.work, InFlight(c, SendError))
          + RowCount(s, c, Pending) == s.campaigns[c].total
  {
    hide Count;
    RowsPartition(s.rows, c);
    assert ExactCountersAt(s, c) && AwakeAt(s, c);
  }

  // ---------- quiescence ----------

  /**
   * Once no delivery of a campaign is left before its release, and none of its rows is
   * pending, the campaign is completed: whatever was redelivered, retried or clamped.
   */
  lemma QuiescentCompletes(s: State, c: Id)
    requires Safe(s) && c in s.campaigns
    requires Count(s.work, Outstanding(c)) == 0 && RowCount(s, c, Pending) == 0
    ensures s.campaigns[c].status == Completed
    ensures s.campaigns[c].sent + s.campaigns[c].failed >= s.campaigns[c].total
  {
    NothingInFlight(s, c);
    hide Count;
    RowsPartition(s.rows, c);
    assert CoveredAt(s, c) && AwakeAt(s, c);
  }

  lemma NothingInFlight(s: State, c: Id)
    requires Count(s.work, Outstanding(c)) == 0
    ensures forall o :: Count(s.work, InFlight(c, o)) == 0
  {
    forall w | w in s.work ensures !Outstanding(c)(s.work[w]) {
      if Outstanding(c)(s.work[w]) {
        CountPositive(s.work, w, Outstanding(c));
      }
    }
    forall o ensures Count(s.work, InFlight(c, o)) == 0 {
      CountZero(s.work, InFlight(c, o));
    }
  }

  /** With exact tokens, an idle campaign is completed, fully settled and counted to the row. */
  lemma ExactQuiescence(s: State, c: Id)
    requires Safe(s) && Exact(s) && c in s.campaigns
    requires Count(s.work, Outstanding(c)) == 0
    ensures s.campaigns[c].status == Completed
    ensures forall r :: r in s.rows && s.rows[r].campaign == c ==> s.rows[r].status != Pending
    ensures s.campaigns[c].sent == RowCount(s, c, Sent) && s.campaigns[c].failed == RowCount(s, c, Failed)
    ensures s.campaigns[c].sent + s.campaigns[c].failed == s.campaigns[c].total
  {
    forall r | r in s.rows && s.rows[r].campaign == c ensures s.rows[r].status != Pending {
      if s.rows[r].status == Pending {
        PendingIsOutstanding(s, r);
      }
    }
    CountZero(s.rows, IsRow(c, Pending));
    QuiescentCompletes(s, c);
    NothingInFlight(s, c);
    Conservation(s, c);
    assert ExactCountersAt(s, c);
  }

  lemma PendingIsOutstanding(s: State, r: Id)
    requires WellFormed(s) && ExactTokens(s) && r in s.rows && s.rows[r].status == Pending
    ensures Count(s.work, Outstanding(s.rows[r].campaign)) > 0
  {
    hide Count;
    assert Count(s.work, Awaiting(r)) == 1;
    var w := CountWitness(s.work, Awaiting(r));
    assert TaskFits(s, s.work[w].task);
    CountPositive(s.work, w, Outstanding(s.rows[r].campaign));
  }

  /** A pending recipient that no delivery will settle exists only where a reset was not careful. */
  lemma OrphanNeedsCarelessness(s: State, run: seq<Action>, r: Id)
    requires Safe(s) && Exact(s) && ValidRun(s, run)
    requires var s' := After(s, run); r in s'.rows && s'.rows[r].status == Pending && Count(s'.work, Awaiting(r)) == 0
    ensures !CarefulRun(s, run)
  {
    if CarefulRun(s, run) {
      ExactRun(s, run);
    }
  }

  // ---------- progress ----------

  predicate IsWorkerAction(a: Action) {
    Moves(a) || a.Release?
  }

  predicate WorkerRun(run: seq<Action>) {
    forall i :: 0 <= i < |run| ==> IsWorkerAction(run[i])
  }

  /** While any delivery is left, some step of the service, the queue or a handler is enabled. */
  lemma WorkersCanMove(s: State) returns (a: Action)
    requires Safe(s) && s.work != map[]
    ensures IsWorkerAction(a) && Enabled(s, a)
  {
    hide Count, WellFormed, Covered, Awake, IsFailedListing;
    var w :| w in s.work;
    match s.work[w].stage {
      case Waiting =>
        var t := s.work[w].task.tenant;
        if SlotsOf(s.slots, t) < s.max {
          a := Acquire(w);
        } else {
          var h := CountWitness(s.work, Holding(t));
          a := HolderMove(s, h);
        }
      case Planned => a := Enqueue(w);
      case InQueue => a := Deliver(w);
      case _ => a := HolderMove(s, w);
    }
  }

  lemma HolderMove(s: State, w: Id) returns (a: Action)
    requires Limited(s) && w in s.work && Holding(s.work[w].task.tenant)(s.work[w])
    ensures IsWorkerAction(a) && Enabled(s, a)
  {
    match s.work[w].stage {
      case Sending => a := Mark(w, SendOk);
      case Counting(_) => a := Increment(w);
      case Checking => a := Check(w);
      case _ =>
        ReleaseNeverBlocks(s, w);
        a := Release(w);
    }
  }

  function StepsLeft(st: Stage): nat {
    match st
    case Planned => 7
    case InQueue => 6
    case Waiting => 5
    case Sending => 4
    case Counting(_) => 3
    case Checking => 2
    case Releasing => 1
  }

  function AtLeast(k: nat): Delivery -> bool {
    (d: Delivery) => StepsLeft(d.stage) >= k
  }

  /** Steps left over all deliveries, as the number of deliveries with at least k left, summed over k. */
  ghost function Potential(work: map<Id, Delivery>, k: nat): nat
    decreases 7 - k
  {
    if k >= 7 then 0 else Count(work, AtLeast(k + 1)) + Potential(work, k + 1)
  }

  lemma {:induction false} PotentialStep(s: State, a: Action, k: nat)
    requires WellFormed(s) && Enabled(s, a) && IsWorkerAction(a) && k <= 7
    ensures Potential(Next(s, a).work, k) == Potential(s.work, k) - Bit(StepsLeft(s.work[a.w].stage) > k)
    decreases 7 - k
  {
    hide Count, IsFailedListing, Distinct, FailedRows, Spawn, ResetRows, TasksFor, WithPending, Checked, Incremented, WellFormed;
    FitsItsRow(s, a);
    assert TaskFits(s, s.work[a.w].task);
    if k < 7 {
      WorkCount(s, a, AtLeast(k + 1));
      PotentialStep(s, a, k + 1);
    }
  }

  lemma WorkerStepIsCareful(s: State, a: Action)
    requires IsWorkerAction(a) && Enabled(s, a)
    ensures Careful(s, a)
  {
  }

  lemma {:induction false} WorkerRunBound(s: State, run: seq<Action>)
    requires Safe(s) && ValidRun(s, run) && WorkerRun(run)
    ensures |run| + Potential(After(s, run).work, 0) == Potential(s.work, 0)
    ensures Exact(s) ==> CarefulRun(s, run)
    decreases |run|
  {
    hide WellFormed, Limited, Covered, Awake, Exact, Count, Next, Careful;
    if run != [] {
      var a := run[0];
      assert IsWorkerAction(a);
      SafeStep(s, a);
      PotentialStep(s, a, 0);
      WorkerStepIsCareful(s, a);
      if Exact(s) {
        ExactStep(s, a);
      }
      WorkerRunBound(Next(s, a), run[1..]);
    }
  }

  /**
   * From an exact state, every worker run is finite, and one that cannot be extended has
   * taken exactly the steps that were left, emptied queue and handlers, and completed and
   * settled every campaign.
   */
  lemma MaximalRunCompletes(s: State, run: seq<Action>)
    requires Safe(s) && Exact(s) && ValidRun(s, run) && WorkerRun(run)
    requires forall a :: IsWorkerAction(a) ==> !Enabled(After(s, run), a)
    ensures var s' := After(s, run);
      && |run| == Potential(s.work, 0)
      && s'.work == map[]
      && (forall c :: c in s'.campaigns ==> s'.campaigns[c].status == Completed && s'.campaigns[c].sent + s'.campaigns[c].failed == s'.campaigns[c].total)
      && (forall r :: r in s'.rows ==> s'.rows[r].status != Pending)
  {
    var s' := After(s, run);
    WorkerRunBound(s, run);
    ExactRun(s, run);
    if s'.work != map[] {
      var a := WorkersCanMove(s');
    }
    EmptyPotential(0);
    forall c | c in s'.campaigns
      ensures s'.campaigns[c].status == Completed && s'.campaigns[c].sent + s'.campaigns[c].failed == s'.campaigns[c].total
      ensures forall r :: r in s'.rows && s'.rows[r].campaign == c ==> s'.rows[r].status != Pending
    {
      CountZero(s'.work, Outstanding(c));
      ExactQuiescence(s', c);
    }
  }

  lemma {:induction false} EmptyPotential(k: nat)
    requires k <= 7
    ensures Potential(map[], k) == 0
    decreases 7 - k
  {
    if k < 7 {
      CountZero<Id, Delivery>(map[], AtLeast(k + 1));
      EmptyPotential(k + 1);
    }
  }

  // ---------- when a retry is careful ----------

  /** The listing names every failed row if and only if there are at most RETRY_LIMIT of them. */
  lemma ListingIsComplete(rows: map<Id, Recipient>, c: Id, listed: seq<Id>)
    requires IsFailedListing(rows, c, listed)
    ensures Elements(listed) == FailedRows(rows, c) <==> |FailedRows(rows, c)| <= 5000
  {
    DistinctSize(listed);
    assert Elements(listed) <= FailedRows(rows, c);
    if |FailedRows(rows, c)| <= RETRY_LIMIT {
      SubsetSize(Elements(listed), FailedRows(rows, c));
    }
  }

  // ---------- runs from the start that are not exact ----------

  /** A campaign with one recipient and one task of it, which alone has acted. */
  function Lone(st: RecipientStatus, stage: Stage, slots: map<Id, nat>): State {
    State(map[1 := Recipient(0, st)], map[0 := Counters(7, Queued, 1, 0, 0)], map[0 := Delivery(Task(7, 0, 1), stage)], map[], slots, 1, 1)
  }

  function FailedSend(): seq<Action> {
    [Create(0, 7, [1]), Enqueue(0), Deliver(0), Acquire(0), Mark(0, SendError)]
  }

  predicate Steps(s: State, a: Action, s': State) {
    Enabled(s, a) && Next(s, a) == s' && !a.Reset? && !a.Redeliver?
  }

  lemma LoneHandled()
    ensures Steps(Lone(Pending, Planned, map[]), Enqueue(0), Lone(Pending, InQueue, map[]))
    ensures Steps(Lone(Pending, InQueue, map[]), Deliver(0), Lone(Pending, Waiting, map[]))
  {
    hide IsFailedListing, Distinct, FailedRows, Spawn, ResetRows, TasksFor, WithPending, ResetCounters, Checked;
  }

  lemma LoneFails(full: map<Id, nat>)
    requires full == map[7 := 1]
    ensures Steps(Lone(Pending, Waiting, map[]), Acquire(0), Lone(Pending, Sending, full))
    ensures Steps(Lone(Pending, Sending, full), Mark(0, SendError), Lone(Failed, Counting(SendError), full))
  {
    hide IsFailedListing, Distinct, FailedRows, Spawn, ResetRows, TasksFor, WithPending, ResetCounters, Checked;
  }

  /** The run is valid and careful and leads from s to s'. */
  ghost predicate Leads(s: State, run: seq<Action>, s': State) {
    ValidRun(s, run) && CarefulRun(s, run) && After(s, run) == s'
  }

  lemma LeadsNowhere(s: State)
    ensures Leads(s, [], s)
  {
  }

  lemma LeadsFrom(s: State, a: Action, s1: State, run: seq<Action>, s': State)
    requires Steps(s, a, s1) && Leads(s1, run, s')
    ensures Leads(s, [a] + run, s')
  {
    hide Next, Enabled;
    assert ([a] + run)[1..] == run;
  }

  lemma FailedSendRuns()
    ensures Leads(Init(1), FailedSend(), Lone(Failed, Counting(SendError), map[7 := 1]))
  {
    var full := map[7 := 1];
    var s1, s2, s3, s4 := Lone(Pending, Planned, map[]), Lone(Pending, InQueue, map[]), Lone(Pending, Waiting, map[]), Lone(Pending, Sending, full);
    var s5 := Lone(Failed, Counting(SendError), full);
    FirstCampaign();
    LoneHandled();
    LoneFails(full);
    hide *;
    LeadsNowhere(s5);
    LeadsFrom(s4, Mark(0, SendError), s5, [], s5);
    LeadsFrom(s3, Acquire(0), s4, [Mark(0, SendError)] + [], s5);
    LeadsFrom(s2, Deliver(0), s3, [Acquire(0)] + ([Mark(0, SendError)] + []), s5);
    LeadsFrom(s1, Enqueue(0), s2, [Deliver(0)] + ([Acquire(0)] + ([Mark(0, SendError)] + [])), s5);
    var rest := [Enqueue(0)] + ([Deliver(0)] + ([Acquire(0)] + ([Mark(0, SendError)] + [])));
    LeadsFrom(Init(1), Create(0, 7, [1]), s1, rest, s5);
    FailedSendIs();
  }

  lemma FailedSendIs()
    ensures FailedSend() == [Create(0, 7, [1])] + ([Enqueue(0)] + ([Deliver(0)] + ([Acquire(0)] + ([Mark(0, SendError)] + []))))
  {
  }

  /** One recipient, whose send fails; a retry lists and resets it before the failure is counted. */
  lemma ResetDuringMark()
    ensures ValidRun(Init(1), FailedSend())
    ensures var s := After(Init(1), FailedSend());
      && Exact(s) && Enabled(s, ListFailed(0, [1]))
      && var listed := Next(s, ListFailed(0, [1]));
         Exact(listed) && Enabled(listed, Reset(1)) && !Exact(Next(listed, Reset(1)))
  {
    FailedSendRuns();
    InitSafe(1);
    ExactRun(Init(1), FailedSend());
    ListedDuringMark();
    var s := Lone(Failed, Counting(SendError), map[7 := 1]);
    hide Next, Enabled, Lone, WellFormed, Limited, Covered, Awake, Exact, FailedSend;
    SafeStep(s, ListFailed(0, [1]));
    ExactStep(s, ListFailed(0, [1]));
    ResetKeepsExact(Next(s, ListFailed(0, [1])), 1);
  }

  lemma ListedDuringMark()
    ensures var s := Lone(Failed, Counting(SendError), map[7 := 1]);
      && Enabled(s, ListFailed(0, [1])) && Careful(s, ListFailed(0, [1]))
      && var listed := Next(s, ListFailed(0, [1]));
         Enabled(listed, Reset(1)) && !ResetIsCareful(listed, 1)
  {
    hide IsFailedListing, Count;
    var s := Lone(Failed, Counting(SendError), map[7 := 1]);
    OneFailedRow();
    CountPositive(s.work, 0, InFlight(0, SendError));
  }

  lemma FirstCampaign()
    ensures Steps(Init(1), Create(0, 7, [1]), Lone(Pending, Planned, map[]))
  {
    var tasks := TasksFor(7, 0, [1]);
    assert tasks == [Task(7, 0, 1)] && tasks[1..] == [];
    assert Spawn(map[], 0, tasks) == Spawn(map[0 := Delivery(tasks[0], Planned)], 1, []);
    assert WithPending(map[], 0, [1]) == map[1 := Recipient(0, Pending)];
  }

  lemma OneFailedRow()
    ensures IsFailedListing(map[1 := Recipient(0, Failed)], 0, [1])
  {
    assert FailedRows(map[1 := Recipient(0, Failed)], 0) == {1};
  }

  /** One recipient, whose task the queue delivers once more. */
  lemma DeliveredTwice()
    ensures ValidRun(Init(1), [Create(0, 7, [1])])
    ensures var s := After(Init(1), [Create(0, 7, [1])]);
      Exact(s) && Enabled(s, Redeliver(1)) && !Exact(Next(s, Redeliver(1)))
  {
    var s, run := Lone(Pending, Planned, map[]), [Create(0, 7, [1])];
    FirstCampaign();
    InitSafe(1);
    assert Enabled(s, Redeliver(1));
    LeadsNowhere(s);
    LeadsFrom(Init(1), run[0], s, [], s);
    assert [run[0]] + [] == run;
    hide Next, Enabled, Lone, WellFormed, Limited, Covered, Awake, Exact, ValidRun, CarefulRun, After, Steps;
    ExactRun(Init(1), run);
    RedeliveryBreaksExact(s, 1);
  }
}
