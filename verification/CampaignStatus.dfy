/** The life of one campaign's row: which step sets which status, and what each does to the counters, field by field. */
module CampaignStatus {
  import opened Counting
  import opened Collections
  import opened Campaign
  import opened CampaignInvariants

  /** The step is a handler's counter or completion update, or a reset, for this campaign. */
  predicate Concerns(s: State, a: Action, c: Id)
    requires Enabled(s, a)
  {
    match a
    case Increment(w) => s.work[w].task.campaign == c
    case Check(w) => s.work[w].task.campaign == c
    case Reset(k) => s.retries[k].campaign == c
    case _ => false
  }

  predicate HasFailedRow(rows: map<Id, Recipient>, c: Id) {
    exists r :: r in rows && rows[r].campaign == c && rows[r].status == Failed
  }

  /** A step that does not concern a campaign leaves its row alone; tenant and total never change. */
  lemma OnlyConcerned(s: State, a: Action, c: Id)
    requires WellFormed(s) && Enabled(s, a) && c in s.campaigns
    ensures c in Next(s, a).campaigns
    ensures !Concerns(s, a, c) ==> Next(s, a).campaigns[c] == s.campaigns[c]
    ensures Next(s, a).campaigns[c].tenant == s.campaigns[c].tenant && Next(s, a).campaigns[c].total == s.campaigns[c].total
  {
    hide IsFailedListing, Distinct, Spawn, ResetRows, WithPending, FailedRows, TasksFor;
    FitsItsRow(s, a);
  }

  /** Counting an outcome adds one to its counter and sets running, whatever the status was. */
  lemma IncrementSets(s: State, w: Id, c: Id)
    requires WellFormed(s) && Enabled(s, Increment(w)) && s.work[w].task.campaign == c
    ensures c in s.campaigns && c in Next(s, Increment(w)).campaigns
    ensures var k, k' := s.campaigns[c], Next(s, Increment(w)).campaigns[c];
      && k'.status == Running
      && k'.sent == k.sent + (if s.work[w].stage == Counting(SendOk) then 1 else 0)
      && k'.failed == k.failed + (if s.work[w].stage == Counting(SendError) then 1 else 0)
  {
    FitsItsRow(s, Increment(w));
  }

  /** The check completes a queued or running campaign that has counted its total, and does nothing else. */
  lemma CheckSets(s: State, w: Id, c: Id)
    requires WellFormed(s) && Enabled(s, Check(w)) && s.work[w].task.campaign == c
    ensures c in s.campaigns && c in Next(s, Check(w)).campaigns
    ensures var k, k' := s.campaigns[c], Next(s, Check(w)).campaigns[c];
      && k'.sent == k.sent && k'.failed == k.failed
      && k'.status == if k.sent + k.failed >= k.total && (k.status == Queued || k.status == Running) then Completed else k.status
  {
    FitsItsRow(s, Check(w));
  }

  /** A reset that takes rows back sets running and takes them off the failed counter, down to zero; one that takes none changes nothing. */
  lemma ResetSets(s: State, r: Id, c: Id)
    requires WellFormed(s) && Enabled(s, Reset(r)) && s.retries[r].campaign == c
    ensures c in s.campaigns && c in Next(s, Reset(r)).campaigns
    ensures var k, k' := s.campaigns[c], Next(s, Reset(r)).campaigns[c];
      if HasFailedRow(s.rows, c) then
        var n := |set x | x in s.rows && s.rows[x].campaign == c && s.rows[x].status == Failed|;
        k'.status == Running && k'.sent == k.sent && k'.failed == if n <= k.failed then k.failed - n else 0
      else k' == k
    ensures forall x :: x in Next(s, Reset(r)).rows <==> x in s.rows
    ensures forall x :: x in s.rows ==>
      Next(s, Reset(r)).rows[x] == (if s.rows[x] == Recipient(c, Failed) then Recipient(c, Pending) else s.rows[x])
  {
    hide Spawn, TasksFor;
    var failed := set x | x in s.rows && s.rows[x].campaign == c && s.rows[x].status == Failed;
    assert failed == FailedRows(s.rows, c);
    if x :| x in s.rows && s.rows[x].campaign == c && s.rows[x].status == Failed {
      assert x in failed;
    }
    assert !HasFailedRow(s.rows, c) ==> failed == {};
  }

  /** A new campaign is queued, with nothing counted, and its recipients are pending. */
  lemma CreateSets(s: State, a: Action)
    requires a.Create? && Enabled(s, a)
    ensures a.campaign in Next(s, a).campaigns && Next(s, a).campaigns[a.campaign] == Counters(a.tenant, Queued, |a.recipients|, 0, 0)
    ensures forall r :: r in Next(s, a).rows <==> r in s.rows || r in a.recipients
    ensures forall r :: r in Next(s, a).rows ==> Next(s, a).rows[r] == if r in a.recipients then Recipient(a.campaign, Pending) else s.rows[r]
  {
  }

  /**
   * The status of an existing campaign: no step queues it again; counting and taking rows back
   * make it running; only the check completes it, and only when the total is counted.
   */
  lemma StatusStep(s: State, a: Action, c: Id)
    requires WellFormed(s) && Enabled(s, a) && c in s.campaigns
    ensures c in Next(s, a).campaigns
    ensures var k, k' := s.campaigns[c], Next(s, a).campaigns[c];
      && (k'.status == Queued ==> k == k')
      && (Concerns(s, a, c) && (a.Increment? || (a.Reset? && HasFailedRow(s.rows, c))) ==> k'.status == Running)
      && (k'.status == Completed && k.status != Completed ==> a.Check? && Concerns(s, a, c) && k.sent + k.failed >= k.total)
  {
    hide Next, HasFailedRow, WellFormed;
    OnlyConcerned(s, a, c);
    if Concerns(s, a, c) {
      match a {
        case Increment(w) => IncrementSets(s, w, c);
        case Check(w) => CheckSets(s, w, c);
        case Reset(r) => ResetSets(s, r, c);
      }
    }
  }

  /** A queued campaign has counted nothing. */
  ghost predicate QueuedIsUncounted(s: State) {
    forall c :: c in s.campaigns && s.campaigns[c].status == Queued ==> s.campaigns[c].sent == 0 && s.campaigns[c].failed == 0
  }

  lemma StepQueued(s: State, a: Action)
    requires WellFormed(s) && Enabled(s, a) && QueuedIsUncounted(s)
    ensures QueuedIsUncounted(Next(s, a))
  {
    forall c | c in Next(s, a).campaigns && Next(s, a).campaigns[c].status == Queued
      ensures Next(s, a).campaigns[c].sent == 0 && Next(s, a).campaigns[c].failed == 0
    {
      if c in s.campaigns {
        StatusStep(s, a, c);
      } else {
        CreatesOnly(s, a, c);
        CreateSets(s, a);
      }
    }
  }

  lemma CreatesOnly(s: State, a: Action, c: Id)
    requires Enabled(s, a) && c !in s.campaigns && c in Next(s, a).campaigns
    ensures a.Create? && c == a.campaign
  {
    hide IsFailedListing, Distinct, Spawn, ResetRows, WithPending, FailedRows, TasksFor;
  }

  lemma {:induction false} RunQueued(s: State, run: seq<Action>)
    requires Safe(s) && QueuedIsUncounted(s) && ValidRun(s, run)
    ensures QueuedIsUncounted(After(s, run))
    decreases |run|
  {
    hide Limited, Covered, Awake, QueuedIsUncounted, Next, Enabled, WellFormed;
    if run != [] {
      SafeStep(s, run[0]);
      StepQueued(s, run[0]);
      RunQueued(Next(s, run[0]), run[1..]);
    }
  }
}
