/**
 * The WhatsApp campaign protocol as a small-step concurrent system. Every SQL statement
 * (and the retry's one transaction), every queue operation and every operation on the
 * per-tenant channel is one atomic action; any interleaving of enabled actions is a run.
 */
module Campaign {
  import opened Counting
  import opened Collections

  type Id = nat

  datatype RecipientStatus = Pending | Sent | Failed

  datatype Recipient = Recipient(campaign: Id, status: RecipientStatus)

  datatype CampaignStatus = Queued | Running | Completed | Aborted | Cancelled

  datatype Counters = Counters(tenant: Id, status: CampaignStatus, total: nat, sent: nat, failed: nat)

  datatype Task = Task(tenant: Id, campaign: Id, recipient: Id)

  datatype Outcome = SendOk | SendError

  /**
   * Where one delivery of a task stands. Planned: the service's loop has yet to enqueue it.
   * InQueue: asynq holds it. From Waiting on, a handler runs it: Waiting is before the
   * channel send of acquire, Sending before the row update, Counting before the counter
   * update, Checking before the completion update, Releasing before the deferred release.
   */
  datatype Stage = Planned | InQueue | Waiting | Sending | Counting(outcome: Outcome) | Checking | Releasing

  datatype Delivery = Delivery(task: Task, stage: Stage)

  /** A RetryFailed call between its listing of failed rows and its reset transaction. */
  datatype Retry = Retry(campaign: Id, listed: seq<Id>)

  datatype State = State(
    rows: map<Id, Recipient>,
    campaigns: map<Id, Counters>,
    work: map<Id, Delivery>,
    retries: map<Id, Retry>,
    slots: map<Id, nat>,
    max: nat,
    next: Id)

  datatype Action =
    | Create(campaign: Id, tenant: Id, recipients: seq<Id>)
    | Enqueue(w: Id)
    | Deliver(w: Id)
    | Acquire(w: Id)
    | Mark(w: Id, outcome: Outcome)
    | Increment(w: Id)
    | Check(w: Id)
    | Release(w: Id)
    | ListFailed(target: Id, listed: seq<Id>)
    | Reset(retry: Id)
    | Redeliver(recipient: Id)

  const RETRY_LIMIT := 5000

  // ---------- the two constructors' worth of initial state ----------

  function LimiterMax(requested: int): (max: nat)
    ensures max >= 1 && (requested >= 1 ==> max == requested) && (requested < 1 ==> max == 1)
  {
    if requested < 1 then 1 else requested
  }

  function Init(requestedMax: int): State {
    State(map[], map[], map[], map[], map[], LimiterMax(requestedMax), 0)
  }

  // ---------- queries ----------

  function IsRow(c: Id, st: RecipientStatus): Recipient -> bool {
    (r: Recipient) => r.campaign == c && r.status == st
  }

  function OfCampaign(c: Id): Recipient -> bool {
    (r: Recipient) => r.campaign == c
  }

  ghost function RowCount(s: State, c: Id, st: RecipientStatus): nat {
    Count(s.rows, IsRow(c, st))
  }

  function FailedRows(rows: map<Id, Recipient>, c: Id): set<Id> {
    set r | r in rows && rows[r].campaign == c && rows[r].status == Failed
  }

  /** SELECT ... WHERE status = 'failed' ... LIMIT n, in some order. */
  predicate IsListing(rows: map<Id, Recipient>, c: Id, n: nat, listed: seq<Id>) {
    && Distinct(listed)
    && (forall r :: r in listed ==> r in FailedRows(rows, c))
    && |listed| == (if |FailedRows(rows, c)| <= n then |FailedRows(rows, c)| else n)
  }

  predicate IsFailedListing(rows: map<Id, Recipient>, c: Id, listed: seq<Id>) {
    IsListing(rows, c, RETRY_LIMIT, listed)
  }

  function SlotsOf(slots: map<Id, nat>, t: Id): nat {
    if t in slots then slots[t] else 0
  }

  // ---------- statement effects ----------

  function MarkedStatus(o: Outcome): RecipientStatus {
    match o
    case SendOk => Sent
    case SendError => Failed
  }

  /** UPDATE ... SET sent = sent + 1, status='running' (or failed = failed + 1). */
  function Incremented(k: Counters, o: Outcome): Counters {
    match o
    case SendOk => k.(sent := k.sent + 1, status := Running)
    case SendError => k.(failed := k.failed + 1, status := Running)
  }

  /** UPDATE ... SET status='completed' WHERE sent + failed >= total AND status IN ('queued','running'). */
  function Checked(k: Counters): Counters {
    if k.sent + k.failed >= k.total && (k.status == Queued || k.status == Running) then k.(status := Completed) else k
  }

  /** UPDATE ... SET failed = GREATEST(failed - n, 0), status = 'running'; skipped when n is 0. */
  function ResetCounters(k: Counters, n: nat): Counters {
    if n == 0 then k else k.(failed := if k.failed >= n then k.failed - n else 0, status := Running)
  }

  function ResetRows(rows: map<Id, Recipient>, c: Id): map<Id, Recipient> {
    map r | r in rows :: if rows[r].campaign == c && rows[r].status == Failed then rows[r].(status := Pending) else rows[r]
  }

  function TasksFor(tenant: Id, c: Id, recipients: seq<Id>): (tasks: seq<Task>)
    ensures |tasks| == |recipients|
    ensures forall i :: 0 <= i < |tasks| ==> tasks[i] == Task(tenant, c, recipients[i])
  {
    seq(|recipients|, i requires 0 <= i < |recipients| => Task(tenant, c, recipients[i]))
  }

  function Spawn(work: map<Id, Delivery>, next: Id, tasks: seq<Task>): map<Id, Delivery>
    decreases |tasks|
  {
    if tasks == [] then work else Spawn(work[next := Delivery(tasks[0], Planned)], next + 1, tasks[1..])
  }

  // ---------- the transition system ----------

  predicate Enabled(s: State, a: Action) {
    match a
    case Create(c, t, recs) => c !in s.campaigns && recs != [] && Distinct(recs) && forall r :: r in recs ==> r !in s.rows
    case Enqueue(w) => w in s.work && s.work[w].stage == Planned
    case Deliver(w) => w in s.work && s.work[w].stage == InQueue
    case Acquire(w) => w in s.work && s.work[w].stage == Waiting && SlotsOf(s.slots, s.work[w].task.tenant) < s.max
    case Mark(w, o) => w in s.work && s.work[w].stage == Sending
    case Increment(w) => w in s.work && s.work[w].stage.Counting?
    case Check(w) => w in s.work && s.work[w].stage == Checking
    case Release(w) => w in s.work && s.work[w].stage == Releasing && SlotsOf(s.slots, s.work[w].task.tenant) > 0
    case ListFailed(c, listed) => c in s.campaigns && IsFailedListing(s.rows, c, listed) && listed != []
    case Reset(k) => k in s.retries && s.retries[k].campaign in s.campaigns
    case Redeliver(r) => r in s.rows && s.rows[r].campaign in s.campaigns
  }

  function Moved(s: State, w: Id, stage: Stage): State
    requires w in s.work
  {
    s.(work := s.work[w := s.work[w].(stage := stage)])
  }

  /** The campaign the row belongs to: the counters move by RETURNING campaign_id, not by the payload. */
  function CampaignOf(s: State, w: Id): Id
    requires w in s.work
  {
    var r := s.work[w].task.recipient;
    if r in s.rows then s.rows[r].campaign else s.work[w].task.campaign
  }

  function WithCampaign(s: State, c: Id, f: Counters -> Counters): State {
    if c in s.campaigns then s.(campaigns := s.campaigns[c := f(s.campaigns[c])]) else s
  }

  function NextMark(s: State, w: Id, o: Outcome): State
    requires w in s.work
  {
    var r := s.work[w].task.recipient;
    if r in s.rows then
      Moved(s, w, Counting(o)).(rows := s.rows[r := s.rows[r].(status := MarkedStatus(o))])
    else
      Moved(s, w, Releasing)
  }

  function NextReset(s: State, k: Id): State
    requires Enabled(s, Reset(k))
  {
    var c := s.retries[k].campaign;
    var tasks := TasksFor(s.campaigns[c].tenant, c, s.retries[k].listed);
    s.(rows := ResetRows(s.rows, c),
       campaigns := s.campaigns[c := ResetCounters(s.campaigns[c], |FailedRows(s.rows, c)|)],
       work := Spawn(s.work, s.next, tasks),
       retries := s.retries - {k},
       next := s.next + |tasks|)
  }

  function WithPending(rows: map<Id, Recipient>, c: Id, recs: seq<Id>): map<Id, Recipient> {
    rows + map r | r in recs :: Recipient(c, Pending)
  }

  function NextCreate(s: State, c: Id, t: Id, recs: seq<Id>): State {
    s.(rows := WithPending(s.rows, c, recs),
       campaigns := s.campaigns[c := Counters(t, Queued, |recs|, 0, 0)],
       work := Spawn(s.work, s.next, TasksFor(t, c, recs)),
       next := s.next + |recs|)
  }

  function Next(s: State, a: Action): State
    requires Enabled(s, a)
  {
    match a
    case Create(c, t, recs) => NextCreate(s, c, t, recs)
    case Enqueue(w) => Moved(s, w, InQueue)
    case Deliver(w) => Moved(s, w, Waiting)
    case Acquire(w) =>
      var t := s.work[w].task.tenant;
      Moved(s, w, Sending).(slots := s.slots[t := SlotsOf(s.slots, t) + 1])
    case Mark(w, o) => NextMark(s, w, o)
    case Increment(w) =>
      var o := s.work[w].stage.outcome;
      Moved(WithCampaign(s, CampaignOf(s, w), k => Incremented(k, o)), w, Checking)
    case Check(w) => Moved(WithCampaign(s, CampaignOf(s, w), k => Checked(k)), w, Releasing)
    case Release(w) =>
      var t := s.work[w].task.tenant;
      s.(work := s.work - {w}, slots := s.slots[t := SlotsOf(s.slots, t) - 1])
    case ListFailed(c, listed) => s.(retries := s.retries[s.next := Retry(c, listed)], next := s.next + 1)
    case Reset(k) => NextReset(s, k)
    case Redeliver(r) =>
      var c := s.rows[r].campaign;
      s.(work := s.work[s.next := Delivery(Task(s.campaigns[c].tenant, c, r), InQueue)], next := s.next + 1)
  }

  // ---------- runs ----------

  predicate ValidRun(s: State, run: seq<Action>)
    decreases |run|
  {
    run == [] || (Enabled(s, run[0]) && ValidRun(Next(s, run[0]), run[1..]))
  }

  function After(s: State, run: seq<Action>): State
    requires ValidRun(s, run)
    decreases |run|
  {
    if run == [] then s else After(Next(s, run[0]), run[1..])
  }
}
