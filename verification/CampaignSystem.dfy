/**
 * The campaign tables, the queue and the limiter as one object whose methods are the source's
 * statements. Each atomic method takes one action of the transition system; the composite
 * methods (a handler, a create, a retry) take theirs in program order. The ghost trace
 * records the actions, so what holds over runs holds of every object.
 */
module CampaignSystem {
  import opened Counting
  import opened Collections
  import opened Campaign
  import opened CampaignInvariants
  import opened CampaignProgress
  import opened CampaignStatus
  import opened Options
  import opened Text

  datatype CreateError = NameRequired | MessageRequired | GroupRequired | NoRecipients

  datatype CreateResult = Created(campaign: Id) | Rejected(error: CreateError)

  /** A client of the group. */
  datatype Contact = Contact(phone: Option<string>)

  predicate HasPhone(contact: Contact) {
    contact.phone.Some? && TrimSpace(contact.phone.value) != ""
  }

  /** The ids given to the contacts that have a phone, in order. */
  function Reachable(contacts: seq<Contact>, ids: seq<Id>): (recs: seq<Id>)
    requires |contacts| == |ids|
  {
    if contacts == [] then []
    else
      var n := |contacts| - 1;
      Reachable(contacts[..n], ids[..n]) + if HasPhone(contacts[n]) then [ids[n]] else []
  }

  lemma {:induction false} ReachableKeepsDistinct(contacts: seq<Contact>, ids: seq<Id>)
    requires |contacts| == |ids| && Distinct(ids)
    ensures Distinct(Reachable(contacts, ids))
    ensures forall i :: 0 <= i < |ids| ==> (ids[i] in Reachable(contacts, ids) <==> HasPhone(contacts[i]))
    ensures forall r :: r in Reachable(contacts, ids) ==> r in ids
  {
    if contacts != [] {
      var n := |contacts| - 1;
      ReachableKeepsDistinct(contacts[..n], ids[..n]);
      assert forall i :: 0 <= i < n ==> ids[i] == ids[..n][i] && contacts[i] == contacts[..n][i];
      assert ids[n] !in ids[..n];
    }
  }

  /** Recipients come in the order of the contacts. */
  lemma {:induction false} ReachableJoins(a: seq<Contact>, b: seq<Contact>, ids: seq<Id>, more: seq<Id>)
    requires |a| == |ids| && |b| == |more|
    ensures Reachable(a + b, ids + more) == Reachable(a, ids) + Reachable(b, more)
    decreases |b|
  {
    if b == [] {
      assert a + b == a && ids + more == ids;
    } else {
      var n := |b| - 1;
      assert (a + b)[..|a + b| - 1] == a + b[..n] && (ids + more)[..|a + b| - 1] == ids + more[..n];
      ReachableJoins(a, b[..n], ids, more[..n]);
    }
  }

  predicate AllPlanned(work: map<Id, Delivery>, first: Id, n: nat) {
    forall w :: first <= w < first + n ==> w in work && work[w].stage == Planned
  }

  function EnqueueRun(first: Id, n: nat): seq<Action> {
    if n == 0 then [] else EnqueueRun(first, n - 1) + [Enqueue(first + n - 1)]
  }

  function HandlerRun(w: Id, o: Outcome): seq<Action> {
    [Acquire(w), Mark(w, o), Increment(w), Check(w), Release(w)]
  }

  lemma {:induction false} RunSnoc(s: State, run: seq<Action>, a: Action)
    requires ValidRun(s, run) && Enabled(After(s, run), a)
    ensures ValidRun(s, run + [a]) && After(s, run + [a]) == Next(After(s, run), a)
    decreases |run|
  {
    hide Next, Enabled;
    if run != [] {
      RunSnoc(Next(s, run[0]), run[1..], a);
      assert (run + [a])[1..] == run[1..] + [a];
    } else {
      assert run + [a] == [a] && [a][1..] == [];
    }
  }

  lemma NothingListed()
    ensures Distinct<Id>([]) && Elements<Id>([]) == {}
  {
  }

  lemma InElements(xs: seq<Id>, x: Id)
    ensures x in Elements(xs) <==> x in xs
  {
  }

  /** One outcome counted and checked: the counter is one up, and the campaign completed if that was its total, running if not. */
  predicate HasCounted(before: map<Id, Counters>, after: map<Id, Counters>, c: Id, o: Outcome) {
    && c in before && after.Keys == before.Keys
    && (forall x :: x in before && x != c ==> after[x] == before[x])
    && var k, k' := before[c], after[c];
       && k'.tenant == k.tenant && k'.total == k.total
       && k'.sent == k.sent + (if o == SendOk then 1 else 0)
       && k'.failed == k.failed + (if o == SendError then 1 else 0)
       && k'.status == if k'.sent + k'.failed >= k.total then Completed else Running
  }

  /** n failed rows of the campaign are pending again, n are off its failed counter, down to zero, and it is running. */
  predicate HasReset(before: map<Id, Recipient>, after: map<Id, Recipient>, was: map<Id, Counters>, now: map<Id, Counters>, c: Id, n: nat) {
    && n == |set r | r in before && before[r] == Recipient(c, Failed)|
    && after.Keys == before.Keys
    && (forall r :: r in before ==> after[r] == if before[r] == Recipient(c, Failed) then Recipient(c, Pending) else before[r])
    && c in was && now.Keys == was.Keys
    && (forall x :: x in was && x != c ==> now[x] == was[x])
    && now[c].status == Running
    && now[c].failed == (if n <= was[c].failed then was[c].failed - n else 0)
    && now[c].sent == was[c].sent && now[c].total == was[c].total && now[c].tenant == was[c].tenant
  }

  lemma ResetHappened(rows: map<Id, Recipient>, campaigns: map<Id, Counters>, c: Id)
    requires c in campaigns
    ensures var n := |FailedRows(rows, c)|;
      && (n > 0 ==> HasReset(rows, ResetRows(rows, c), campaigns, campaigns[c := ResetCounters(campaigns[c], n)], c, n))
      && (n == 0 ==> ResetRows(rows, c) == rows && ResetCounters(campaigns[c], n) == campaigns[c])
  {
    assert (set r | r in rows && rows[r] == Recipient(c, Failed)) == FailedRows(rows, c);
    if |FailedRows(rows, c)| == 0 {
      assert forall r :: r in rows ==> r !in FailedRows(rows, c);
    }
  }

  class System {
    var rows: map<Id, Recipient>
    var campaigns: map<Id, Counters>
    var work: map<Id, Delivery>
    var retries: map<Id, Retry>
    var slots: map<Id, nat>
    const max: nat
    var next: Id
    ghost const requested: int
    ghost var trace: seq<Action>

    function Snapshot(): State
      reads this
    {
      State(rows, campaigns, work, retries, slots, max, next)
    }

    /** The object is where its trace has led from the initial state. */
    ghost predicate Valid()
      reads this
    {
      ValidRun(Init(requested), trace) && After(Init(requested), trace) == Snapshot()
    }

    constructor (requestedMax: int)
      ensures Valid() && trace == [] && requested == requestedMax
      ensures Snapshot() == Init(requestedMax)
    {
      rows, campaigns, work, retries, slots, next := map[], map[], map[], map[], map[], 0;
      max := if requestedMax < 1 then 1 else requestedMax;
      requested := requestedMax;
      trace := [];
    }

    lemma ValidIsSafe()
      requires Valid()
      ensures Safe(Snapshot())
    {
      InitSafe(requested);
      SafeRun(Init(requested), trace);
    }

    ghost method Record(a: Action, before: State)
      requires ValidRun(Init(requested), trace) && After(Init(requested), trace) == before
      requires Enabled(before, a) && Snapshot() == Next(before, a)
      modifies this`trace
      ensures Valid() && trace == old(trace) + [a]
    {
      RunSnoc(Init(requested), trace, a);
      trace := trace + [a];
    }

    // ---------- atomic steps ----------

    method EnqueueTask(w: Id)
      requires Valid() && Enabled(Snapshot(), Enqueue(w))
      modifies this
      ensures Valid() && trace == old(trace) + [Enqueue(w)] && Snapshot() == Next(old(Snapshot()), Enqueue(w))
    {
      hide ValidRun, After, IsFailedListing, Distinct, Spawn, ResetRows, FailedRows, TasksFor, WithPending;
      ghost var before := Snapshot();
      work := work[w := work[w].(stage := InQueue)];
      Record(Enqueue(w), before);
    }

    /** The channel send of acquire: it can be taken only while the tenant's channel has room. */
    method AcquireSlot(w: Id)
      requires Valid() && Enabled(Snapshot(), Acquire(w))
      modifies this
      ensures Valid() && trace == old(trace) + [Acquire(w)] && Snapshot() == Next(old(Snapshot()), Acquire(w))
    {
      hide ValidRun, After, IsFailedListing, Distinct, Spawn, ResetRows, FailedRows, TasksFor, WithPending;
      ghost var before := Snapshot();
      var t := work[w].task.tenant;
      if t !in slots {
        slots := slots[t := 0];
      }
      slots := slots[t := slots[t] + 1];
      work := work[w := work[w].(stage := Sending)];
      Record(Acquire(w), before);
    }

    method ReleaseSlot(w: Id)
      requires Valid() && Enabled(Snapshot(), Release(w))
      modifies this
      ensures Valid() && trace == old(trace) + [Release(w)] && Snapshot() == Next(old(Snapshot()), Release(w))
    {
      hide ValidRun, After, IsFailedListing, Distinct, Spawn, ResetRows, FailedRows, TasksFor, WithPending;
      ghost var before := Snapshot();
      var t := work[w].task.tenant;
      slots := slots[t := slots[t] - 1];
      work := work - {w};
      Record(Release(w), before);
    }

    method UpdateRow(w: Id, o: Outcome)
      requires Valid() && Enabled(Snapshot(), Mark(w, o))
      modifies this
      ensures Valid() && trace == old(trace) + [Mark(w, o)] && Snapshot() == Next(old(Snapshot()), Mark(w, o))
    {
      hide ValidRun, After, IsFailedListing, Distinct, Spawn, ResetRows, FailedRows, TasksFor, WithPending;
      ghost var before := Snapshot();
      var r := work[w].task.recipient;
      if r in rows {
        rows := rows[r := rows[r].(status := if o == SendOk then Sent else Failed)];
        work := work[w := work[w].(stage := Counting(o))];
      } else {
        work := work[w := work[w].(stage := Releasing)];
      }
      Record(Mark(w, o), before);
    }

    method IncrementCounter(w: Id)
      requires Valid() && Enabled(Snapshot(), Increment(w))
      modifies this
      ensures Valid() && trace == old(trace) + [Increment(w)] && Snapshot() == Next(old(Snapshot()), Increment(w))
    {
      hide ValidRun, After, IsFailedListing, Distinct, Spawn, ResetRows, FailedRows, TasksFor, WithPending;
      ghost var before := Snapshot();
      var c := CampaignOf(Snapshot(), w);
      if c in campaigns {
        var k := campaigns[c];
        if work[w].stage.outcome == SendOk {
          k := k.(sent := k.sent + 1);
        } else {
          k := k.(failed := k.failed + 1);
        }
        campaigns := campaigns[c := k.(status := Running)];
      }
      work := work[w := work[w].(stage := Checking)];
      Record(Increment(w), before);
    }

    method CompleteIfCounted(w: Id)
      requires Valid() && Enabled(Snapshot(), Check(w))
      modifies this
      ensures Valid() && trace == old(trace) + [Check(w)] && Snapshot() == Next(old(Snapshot()), Check(w))
    {
      hide ValidRun, After, IsFailedListing, Distinct, Spawn, ResetRows, FailedRows, TasksFor, WithPending;
      ghost var before := Snapshot();
      var c := CampaignOf(Snapshot(), w);
      if c in campaigns {
        var k := campaigns[c];
        if k.sent + k.failed >= k.total && (k.status == Queued || k.status == Running) {
          k := k.(status := Completed);
        }
        campaigns := campaigns[c := k];
      }
      work := work[w := work[w].(stage := Releasing)];
      Record(Check(w), before);
    }

    // ---------- handleSend, alone on the tables ----------

    /** MarkRecipientSent or MarkRecipientFailed: the row, its campaign's counter, the completion check. */
    method MarkRecipient(w: Id, o: Outcome)
      requires Valid() && Enabled(Snapshot(), Mark(w, o)) && TaskFits(Snapshot(), work[w].task)
      modifies this
      ensures Valid() && trace == old(trace) + [Mark(w, o), Increment(w), Check(w)]
      ensures var t := old(work[w].task);
        && rows == old(rows)[t.recipient := Recipient(t.campaign, MarkedStatus(o))]
        && campaigns == old(campaigns)[t.campaign := Checked(Incremented(old(campaigns[t.campaign]), o))]
        && work == old(work)[w := Delivery(t, Releasing)]
      ensures HasCounted(old(campaigns), campaigns, old(work[w].task.campaign), o)
      ensures rows[old(work[w].task.recipient)].status == if o == SendOk then Sent else Failed
      ensures retries == old(retries) && slots == old(slots) && next == old(next)
    {
      hide ValidRun, After;
      UpdateRow(w, o);
      IncrementCounter(w);
      CompleteIfCounted(w);
    }

    /**
     * A handler that is not interleaved with others: acquire, mark, release. It settles its
     * own row, counts it, gives its slot back and leaves nothing behind.
     */
    method HandleSend(w: Id, o: Outcome)
      requires Valid() && Enabled(Snapshot(), Acquire(w))
      modifies this
      ensures Valid() && trace == old(trace) + HandlerRun(w, o)
      ensures work == old(work) - {w} && retries == old(retries)
      ensures forall t :: SlotsOf(slots, t) == old(SlotsOf(slots, t))
      ensures var t := old(work[w].task);
        && t.campaign in old(campaigns)
        && rows == old(rows)[t.recipient := Recipient(t.campaign, MarkedStatus(o))]
        && campaigns == old(campaigns)[t.campaign := Checked(Incremented(old(campaigns[t.campaign]), o))]
      ensures HasCounted(old(campaigns), campaigns, old(work[w].task.campaign), o)
      ensures old(work[w].task.recipient) in rows && rows[old(work[w].task.recipient)].status == if o == SendOk then Sent else Failed
    {
      hide ValidRun, After, Limited, Covered, Awake, HasCounted, Spawn, ResetRows, FailedRows, TasksFor, WithPending, IsFailedListing, Distinct;
      ValidIsSafe();
      assert TaskFits(Snapshot(), work[w].task);
      AcquireSlot(w);
      MarkRecipient(w, o);
      ReleaseSlot(w);
    }

    // ---------- CreateAndEnqueue ----------

    method CreateAndEnqueue(tenant: Id, name: string, message: string, hasGroup: bool, contacts: seq<Contact>, c: Id, ids: seq<Id>)
      returns (result: CreateResult)
      requires Valid() && |ids| == |contacts| && Distinct(ids)
      requires c !in campaigns && forall r :: r in ids ==> r !in rows
      modifies this
      ensures Valid()
      ensures result ==
        if TrimSpace(name) == "" then Rejected(NameRequired)
        else if TrimSpace(message) == "" then Rejected(MessageRequired)
        else if !hasGroup then Rejected(GroupRequired)
        else if Reachable(contacts, ids) == [] then Rejected(NoRecipients)
        else Created(c)
      ensures result.Rejected? ==> Snapshot() == old(Snapshot()) && trace == old(trace)
      ensures result.Created? ==>
        var recs := Reachable(contacts, ids);
        trace == old(trace) + [Create(c, tenant, recs)] + EnqueueRun(old(next), |recs|)
    {
      hide ValidRun, After, Safe, TrimSpace;
      if TrimSpace(name) == "" { return Rejected(NameRequired); }
      if TrimSpace(message) == "" { return Rejected(MessageRequired); }
      if !hasGroup { return Rejected(GroupRequired); }
      var recs := [];
      for i := 0 to |contacts|
        invariant recs == Reachable(contacts[..i], ids[..i])
      {
        assert contacts[..i + 1][..i] == contacts[..i] && ids[..i + 1][..i] == ids[..i];
        var phone := "";
        if contacts[i].phone.Some? {
          phone := TrimSpace(contacts[i].phone.value);
        }
        if phone != "" {
          recs := recs + [ids[i]];
        }
      }
      assert contacts[..|contacts|] == contacts && ids[..|ids|] == ids;
      if recs == [] { return Rejected(NoRecipients); }
      ReachableKeepsDistinct(contacts, ids);
      var first := next;
      InsertCampaign(tenant, c, recs);
      EnqueueAll(first, |recs|);
      result := Created(c);
    }

    /** CreateCampaign and InsertRecipients, and the tasks the service is about to enqueue. */
    method InsertCampaign(tenant: Id, c: Id, recs: seq<Id>)
      requires Valid() && Enabled(Snapshot(), Create(c, tenant, recs))
      modifies this
      ensures Valid() && trace == old(trace) + [Create(c, tenant, recs)]
      ensures Snapshot() == Next(old(Snapshot()), Create(c, tenant, recs))
      ensures AllPlanned(work, old(next), |recs|)
    {
      ghost var before := Snapshot();
      WorkBelowNext();
      campaigns := campaigns[c := Counters(tenant, Queued, |recs|, 0, 0)];
      rows := WithPending(rows, c, recs);
      PlanTasks(TasksFor(tenant, c, recs));
      Record(Create(c, tenant, recs), before);
    }

    lemma WorkBelowNext()
      requires Valid()
      ensures forall w :: w in work ==> w < next
    {
      ValidIsSafe();
    }

    method PlanTasks(tasks: seq<Task>)
      requires forall w :: w in work ==> w < next
      modifies this`work, this`next
      ensures work == Spawn(old(work), old(next), tasks) && next == old(next) + |tasks|
      ensures AllPlanned(work, old(next), |tasks|)
    {
      SpawnKeys(work, next, tasks);
      work := Spawn(work, next, tasks);
      next := next + |tasks|;
    }

    method EnqueueAll(first: Id, n: nat)
      requires Valid() && AllPlanned(work, first, n)
      modifies this
      ensures Valid() && trace == old(trace) + EnqueueRun(first, n)
      ensures rows == old(rows) && campaigns == old(campaigns) && slots == old(slots) && retries == old(retries)
    {
      for i := 0 to n
        invariant Valid() && trace == old(trace) + EnqueueRun(first, i)
        invariant rows == old(rows) && campaigns == old(campaigns) && slots == old(slots) && retries == old(retries)
        invariant AllPlanned(work, first + i, n - i)
      {
        hide ValidRun, After;
        EnqueueTask(first + i);
      }
    }

    // ---------- RetryFailed ----------

    /** The listing query: up to `limit` failed rows of the campaign, or 5000 if that is out of range. */
    method ListFailedRecipients(c: Id, limit: int) returns (listed: seq<Id>)
      ensures IsListing(rows, c, if limit <= 0 || limit > 5000 then 5000 else limit, listed)
    {
      var n := limit;
      if n <= 0 || n > 5000 {
        n := 5000;
      }
      hide Distinct, Elements, FailedRows;
      listed := [];
      var todo := FailedRows(rows, c);
      ghost var all := todo;
      NothingListed();
      while todo != {} && |listed| < n
        invariant Distinct(listed) && Elements(listed) !! todo && Elements(listed) + todo == all
        invariant |listed| + |todo| == |all| && |listed| <= n
        decreases |todo|
      {
        var r :| r in todo;
        InElements(listed, r);
        AddElement(listed, r);
        listed := listed + [r];
        todo := todo - {r};
      }
      forall r | r in listed ensures r in all { InElements(listed, r); }
    }

    /**
     * RetryFailed, alone on the tables: list, reset, enqueue what was listed. Fails on an unknown
     * campaign; does nothing when no row failed; otherwise reports every failed row, listed or not.
     */
    method RetryFailed(tenant: Id, c: Id) returns (found: bool, n: nat, ghost listed: seq<Id>)
      requires Valid()
      modifies this
      ensures Valid()
      ensures found <==> c in old(campaigns) && old(campaigns[c]).tenant == tenant
      ensures n == if found then |FailedRows(old(rows), c)| else 0
      ensures !found || n == 0 ==> Snapshot() == old(Snapshot()) && trace == old(trace)
      ensures found && n > 0 ==>
        && IsFailedListing(old(rows), c, listed)
        && trace == old(trace) + [ListFailed(c, listed), Reset(old(next))] + EnqueueRun(old(next) + 1, |listed|)
        && rows == ResetRows(old(rows), c)
        && campaigns == old(campaigns)[c := ResetCounters(old(campaigns[c]), n)]
      ensures found && n > 0 ==> HasReset(old(rows), rows, old(campaigns), campaigns, c, n)
    {
      hide ValidRun, After, Safe, HasReset, Spawn, ResetRows, FailedRows, TasksFor, WithPending, Distinct;
      found, n, listed := false, 0, [];
      if c !in campaigns || campaigns[c].tenant != tenant {
        return;
      }
      found := true;
      ResetHappened(rows, campaigns, c);
      var failed := ListFailedRecipients(c, RETRY_LIMIT);
      listed := failed;
      if |failed| == 0 {
        return;
      }
      var k := next;
      KeepListing(c, failed);
      n := ResetFailedRecipients(k);
      EnqueueAll(k + 1, |failed|);
    }

    method KeepListing(c: Id, listed: seq<Id>)
      requires Valid() && Enabled(Snapshot(), ListFailed(c, listed))
      modifies this
      ensures Valid() && trace == old(trace) + [ListFailed(c, listed)]
      ensures Snapshot() == Next(old(Snapshot()), ListFailed(c, listed))
    {
      ghost var before := Snapshot();
      retries := retries[next := Retry(c, listed)];
      next := next + 1;
      Record(ListFailed(c, listed), before);
    }

    /** The reset transaction; it returns the number of rows it took back. */
    method ResetFailedRecipients(k: Id) returns (n: nat)
      requires Valid() && Enabled(Snapshot(), Reset(k))
      modifies this
      ensures Valid() && trace == old(trace) + [Reset(k)] && Snapshot() == Next(old(Snapshot()), Reset(k))
      ensures n == |FailedRows(old(rows), old(retries[k]).campaign)|
      ensures n > 0 ==> HasReset(old(rows), rows, old(campaigns), campaigns, old(retries[k]).campaign, n)
      ensures n == 0 ==> rows == old(rows) && campaigns == old(campaigns)
      ensures AllPlanned(work, old(next), |old(retries[k]).listed|)
    {
      hide ValidRun, After, Safe, HasReset, Spawn, FailedRows, TasksFor, WithPending, IsFailedListing, Distinct;
      ghost var before := Snapshot();
      WorkBelowNext();
      var c := retries[k].campaign;
      ResetHappened(rows, campaigns, c);
      var tasks := TasksFor(campaigns[c].tenant, c, retries[k].listed);
      n := |FailedRows(rows, c)|;
      rows := ResetRows(rows, c);
      if n > 0 {
        var q := campaigns[c];
        campaigns := campaigns[c := q.(failed := if q.failed >= n then q.failed - n else 0, status := Running)];
      }
      PlanTasks(tasks);
      retries := retries - {k};
      Record(Reset(k), before);
    }
  }
}
