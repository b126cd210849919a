/** Outages reported and resolved while points and locations change: what is marked, what stays marked, what clears it. */
module OutageRuns {
  import opened Options
  import opened FiberMap
  import opened Outages

  // ---------- report and resolve as functions on the tables ----------

  /** Statuses rewritten by `to` on the nodes of `done`. */
  function Rewrite(t: Tables, done: set<Node>, to: Node -> NodeStatus): Tables {
    Tables(
      map id | id in t.odcs :: if Odc(id) in done then to(Odc(id)) else t.odcs[id],
      map id | id in t.odps :: if Odp(id) in done then t.odps[id].(status := to(Odp(id))) else t.odps[id],
      map id | id in t.locations :: if Client(id) in done then t.locations[id].(status := to(Client(id))) else t.locations[id],
      t.links)
  }

  lemma RewriteRewrites(t: Tables, done: set<Node>, to: Node -> NodeStatus)
    ensures Rewritten(t, Rewrite(t, done, to), done, to)
  {
  }

  /** What a report and a resolution promise determines the tables after them. */
  lemma RewrittenIs(t: Tables, t': Tables, done: set<Node>, to: Node -> NodeStatus)
    requires Rewritten(t, t', done, to)
    ensures t' == Rewrite(t, done, to)
  {
    var r := Rewrite(t, done, to);
    RewriteRewrites(t, done, to);
    assert forall n :: Exists(t, n) <==> Exists(r, n);
    forall n | Exists(r, n) ensures StatusOf(t', n) == StatusOf(r, n) {
      assert Exists(t, n);
    }
    SameStatusesSameTables(r, t');
  }

  // ---------- events ----------

  datatype Event = Report(node: Node) | Resolve(node: Node) | Change(op: Op)

  predicate FreshEvent(t: Tables, e: Event) {
    e.Change? ==> Fresh(t, e.op)
  }

  function AfterEvent(t: Tables, e: Event): Tables {
    match e
    case Report(node) => Rewrite(t, Subtree(t.links, node), Always(Outage))
    case Resolve(node) => Rewrite(t, Subtree(t.links, node), RestoreTo(t, node))
    case Change(op) => Apply(t, op)
  }

  predicate Marks(t: Tables, e: Event, n: Node) {
    e.Report? && n in Subtree(t.links, e.node)
  }

  /** Resolving any outage above the node, its own or an overlapping one, and updating the point. */
  predicate Clears(t: Tables, e: Event, n: Node) {
    match e
    case Report(_) => false
    case Resolve(node) => n in Subtree(t.links, node)
    case Change(op) =>
      op.UpdateOdp? && n == Odp(op.id) && op.id in t.odps &&
      t.odps[op.id].usedPorts <= if op.newCount.Some? then op.newCount.value else t.odps[op.id].portCount
  }

  predicate IsOut(t: Tables, n: Node) {
    Exists(t, n) && StatusOf(t, n) == Outage
  }

  lemma ChangeOutExactly(t: Tables, op: Op, n: Node)
    requires Fresh(t, op) && Exists(Apply(t, op), n)
    ensures IsOut(Apply(t, op), n) <==> IsOut(t, n) && !Clears(t, Change(op), n)
  {
    hide WithLink;
  }

  /** A node that exists after an event is out exactly when the event marks it, or it was out and the event does not clear it; so new nodes start well. */
  lemma OutExactly(t: Tables, e: Event, n: Node)
    requires FreshEvent(t, e) && Exists(AfterEvent(t, e), n)
    ensures IsOut(AfterEvent(t, e), n) <==> Marks(t, e, n) || (IsOut(t, n) && !Clears(t, e, n))
  {
    match e {
      case Report(node) => RewriteRewrites(t, Subtree(t.links, node), Always(Outage));
      case Resolve(node) => RewriteRewrites(t, Subtree(t.links, node), RestoreTo(t, node));
      case Change(op) => ChangeOutExactly(t, op, n);
    }
  }

  // ---------- runs ----------

  ghost predicate ValidEvents(t: Tables, run: seq<Event>)
    decreases |run|
  {
    run == [] || (FreshEvent(t, run[0]) && ValidEvents(AfterEvent(t, run[0]), run[1..]))
  }

  function AfterEvents(t: Tables, run: seq<Event>): Tables
    decreases |run|
  {
    if run == [] then t else AfterEvents(AfterEvent(t, run[0]), run[1..])
  }

  /** Some event of the run clears the node, or removes it. */
  ghost predicate ClearedIn(t: Tables, run: seq<Event>, n: Node)
    decreases |run|
  {
    run != [] && (Clears(t, run[0], n) || !Exists(AfterEvent(t, run[0]), n) || ClearedIn(AfterEvent(t, run[0]), run[1..], n))
  }

  /** A node that is out stays out over every run in which nothing clears or removes it. */
  lemma {:induction false} StaysOut(t: Tables, run: seq<Event>, n: Node)
    requires IsOut(t, n) && ValidEvents(t, run) && !ClearedIn(t, run, n)
    ensures IsOut(AfterEvents(t, run), n)
    decreases |run|
  {
    hide AfterEvent, Clears;
    if run != [] {
      OutExactly(t, run[0], n);
      StaysOut(AfterEvent(t, run[0]), run[1..], n);
    }
  }

  /** After a report, over every run: all that existed below the node then is out, unless cleared or removed since. */
  lemma ReportedStaysOut(t: Tables, root: Node, run: seq<Event>, n: Node)
    requires Exists(t, n) && n in Subtree(t.links, root)
    requires var t' := AfterEvent(t, Report(root)); ValidEvents(t', run) && !ClearedIn(t', run, n)
    ensures IsOut(AfterEvents(AfterEvent(t, Report(root)), run), n)
  {
    RewriteRewrites(t, Subtree(t.links, root), Always(Outage));
    OutExactly(t, Report(root), n);
    StaysOut(AfterEvent(t, Report(root)), run, n);
  }

  lemma SameNodes(t: Tables, e: Event, n: Node)
    requires !e.Change?
    ensures AfterEvent(t, e).links == t.links
    ensures Exists(AfterEvent(t, e), n) <==> Exists(t, n)
  {
  }

  /** Resolving the outage of a point clears it although the outage of its cabinet goes on. */
  lemma OverlapClears(t: Tables, root: Node, p: Node)
    requires root != p && Exists(t, root) && Exists(t, p) && root !in Subtree(t.links, p) && p in Subtree(t.links, root)
    ensures var t' := AfterEvents(t, [Report(root), Report(p), Resolve(p)]); IsOut(t', root) && Exists(t', p) && !IsOut(t', p)
  {
    hide Subtree, AfterEvent, Exists;
    var run := [Report(root), Report(p), Resolve(p)];
    var t1 := AfterEvent(t, run[0]);
    var t2 := AfterEvent(t1, run[1]);
    assert run[1..][1..] == [run[2]] && [run[2]][1..] == [];
    assert AfterEvents(t, run) == AfterEvents(t1, run[1..]) == AfterEvents(t2, [run[2]]) == AfterEvents(AfterEvent(t2, run[2]), []);
    forall n ensures Exists(t, n) ==> Exists(t1, n) && Exists(t2, n) && Exists(AfterEvent(t2, run[2]), n) {
      SameNodes(t, run[0], n);
      SameNodes(t1, run[1], n);
      SameNodes(t2, run[2], n);
    }
    RootInSubtree(t.links, root);
    RootInSubtree(t.links, p);
    SameNodes(t, run[0], p);
    SameNodes(t1, run[1], p);
    OutExactly(t, run[0], root);
    OutExactly(t1, run[1], root);
    OutExactly(t2, run[2], root);
    OutExactly(t2, run[2], p);
  }

  lemma RootInSubtree(links: seq<Link>, root: Node)
    ensures root in Subtree(links, root)
  {
  }
}
