/**
 * Outages on the fibre tree: the links every run keeps a forest, the cascade that marks a
 * node and what hangs below it, and the restore that undoes it.
 */
module Outages {
  import opened Options
  import opened Collections
  import opened FiberMap

  // ---------- the link set is a forest ----------

  predicate Typed(l: Link) {
    (l.parent.Odc? && l.child.Odp?) || (l.parent.Odp? && l.child.Client?)
  }

  /** Every link goes from a cabinet to a point or from a point to a client, and no node has two parents. */
  predicate IsForest(links: seq<Link>) {
    && (forall l :: l in links ==> Typed(l))
    && (forall i, j :: 0 <= i < j < |links| ==> links[i].child != links[j].child)
  }

  lemma StepKeepsForest(t: Tables, op: Op)
    requires IsForest(t.links) && Fresh(t, op)
    ensures IsForest(Apply(t, op).links)
  {
    hide CapacityStatus;
  }

  lemma {:induction false} RunKeepsForest(t: Tables, run: seq<Op>)
    requires IsForest(t.links) && ValidRun(t, run)
    ensures IsForest(After(t, run).links)
    decreases |run|
  {
    if run != [] {
      StepKeepsForest(t, run[0]);
      RunKeepsForest(Apply(t, run[0]), run[1..]);
    }
  }

  // ---------- queries on links ----------

  /** SELECT to_id ... WHERE from = node AND to_type = ...: the children in table order. */
  function Children(links: seq<Link>, node: Node): seq<Node> {
    if links == [] then [] else (if links[0].parent == node && Typed(links[0]) then [links[0].child] else []) + Children(links[1..], node)
  }

  /** SELECT DISTINCT tl2.to_id: the two-hop join. */
  function ClientsByOdc(links: seq<Link>, odc: Node): set<Node> {
    set l1, l2 | l1 in links && l2 in links && l1.parent == odc && l1.child == l2.parent && l1.child.Odp? && l2.child.Client? :: l2.child
  }

  /** The nodes below a node: its children, and theirs. */
  function Below(links: seq<Link>, node: Node): set<Node> {
    (set c | c in Children(links, node)) + set c, d | c in Children(links, node) && d in Children(links, c) :: d
  }

  lemma {:induction false} ChildrenAre(links: seq<Link>, node: Node, child: Node)
    ensures child in Children(links, node) <==> Link(node, child) in links && Typed(Link(node, child))
  {
    if links != [] {
      ChildrenAre(links[1..], node, child);
      assert links == [links[0]] + links[1..];
    }
  }

  lemma {:induction false} ChildrenDistinct(links: seq<Link>, node: Node)
    requires IsForest(links)
    ensures Distinct(Children(links, node))
  {
    if links != [] {
      assert IsForest(links[1..]);
      ChildrenDistinct(links[1..], node);
      ChildrenAre(links[1..], node, links[0].child);
    }
  }

  lemma OneParent(links: seq<Link>, a: Node, b: Node, child: Node)
    requires IsForest(links) && child in Children(links, a) && child in Children(links, b)
    ensures a == b
  {
    ChildrenAre(links, a, child);
    ChildrenAre(links, b, child);
    var i :| 0 <= i < |links| && links[i] == Link(a, child);
    var j :| 0 <= j < |links| && links[j] == Link(b, child);
  }

  lemma ChildKinds(links: seq<Link>, node: Node, child: Node)
    requires child in Children(links, node)
    ensures (node.Odc? && child.Odp?) || (node.Odp? && child.Client?)
  {
    ChildrenAre(links, node, child);
  }

  // ---------- the cascade ----------

  /** The affected list of an outage: below a cabinet, each point followed by its clients. */
  function Cascade(links: seq<Link>, points: seq<Node>): (affected: seq<Node>) {
    if points == [] then [] else Cascade(links, points[..|points| - 1]) + [points[|points| - 1]] + Children(links, points[|points| - 1])
  }

  function Affected(links: seq<Link>, node: Node): seq<Node> {
    match node
    case Odc(_) => Cascade(links, Children(links, node))
    case Odp(_) => Children(links, node)
    case Client(_) => []
  }

  lemma {:induction false} CascadeContents(links: seq<Link>, points: seq<Node>, x: Node)
    ensures x in Cascade(links, points) <==> x in points || exists p :: p in points && x in Children(links, p)
  {
    if points != [] {
      var front, last := points[..|points| - 1], points[|points| - 1];
      CascadeContents(links, front, x);
      assert points == front + [last];
      if p :| p in points && x in Children(links, p) {
        assert p in front || p == last;
      }
    }
  }

  /** One more point adds itself and its clients. */
  lemma CascadeSnoc(links: seq<Link>, points: seq<Node>, i: nat)
    requires i < |points|
    ensures Cascade(links, points[..i + 1]) == Cascade(links, points[..i]) + [points[i]] + Children(links, points[i])
    ensures Elements(Cascade(links, points[..i + 1])) == Elements(Cascade(links, points[..i])) + ({points[i]} + Elements(Children(links, points[i])))
  {
    hide Children;
    assert points[..i + 1][..i] == points[..i];
  }

  lemma CascadeNone(links: seq<Link>, points: seq<Node>)
    ensures Cascade(links, points[..0]) == [] && Elements(Cascade(links, points[..0])) == {}
  {
  }

  lemma {:induction false} CascadeDistinct(links: seq<Link>, odc: Node, points: seq<Node>)
    requires IsForest(links) && odc.Odc? && Distinct(points)
    requires forall p :: p in points ==> p in Children(links, odc)
    ensures Distinct(Cascade(links, points))
  {
    if points != [] {
      var front, last := points[..|points| - 1], points[|points| - 1];
      CascadeDistinct(links, odc, front);
      ChildrenDistinct(links, last);
      var before, own := Cascade(links, front), Children(links, last);
      ChildKinds(links, odc, last);
      forall x | x in before ensures x != last && x !in own {
        CascadeContents(links, front, x);
        if x in front {
          ChildKinds(links, odc, x);
          if x in own { ChildKinds(links, last, x); }
        } else {
          var p :| p in front && x in Children(links, p);
          ChildKinds(links, p, x);
          ChildKinds(links, odc, p);
          if x in own { OneParent(links, p, last, x); }
        }
      }
      forall x | x in own ensures x != last {
        ChildKinds(links, last, x);
      }
      JoinDistinct(before, [last]);
      JoinDistinct(before + [last], own);
    }
  }

  /** An outage on a cabinet affects exactly its two-hop descendants, each listed once; its clients are the join's. */
  lemma OdcCascade(links: seq<Link>, odc: Node)
    requires IsForest(links) && odc.Odc?
    ensures Distinct(Affected(links, odc))
    ensures forall x :: x in Affected(links, odc) <==> x in Below(links, odc)
    ensures forall x :: x in ClientsByOdc(links, odc) <==> x in Affected(links, odc) && x.Client?
  {
    var points := Children(links, odc);
    ChildrenDistinct(links, odc);
    CascadeDistinct(links, odc, points);
    forall x ensures x in Affected(links, odc) <==> x in Below(links, odc) {
      CascadeContents(links, points, x);
    }
    forall x ensures x in ClientsByOdc(links, odc) <==> x in Affected(links, odc) && x.Client? {
      JoinMeetsCascade(links, odc, x);
    }
  }

  lemma JoinMeetsCascade(links: seq<Link>, odc: Node, x: Node)
    requires IsForest(links) && odc.Odc?
    ensures x in ClientsByOdc(links, odc) <==> x in Affected(links, odc) && x.Client?
  {
    var points := Children(links, odc);
    CascadeContents(links, points, x);
    if x in ClientsByOdc(links, odc) {
      var l1, l2 :| l1 in links && l2 in links && l1.parent == odc && l1.child == l2.parent && l1.child.Odp? && l2.child.Client? && l2.child == x;
      ChildrenAre(links, odc, l1.child);
      ChildrenAre(links, l1.child, x);
      assert l1.child in points && x in Children(links, l1.child);
    }
    if x in Affected(links, odc) && x.Client? {
      if x in points { ChildKinds(links, odc, x); }
      var p :| p in points && x in Children(links, p);
      ChildKinds(links, odc, p);
      ChildrenAre(links, odc, p);
      ChildrenAre(links, p, x);
      assert Link(odc, p) in links && Link(p, x) in links;
    }
  }

  // ---------- statuses ----------

  /** UPDATE ... SET status on one node's row, if it exists. */
  function SetStatus(t: Tables, node: Node, st: NodeStatus): Tables {
    match node
    case Odc(id) => if id in t.odcs then t.(odcs := t.odcs[id := st]) else t
    case Odp(id) => if id in t.odps then t.(odps := t.odps[id := t.odps[id].(status := st)]) else t
    case Client(id) => if id in t.locations then t.(locations := t.locations[id := t.locations[id].(status := st)]) else t
  }

  predicate Exists(t: Tables, node: Node) {
    match node
    case Odc(id) => id in t.odcs
    case Odp(id) => id in t.odps
    case Client(id) => id in t.locations
  }

  function StatusOf(t: Tables, node: Node): NodeStatus
    requires Exists(t, node)
  {
    match node
    case Odc(id) => t.odcs[id]
    case Odp(id) => t.odps[id].status
    case Client(id) => t.locations[id].status
  }

  /** Everything but the statuses. */
  predicate SameButStatus(t: Tables, t': Tables) {
    && t'.odcs.Keys == t.odcs.Keys
    && t'.odps.Keys == t.odps.Keys
    && t'.locations.Keys == t.locations.Keys
    && (forall p :: p in t.odps ==> t'.odps[p].(status := t.odps[p].status) == t.odps[p])
    && (forall l :: l in t.locations ==> t'.locations[l].(status := t.locations[l].status) == t.locations[l])
    && t'.links == t.links
  }

  /** Statuses are rewritten by `to` on the nodes of `done` that exist, and nothing else changes. */
  ghost predicate Rewritten(t: Tables, t': Tables, done: set<Node>, to: Node -> NodeStatus) {
    && SameButStatus(t, t')
    && forall n :: Exists(t, n) ==> StatusOf(t', n) == if n in done then to(n) else StatusOf(t, n)
  }

  function Always(st: NodeStatus): Node -> NodeStatus {
    (n: Node) => st
  }

  /** What a restore gives: its capacity status to a point below the root, ok to everything else. */
  function RestoreTo(t: Tables, root: Node): Node -> NodeStatus {
    (n: Node) =>
      if n.Odp? && n != root && n.id in t.odps then CapacityStatus(t.odps[n.id].usedPorts, t.odps[n.id].portCount) else Ok
  }

  function Subtree(links: seq<Link>, root: Node): set<Node> {
    {root} + Elements(Affected(links, root))
  }

  lemma SetOneStatus(t: Tables, node: Node, st: NodeStatus)
    ensures Rewritten(t, SetStatus(t, node, st), {node}, Always(st))
  {
  }

  lemma RewrittenBoth(t: Tables, t1: Tables, t2: Tables, done: set<Node>, more: set<Node>, to: Node -> NodeStatus, st: NodeStatus)
    requires Rewritten(t, t1, done, to) && Rewritten(t1, t2, more, Always(st))
    requires forall n :: n in more ==> to(n) == st
    ensures Rewritten(t, t2, done + more, to)
  {
    assert forall n :: Exists(t, n) <==> Exists(t1, n);
  }

  lemma AlwaysIs(t: Tables, t': Tables, done: set<Node>, to: Node -> NodeStatus, st: NodeStatus)
    requires Rewritten(t, t', done, Always(st)) && forall n :: n in done ==> to(n) == st
    ensures Rewritten(t, t', done, to)
  {
  }

  /** Restoring in two steps: what a restore gives does not depend on the statuses already rewritten. */
  lemma RestoredBoth(t: Tables, t1: Tables, t2: Tables, done: set<Node>, more: set<Node>, root: Node)
    requires Rewritten(t, t1, done, RestoreTo(t, root)) && Rewritten(t1, t2, more, RestoreTo(t1, root))
    ensures Rewritten(t, t2, done + more, RestoreTo(t, root))
  {
    assert forall n :: Exists(t, n) <==> Exists(t1, n);
    assert forall n :: Exists(t, n) ==> RestoreTo(t1, root)(n) == RestoreTo(t, root)(n);
  }

  lemma NoElements()
    ensures Elements<Node>([]) == {}
  {
  }

  lemma RewrittenNone(t: Tables, to: Node -> NodeStatus)
    ensures Rewritten(t, t, {}, to)
  {
  }

  /** Before the outage every existing node of the subtree already had the status a restore gives. */
  ghost predicate Healthy(t: Tables, root: Node) {
    forall n :: Exists(t, n) && n in Subtree(t.links, root) ==> StatusOf(t, n) == RestoreTo(t, root)(n)
  }

  /** Report, then resolve: the tables are back exactly when the subtree was healthy before. */
  lemma ReportThenResolve(t: Tables, reported: Tables, resolved: Tables, root: Node)
    requires Rewritten(t, reported, Subtree(t.links, root), Always(Outage))
    requires Rewritten(reported, resolved, Subtree(t.links, root), RestoreTo(reported, root))
    ensures resolved == t <==> Healthy(t, root)
    ensures forall n :: Exists(t, n) ==>
      StatusOf(resolved, n) == if n in Subtree(t.links, root) then RestoreTo(t, root)(n) else StatusOf(t, n)
  {
    assert forall n :: Exists(t, n) <==> Exists(reported, n);
    assert forall n :: Exists(t, n) ==> RestoreTo(reported, root)(n) == RestoreTo(t, root)(n);
    if Healthy(t, root) {
      SameStatusesSameTables(t, resolved);
    }
  }

  lemma SameStatusesSameTables(t: Tables, t': Tables)
    requires SameButStatus(t, t') && forall n :: Exists(t, n) ==> StatusOf(t', n) == StatusOf(t, n)
    ensures t' == t
  {
    forall id | id in t.odcs ensures t'.odcs[id] == t.odcs[id] {
      assert Exists(t, Odc(id)) && StatusOf(t', Odc(id)) == StatusOf(t, Odc(id));
    }
    forall id | id in t.odps ensures t'.odps[id] == t.odps[id] {
      assert Exists(t, Odp(id)) && StatusOf(t', Odp(id)) == StatusOf(t, Odp(id));
    }
    forall id | id in t.locations ensures t'.locations[id] == t.locations[id] {
      assert Exists(t, Client(id)) && StatusOf(t', Client(id)) == StatusOf(t, Client(id));
    }
    assert t'.odcs == t.odcs && t'.odps == t.odps && t'.locations == t.locations;
  }

  // ---------- report and resolve, node by node ----------

  /** Below a cabinet: its points and their clients. Below a point: its clients. Read off the links. */
  predicate IsBelow(links: seq<Link>, root: Node, n: Node) {
    match n
    case Odc(_) => false
    case Odp(_) => root.Odc? && Link(root, n) in links
    case Client(_) =>
      if root.Odp? then Link(root, n) in links
      else root.Odc? && exists i :: 0 <= i < |links| && links[i].parent == root && links[i].child.Odp? && Link(links[i].child, n) in links
  }

  lemma SubtreeIs(links: seq<Link>, root: Node, n: Node)
    ensures n in Subtree(links, root) <==> n == root || IsBelow(links, root, n)
    ensures n in Affected(links, root) <==> IsBelow(links, root, n)
  {
    if root.Odc? {
      CabinetIs(links, root, n);
    } else if root.Odp? {
      ChildrenAre(links, root, n);
    }
    assert n in Elements(Affected(links, root)) <==> n in Affected(links, root);
  }

  lemma CabinetIs(links: seq<Link>, root: Node, n: Node)
    requires root.Odc?
    ensures n in Cascade(links, Children(links, root)) <==> IsBelow(links, root, n)
  {
    var points := Children(links, root);
    CascadeContents(links, points, n);
    ChildrenAre(links, root, n);
    if p :| p in points && n in Children(links, p) {
      ChildrenAre(links, root, p);
      ChildrenAre(links, p, n);
      var i :| 0 <= i < |links| && links[i] == Link(root, p);
      assert IsBelow(links, root, n);
    }
    if n.Client? && IsBelow(links, root, n) {
      var i :| 0 <= i < |links| && links[i].parent == root && links[i].child.Odp? && Link(links[i].child, n) in links;
      ChildrenAre(links, root, links[i].child);
      ChildrenAre(links, links[i].child, n);
    }
  }

  lemma ResolvedMeans(t: Tables, t': Tables, root: Node, n: Node)
    requires Rewritten(t, t', Subtree(t.links, root), RestoreTo(t, root)) && Exists(t, n)
    ensures Exists(t', n)
    ensures !IsBelow(t.links, root, n) ==> StatusOf(t', n) == if n == root then Ok else StatusOf(t, n)
    ensures IsBelow(t.links, root, n) && n.Client? ==> StatusOf(t', n) == Ok
    ensures IsBelow(t.links, root, n) && n.Odp? && t.odps[n.id].portCount >= 0 ==>
      var used, count := t.odps[n.id].usedPorts, t.odps[n.id].portCount;
      StatusOf(t', n) == if used >= count then Full else if 5 * used >= 4 * count then Warning else Ok
  {
    SubtreeIs(t.links, root, n);
    if n.Odp? && t.odps[n.id].portCount >= 0 {
      CapacityByFifths(t.odps[n.id].usedPorts, t.odps[n.id].portCount);
    }
    hide CapacityStatus, Subtree, IsBelow;
    assert IsBelow(t.links, root, n) ==> n != root by { NotBelowItself(t.links, root); }
  }

  lemma RewrittenKeeps(t: Tables, t': Tables, done: set<Node>, to: Node -> NodeStatus)
    requires Rewritten(t, t', done, to)
    ensures SameButStatus(t, t')
  {
  }

  lemma ResolvedFields(t: Tables, t': Tables, root: Node)
    requires Rewritten(t, t', Subtree(t.links, root), RestoreTo(t, root))
    ensures SameButStatus(t, t')
    ensures forall n :: Exists(t, n) && !IsBelow(t.links, root, n) ==> Exists(t', n) && StatusOf(t', n) == if n == root then Ok else StatusOf(t, n)
    ensures forall l :: l in t'.locations && IsBelow(t.links, root, Client(l)) ==> t'.locations[l].status == Ok
    ensures forall p :: p in t'.odps && t'.odps[p].portCount >= 0 && IsBelow(t.links, root, Odp(p)) ==>
      var used, count := t'.odps[p].usedPorts, t'.odps[p].portCount;
      t'.odps[p].status == if used >= count then Full else if 5 * used >= 4 * count then Warning else Ok
  {
    RewrittenKeeps(t, t', Subtree(t.links, root), RestoreTo(t, root));
    hide Rewritten, RestoreTo, Subtree, IsBelow;
    forall n | Exists(t, n) && !IsBelow(t.links, root, n) ensures Exists(t', n) && StatusOf(t', n) == if n == root then Ok else StatusOf(t, n) {
      ResolvedMeans(t, t', root, n);
    }
    forall l | l in t'.locations && IsBelow(t.links, root, Client(l)) ensures t'.locations[l].status == Ok {
      ResolvedMeans(t, t', root, Client(l));
    }
    forall p | p in t'.odps && t'.odps[p].portCount >= 0 && IsBelow(t.links, root, Odp(p))
      ensures var used, count := t'.odps[p].usedPorts, t'.odps[p].portCount;
        t'.odps[p].status == if used >= count then Full else if 5 * used >= 4 * count then Warning else Ok
    {
      ResolvedMeans(t, t', root, Odp(p));
      assert t'.odps[p].(status := t.odps[p].status) == t.odps[p];
    }
  }

  lemma NotBelowItself(links: seq<Link>, root: Node)
    ensures !IsBelow(links, root, root)
  {
  }

  lemma ReportedMeans(t: Tables, t': Tables, root: Node, n: Node)
    requires Rewritten(t, t', Subtree(t.links, root), Always(Outage)) && Exists(t, n)
    ensures Exists(t', n) && StatusOf(t', n) == if n == root || IsBelow(t.links, root, n) then Outage else StatusOf(t, n)
  {
    SubtreeIs(t.links, root, n);
    hide Subtree, IsBelow;
  }

  // ---------- the service ----------

  datatype OutageEvent = OutageEvent(tenant: Id, node: Node, affected: seq<Node>, resolved: bool)

  class MapsService {
    var odcs: map<Id, NodeStatus>
    var odps: map<Id, OdpRow>
    var locations: map<Id, LocationRow>
    var links: seq<Link>
    var outages: map<Id, OutageEvent>

    function Snapshot(): Tables
      reads this
    {
      Tables(odcs, odps, locations, links)
    }

    constructor ()
      ensures Snapshot() == Tables(map[], map[], map[], []) && outages == map[]
    {
      odcs, odps, locations, links, outages := map[], map[], map[], [], map[];
    }

    method UpdateStatus(node: Node, st: NodeStatus)
      modifies this`odcs, this`odps, this`locations
      ensures Snapshot() == SetStatus(old(Snapshot()), node, st)
    {
      match node {
        case Odc(id) => if id in odcs { odcs := odcs[id := st]; }
        case Odp(id) => if id in odps { odps := odps[id := odps[id].(status := st)]; }
        case Client(id) => if id in locations { locations := locations[id := locations[id].(status := st)]; }
      }
    }

    /** Set the status of every client linked below a point, collecting them. */
    method MarkClients(odp: Node, st: NodeStatus) returns (affected: seq<Node>)
      modifies this`odcs, this`odps, this`locations
      ensures affected == Children(links, odp)
      ensures Rewritten(old(Snapshot()), Snapshot(), Elements(affected), Always(st))
    {
      hide Rewritten, SetStatus, Children, Elements, Subtree, Cascade;
      affected := [];
      var clients := Children(links, odp);
      RewrittenNone(Snapshot(), Always(st));
      NoElements();
      for i := 0 to |clients|
        invariant links == old(links) && affected == clients[..i]
        invariant Rewritten(old(Snapshot()), Snapshot(), Elements(affected), Always(st))
      {
        ghost var before := Snapshot();
        UpdateStatus(clients[i], st);
        SetOneStatus(before, clients[i], st);
        RewrittenBoth(old(Snapshot()), before, Snapshot(), Elements(affected), {clients[i]}, Always(st), st);
        AddElement(affected, clients[i]);
        affected := affected + [clients[i]];
      }
    }

    method PropagateOdcOutage(odc: Node) returns (affected: seq<Node>)
      modifies this`odcs, this`odps, this`locations
      ensures affected == Cascade(links, Children(links, odc))
      ensures Rewritten(old(Snapshot()), Snapshot(), Elements(affected), Always(Outage))
    {
      hide Rewritten, SetStatus, Cascade, Children, Elements;
      affected := [];
      var points := Children(links, odc);
      RewrittenNone(Snapshot(), Always(Outage));
      CascadeNone(links, points);
      for i := 0 to |points|
        invariant links == old(links) && affected == Cascade(links, points[..i])
        invariant Rewritten(old(Snapshot()), Snapshot(), Elements(affected), Always(Outage))
      {
        CascadeSnoc(links, points, i);
        ghost var between := Snapshot();
        var clients := MarkPoint(points[i]);
        RewrittenBoth(old(Snapshot()), between, Snapshot(), Elements(affected), {points[i]} + Elements(clients), Always(Outage), Outage);
        affected := affected + [points[i]];
        affected := affected + clients;
      }
      assert points[..|points|] == points;
    }

    /** One turn of the cascade: the point, then its clients. */
    method MarkPoint(odp: Node) returns (clients: seq<Node>)
      modifies this`odcs, this`odps, this`locations
      ensures clients == Children(links, odp)
      ensures Rewritten(old(Snapshot()), Snapshot(), {odp} + Elements(clients), Always(Outage))
    {
      hide Rewritten, SetStatus;
      ghost var before := Snapshot();
      UpdateStatus(odp, Outage);
      ghost var between := Snapshot();
      SetOneStatus(before, odp, Outage);
      clients := MarkClients(odp, Outage);
      RewrittenBoth(before, between, Snapshot(), {odp}, Elements(clients), Always(Outage), Outage);
    }

    /** ReportOutage marks the node and its cascade, and nothing else, and records the event. */
    method ReportOutage(id: Id, tenant: Id, node: Node)
      requires id !in outages
      modifies this
      ensures Rewritten(old(Snapshot()), Snapshot(), Subtree(old(links), node), Always(Outage))
      ensures outages == old(outages)[id := OutageEvent(tenant, node, Affected(old(links), node), false)]
      ensures SameButStatus(old(Snapshot()), Snapshot())
      ensures forall n :: Exists(old(Snapshot()), n) ==>
        StatusOf(Snapshot(), n) == if n == node || IsBelow(old(links), node, n) then Outage else StatusOf(old(Snapshot()), n)
      ensures forall n :: n in outages[id].affected <==> IsBelow(old(links), node, n)
    {
      hide Rewritten, Cascade, Children;
      UpdateStatus(node, Outage);
      SetOneStatus(old(Snapshot()), node, Outage);
      ghost var marked := Snapshot();
      RewrittenNone(marked, Always(Outage));
      var affected := [];
      match node {
        case Odc(_) => affected := PropagateOdcOutage(node);
        case Odp(_) => affected := MarkClients(node, Outage);
        case Client(_) =>
      }
      assert Rewritten(marked, Snapshot(), Elements(affected), Always(Outage)) by {
        assert node.Client? ==> Elements(affected) == {};
      }
      RewrittenBoth(old(Snapshot()), marked, Snapshot(), {node}, Elements(affected), Always(Outage), Outage);
      outages := outages[id := OutageEvent(tenant, node, affected, false)];
      RewrittenKeeps(old(Snapshot()), Snapshot(), Subtree(old(links), node), Always(Outage));
      forall n ensures n in affected <==> IsBelow(old(links), node, n) {
        SubtreeIs(old(links), node, n);
      }
      forall n | Exists(old(Snapshot()), n)
        ensures StatusOf(Snapshot(), n) == if n == node || IsBelow(old(links), node, n) then Outage else StatusOf(old(Snapshot()), n)
      {
        ReportedMeans(old(Snapshot()), Snapshot(), node, n);
      }
    }

    /** Restore one point to its capacity status and its clients to ok. */
    method RestorePoint(ghost root: Node, odp: Node)
      requires root.Odc? && odp.Odp?
      modifies this`odcs, this`odps, this`locations
      ensures Rewritten(old(Snapshot()), Snapshot(), {odp} + Elements(Children(links, odp)), RestoreTo(old(Snapshot()), root))
    {
      hide Rewritten;
      ghost var before := Snapshot();
      ghost var to := RestoreTo(before, root);
      if odp.id in odps {
        odps := odps[odp.id := odps[odp.id].(status := CapacityStatus(odps[odp.id].usedPorts, odps[odp.id].portCount))];
      }
      ghost var between := Snapshot();
      assert between == SetStatus(before, odp, to(odp));
      assert Rewritten(before, between, {odp}, to) by {
        SetOneStatus(before, odp, to(odp));
        RewrittenNone(before, to);
        RewrittenBoth(before, before, between, {}, {odp}, to, to(odp));
        assert {} + {odp} == {odp};
      }
      forall c | c in Children(links, odp) ensures c.Client? { ChildKinds(links, odp, c); }
      var clients := MarkClients(odp, Ok);
      RewrittenBoth(before, between, Snapshot(), {odp}, Elements(clients), to, Ok);
    }

    method RestoreOdcOutage(odc: Node)
      requires odc.Odc?
      modifies this`odcs, this`odps, this`locations
      ensures Rewritten(old(Snapshot()), Snapshot(), Elements(Affected(links, odc)), RestoreTo(old(Snapshot()), odc))
    {
      hide Rewritten, Cascade, Children, Elements, RestoreTo, CapacityStatus;
      var points := Children(links, odc);
      ghost var before := Snapshot();
      RewrittenNone(before, RestoreTo(before, odc));
      CascadeNone(links, points);
      for i := 0 to |points|
        invariant links == before.links
        invariant Rewritten(before, Snapshot(), Elements(Cascade(links, points[..i])), RestoreTo(before, odc))
      {
        CascadeSnoc(links, points, i);
        ChildKinds(links, odc, points[i]);
        ghost var between, done := Snapshot(), Elements(Cascade(links, points[..i]));
        RestorePoint(odc, points[i]);
        ghost var more := {points[i]} + Elements(Children(links, points[i]));
        RestoredBoth(before, between, Snapshot(), done, more, odc);
      }
      assert points[..|points|] == points;
    }

    /** ResolveOutage, whether or not the event was resolved before. */
    method ResolveOutage(id: Id, tenant: Id) returns (found: bool)
      modifies this
      ensures found <==> id in old(outages) && old(outages[id]).tenant == tenant
      ensures !found ==> Snapshot() == old(Snapshot()) && outages == old(outages)
      ensures found ==> var node := old(outages[id]).node;
        Rewritten(old(Snapshot()), Snapshot(), Subtree(old(links), node), RestoreTo(old(Snapshot()), node))
      ensures found ==> outages == old(outages)[id := old(outages[id]).(resolved := true)]
      ensures found ==> SameButStatus(old(Snapshot()), Snapshot())
      ensures found ==> forall n :: Exists(old(Snapshot()), n) && !IsBelow(old(links), old(outages[id]).node, n) ==>
        StatusOf(Snapshot(), n) == if n == old(outages[id]).node then Ok else StatusOf(old(Snapshot()), n)
      ensures found ==> forall l :: l in locations && IsBelow(old(links), old(outages[id]).node, Client(l)) ==> locations[l].status == Ok
      ensures found ==> forall p :: p in odps && odps[p].portCount >= 0 && IsBelow(old(links), old(outages[id]).node, Odp(p)) ==>
        odps[p].status ==
          if odps[p].usedPorts >= odps[p].portCount then Full
          else if 5 * odps[p].usedPorts >= 4 * odps[p].portCount then Warning
          else Ok
    {
      hide Rewritten, Cascade, Children;
      if id !in outages || outages[id].tenant != tenant {
        return false;
      }
      found := true;
      outages := outages[id := outages[id].(resolved := true)];
      var node := outages[id].node;
      ghost var before := Snapshot();
      UpdateStatus(node, Ok);
      SetOneStatus(before, node, Ok);
      ghost var between, to := Snapshot(), RestoreTo(before, node);
      AlwaysIs(before, between, {node}, to, Ok);
      match node {
        case Odc(_) =>
          RestoreOdcOutage(node);
          RestoredBoth(before, between, Snapshot(), {node}, Elements(Affected(links, node)), node);
        case Odp(_) =>
          forall c | c in Children(links, node) ensures c.Client? { ChildKinds(links, node, c); }
          var clients := MarkClients(node, Ok);
          RewrittenBoth(before, between, Snapshot(), {node}, Elements(clients), to, Ok);
        case Client(_) =>
          assert Subtree(links, node) == {node};
      }
      ResolvedFields(before, Snapshot(), node);
    }

    // ---------- placing clients ----------

    method IncrementUsedPorts(odp: Id) returns (ok: bool)
      modifies this`odps
      ensures ok <==> CanIncrement(old(Snapshot()), odp)
      ensures Snapshot() == Increment(old(Snapshot()), odp)
    {
      if odp in odps {
        var row := odps[odp];
        if row.usedPorts + 1 > row.portCount {
          return false;
        }
        odps := odps[odp := row.(usedPorts := row.usedPorts + 1)];
      }
      ok := true;
    }

    method DecrementUsedPorts(odp: Id)
      modifies this`odps
      ensures Snapshot() == Decrement(old(Snapshot()), odp)
    {
      if odp in odps {
        var used := odps[odp].usedPorts - 1;
        if used < 0 {
          used := 0;
        }
        odps := odps[odp := odps[odp].(usedPorts := used)];
      }
    }

    method CreateLink(l: Link)
      modifies this`links
      ensures links == WithLink(old(links), l)
    {
      if l !in links {
        links := links + [l];
      }
    }

    /** A move onto a full point fails, after the location and the old point's count have been written. */
    predicate OverFillsByMove(t: Tables, id: Id, target: Option<Id>) {
      target.Some? && OverFillsAt(t, MoveLocation(id, target), target.value)
    }

    /** Insert the location, count it, link it: three statements, and an error of the second leaves the first. */
    method CreateClientLocation(id: Id, client: Id, odp: Id) returns (ok: bool)
      requires id !in locations
      modifies this
      ensures Snapshot() == Apply(old(Snapshot()), CreateLocation(id, client, odp))
      ensures ok <==> CanPlace(old(Snapshot()), client, odp) && CanIncrement(old(Snapshot()), odp)
      ensures odcs == old(odcs) && outages == old(outages)
      ensures var placed := odp in old(odps) && forall l :: l in old(locations) ==> old(locations)[l].client != client;
        && (!placed ==> !ok && odps == old(odps) && locations == old(locations) && links == old(links))
        && (placed ==>
              && locations == old(locations)[id := LocationRow(client, odp, Ok)]
              && (ok <==> old(odps)[odp].usedPorts < old(odps)[odp].portCount)
              && odps == (if ok then old(odps)[odp := old(odps)[odp].(usedPorts := old(odps)[odp].usedPorts + 1)] else old(odps))
              && links == (if ok && Link(Odp(odp), Client(id)) !in old(links) then old(links) + [Link(Odp(odp), Client(id))] else old(links)))
    {
      if odp !in odps || exists l :: l in locations && locations[l].client == client {
        return false;
      }
      locations := locations[id := LocationRow(client, odp, Ok)];
      ok := IncrementUsedPorts(odp);
      if ok {
        CreateLink(Link(Odp(odp), Client(id)));
      }
    }

    method UpdateClientLocation(id: Id, target: Option<Id>) returns (ok: bool)
      modifies this
      ensures Snapshot() == Apply(old(Snapshot()), MoveLocation(id, target))
      ensures ok <==> id in old(locations) && (target.Some? ==> target.value in old(odps)) && !OverFillsByMove(old(Snapshot()), id, target)
      ensures odcs == old(odcs) && links == old(links) && outages == old(outages)
      ensures id !in old(locations) || (target.Some? && target.value !in old(odps)) ==> odps == old(odps) && locations == old(locations)
      ensures id in old(locations) && (target.Some? ==> target.value in old(odps)) ==>
        var from := old(locations)[id].odp;
        var to := if target.Some? then target.value else from;
        && locations == old(locations)[id := old(locations)[id].(odp := to)]
        && odps.Keys == old(odps).Keys
        && forall p :: p in odps ==>
             var used := old(odps)[p].usedPorts;
             odps[p] == old(odps)[p].(usedPorts :=
               if to == from then used
               else if p == from then (if used > 0 then used - 1 else 0)
               else if p == to && used < old(odps)[p].portCount then used + 1
               else used)
    {
      if id !in locations {
        return false;
      }
      var loc := locations[id];
      var from := loc.odp;
      if target.Some? {
        if target.value !in odps {
          return false;
        }
        loc := loc.(odp := target.value);
      }
      locations := locations[id := loc];
      ok := true;
      if target.Some? && target.value != from {
        DecrementUsedPorts(from);
        ok := IncrementUsedPorts(target.value);
      }
    }

    method DeleteClientLocation(id: Id) returns (ok: bool)
      modifies this
      ensures Snapshot() == Apply(old(Snapshot()), DeleteLocation(id))
      ensures ok <==> id in old(locations)
      ensures odcs == old(odcs) && links == old(links) && outages == old(outages) && odps.Keys == old(odps).Keys
      ensures !ok ==> odps == old(odps) && locations == old(locations)
      ensures ok ==> locations == old(locations) - {id}
      ensures ok ==> forall p :: p in odps ==>
        var used := old(odps)[p].usedPorts;
        odps[p] == old(odps)[p].(usedPorts := if p == old(locations)[id].odp then (if used > 0 then used - 1 else 0) else used)
    {
      if id !in locations {
        return false;
      }
      var odp := locations[id].odp;
      locations := locations - {id};
      DecrementUsedPorts(odp);
      ok := true;
    }

    method CreateODP(id: Id, odc: Id, portCount: int) returns (ok: bool)
      requires id !in odps
      modifies this
      ensures Snapshot() == Apply(old(Snapshot()), CreateOdp(id, odc, portCount))
      ensures ok <==> id in odps
      ensures ok <==> odc in old(odcs) && portCount >= 0
      ensures odcs == old(odcs) && locations == old(locations) && outages == old(outages)
      ensures odps == if ok then old(odps)[id := OdpRow(odc, portCount, 0, if portCount == 0 then Full else Ok)] else old(odps)
      ensures links == if ok && Link(Odc(odc), Odp(id)) !in old(links) then old(links) + [Link(Odc(odc), Odp(id))] else old(links)
    {
      if portCount >= 0 {
        CapacityByFifths(0, portCount);
      }
      if odc !in odcs || portCount < 0 {
        return false;
      }
      odps := odps[id := OdpRow(odc, portCount, 0, CapacityStatus(0, portCount))];
      CreateLink(Link(Odc(odc), Odp(id)));
      ok := true;
    }

    predicate PortsFit(row: OdpRow, newCount: Option<int>) {
      row.usedPorts <= if newCount.Some? then newCount.value else row.portCount
    }

    /** The row is written back whole; the table's check refuses fewer ports than are used. */
    method UpdateODP(id: Id, newCount: Option<int>) returns (ok: bool)
      modifies this
      ensures Snapshot() == Apply(old(Snapshot()), UpdateOdp(id, newCount))
      ensures ok <==> id in old(odps) && PortsFit(old(odps)[id], newCount)
      ensures odcs == old(odcs) && locations == old(locations) && links == old(links) && outages == old(outages)
      ensures !ok ==> odps == old(odps)
      ensures ok ==>
        var row := old(odps)[id];
        var count := if newCount.Some? then newCount.value else row.portCount;
        && row.usedPorts <= count && odps.Keys == old(odps).Keys && (forall p :: p in odps && p != id ==> odps[p] == old(odps)[p])
        && odps[id].odc == row.odc && odps[id].usedPorts == row.usedPorts && odps[id].portCount == count
        && (count >= 0 ==> odps[id].status == if row.usedPorts == count then Full else if 5 * row.usedPorts >= 4 * count then Warning else Ok)
    {
      if id in odps && (if newCount.Some? then newCount.value else odps[id].portCount) >= 0 {
        CapacityByFifths(odps[id].usedPorts, if newCount.Some? then newCount.value else odps[id].portCount);
      }
      hide CapacityStatus;
      if id !in odps {
        return false;
      }
      var row := odps[id];
      if newCount.Some? {
        row := row.(portCount := newCount.value);
      }
      row := row.(status := CapacityStatus(row.usedPorts, row.portCount));
      if row.usedPorts > row.portCount {
        return false;
      }
      odps := odps[id := row];
      ok := true;
    }

    /** The point goes, and by the foreign key its locations; links stay. */
    method DeleteODP(id: Id)
      modifies this
      ensures Snapshot() == Apply(old(Snapshot()), DeleteOdp(id))
      ensures odps == old(odps) - {id} && odcs == old(odcs) && links == old(links) && outages == old(outages)
      ensures forall l :: l in locations <==> l in old(locations) && old(locations)[l].odp != id
      ensures forall l :: l in locations ==> locations[l] == old(locations)[l]
    {
      odps := odps - {id};
      locations := WithoutOdp(locations, id);
    }

    method CreateODC(id: Id)
      modifies this
      ensures Snapshot() == Apply(old(Snapshot()), CreateOdc(id))
      ensures odcs == old(odcs)[id := Ok] && odps == old(odps) && locations == old(locations) && links == old(links) && outages == old(outages)
    {
      odcs := odcs[id := Ok];
    }
  }
}
