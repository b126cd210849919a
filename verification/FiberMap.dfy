/**
 * The fibre network's tables (cabinets, distribution points, client locations, links) with the
 * constraints of their migration, and the operations that place clients on distribution points.
 */
module FiberMap {
  import opened Options

  type Id = nat

  datatype NodeStatus = Ok | Warning | Full | Outage

  datatype Node = Odc(id: Id) | Odp(id: Id) | Client(id: Id)

  datatype OdpRow = OdpRow(odc: Id, portCount: int, usedPorts: int, status: NodeStatus)

  datatype LocationRow = LocationRow(client: Id, odp: Id, status: NodeStatus)

  datatype Link = Link(parent: Node, child: Node)

  datatype Tables = Tables(odcs: map<Id, NodeStatus>, odps: map<Id, OdpRow>, locations: map<Id, LocationRow>, links: seq<Link>)

  // ---------- capacity ----------

  function CapacityPercentage(used: int, portCount: int): real {
    if portCount == 0 then 0.0 else used as real / portCount as real * 100.0
  }

  /** The status ODP.UpdateStatus assigns. */
  function CapacityStatus(used: int, portCount: int): NodeStatus {
    if used >= portCount then Full
    else if CapacityPercentage(used, portCount) >= 80.0 then Warning
    else Ok
  }

  lemma Scaled(share: real, n: real, u: real)
    requires n > 0.0 && share * n == u
    ensures share * 100.0 >= 80.0 <==> 5.0 * u >= 4.0 * n
  {
    if share >= 0.8 {
      assert share * n >= 0.8 * n;
    } else {
      assert share * n < 0.8 * n;
    }
  }

  lemma PercentageByFifths(used: int, portCount: int)
    requires portCount > 0
    ensures CapacityPercentage(used, portCount) >= 80.0 <==> 5 * used >= 4 * portCount
  {
    var u, n := used as real, portCount as real;
    assert u / n * n == u;
    Scaled(u / n, n, u);
    assert 5.0 * u >= 4.0 * n <==> 5 * used >= 4 * portCount;
  }

  lemma CapacityByFifths(used: int, portCount: int)
    requires 0 <= portCount
    ensures CapacityStatus(used, portCount) ==
      if used >= portCount then Full else if 5 * used >= 4 * portCount then Warning else Ok
  {
    if portCount > 0 {
      PercentageByFifths(used, portCount);
      hide CapacityPercentage;
    }
  }

  // ---------- operations ----------

  datatype Op =
    | CreateOdc(id: Id)
    | CreateOdp(id: Id, odc: Id, portCount: int)
    | UpdateOdp(id: Id, newCount: Option<int>)
    | DeleteOdp(id: Id)
    | CreateLocation(id: Id, client: Id, odp: Id)
    | MoveLocation(id: Id, target: Option<Id>)
    | DeleteLocation(id: Id)

  /** New rows get fresh ids: never used by a row or a link before. */
  predicate Fresh(t: Tables, op: Op) {
    match op
    case CreateOdc(id) => id !in t.odcs && forall l :: l in t.links ==> l.parent != Odc(id)
    case CreateOdp(id, _, _) => id !in t.odps && forall l :: l in t.links ==> l.parent != Odp(id) && l.child != Odp(id)
    case CreateLocation(id, _, _) => id !in t.locations && forall l :: l in t.links ==> l.child != Client(id)
    case _ => true
  }

  /** INSERT ... ON CONFLICT DO NOTHING. */
  function WithLink(links: seq<Link>, l: Link): seq<Link> {
    if l in links then links else links + [l]
  }

  /** UPDATE used_ports = used_ports + 1; the table's check refuses to exceed port_count. */
  predicate CanIncrement(t: Tables, odp: Id) {
    odp in t.odps ==> t.odps[odp].usedPorts + 1 <= t.odps[odp].portCount
  }

  function Increment(t: Tables, odp: Id): Tables {
    if odp in t.odps && CanIncrement(t, odp) then
      t.(odps := t.odps[odp := t.odps[odp].(usedPorts := t.odps[odp].usedPorts + 1)])
    else t
  }

  /** UPDATE used_ports = GREATEST(used_ports - 1, 0). */
  function Decrement(t: Tables, odp: Id): Tables {
    if odp in t.odps then
      var used := t.odps[odp].usedPorts;
      t.(odps := t.odps[odp := t.odps[odp].(usedPorts := if used - 1 > 0 then used - 1 else 0)])
    else t
  }

  /** UNIQUE (tenant_id, client_id) and the foreign key. */
  predicate CanPlace(t: Tables, client: Id, odp: Id) {
    odp in t.odps && forall l :: l in t.locations ==> t.locations[l].client != client
  }

  function AfterCreateLocation(t: Tables, id: Id, client: Id, odp: Id): Tables {
    if !CanPlace(t, client, odp) then t
    else
      var placed := t.(locations := t.locations[id := LocationRow(client, odp, Ok)]);
      if !CanIncrement(placed, odp) then placed
      else Increment(placed, odp).(links := WithLink(t.links, Link(Odp(odp), Client(id))))
  }

  function AfterMove(t: Tables, id: Id, odp: Option<Id>): Tables {
    if id !in t.locations || (odp.Some? && odp.value !in t.odps) then t
    else
      var from := t.locations[id].odp;
      var to := if odp.Some? then odp.value else from;
      var moved := t.(locations := t.locations[id := t.locations[id].(odp := to)]);
      if to == from then moved else Increment(Decrement(moved, from), to)
  }

  function WithoutOdp(locations: map<Id, LocationRow>, odp: Id): map<Id, LocationRow> {
    map l | l in locations && locations[l].odp != odp :: locations[l]
  }

  function Apply(t: Tables, op: Op): Tables {
    match op
    case CreateOdc(id) => t.(odcs := t.odcs[id := Ok])
    case CreateOdp(id, odc, portCount) =>
      if odc !in t.odcs || portCount < 0 then t
      else t.(odps := t.odps[id := OdpRow(odc, portCount, 0, CapacityStatus(0, portCount))], links := WithLink(t.links, Link(Odc(odc), Odp(id))))
    case UpdateOdp(id, portCount) =>
      if id !in t.odps then t
      else
        var row := t.odps[id];
        var ports := if portCount.Some? then portCount.value else row.portCount;
        if row.usedPorts > ports then t
        else t.(odps := t.odps[id := row.(portCount := ports, status := CapacityStatus(row.usedPorts, ports))])
    case DeleteOdp(id) => t.(odps := t.odps - {id}, locations := WithoutOdp(t.locations, id))
    case CreateLocation(id, client, odp) => AfterCreateLocation(t, id, client, odp)
    case MoveLocation(id, odp) => AfterMove(t, id, odp)
    case DeleteLocation(id) =>
      if id !in t.locations then t else Decrement(t.(locations := t.locations - {id}), t.locations[id].odp)
  }

  // ---------- occupancy ----------

  function Occupants(locations: map<Id, LocationRow>, odp: Id): set<Id> {
    set l | l in locations && locations[l].odp == odp
  }

  /** What the table constraints guarantee, and what the counting never exceeds. */
  predicate Bounded(t: Tables) {
    && (forall l :: l in t.locations ==> t.locations[l].odp in t.odps)
    && (forall p :: p in t.odps ==> 0 <= t.odps[p].usedPorts <= t.odps[p].portCount && t.odps[p].usedPorts <= |Occupants(t.locations, p)|)
  }

  /** Port counts equal real occupancy. */
  predicate Counted(t: Tables) {
    forall p :: p in t.odps ==> t.odps[p].usedPorts == |Occupants(t.locations, p)|
  }

  /** The operation places a location on p although p has no free port. */
  predicate OverFillsAt(t: Tables, op: Op, p: Id) {
    match op
    case CreateLocation(_, client, odp) => odp == p && CanPlace(t, client, p) && !CanIncrement(t, p)
    case MoveLocation(id, odp) => odp == Some(p) && p in t.odps && id in t.locations && p != t.locations[id].odp && !CanIncrement(t, p)
    case _ => false
  }

  ghost predicate OverFills(t: Tables, op: Op) {
    exists p :: OverFillsAt(t, op, p)
  }

  lemma PlacedCount(locations: map<Id, LocationRow>, l: Id, row: LocationRow, p: Id)
    ensures |Occupants(locations[l := row], p)| == |Occupants(locations, p)|
      + (if row.odp == p then 1 else 0) - (if l in locations && locations[l].odp == p then 1 else 0)
  {
    var before, after := Occupants(locations, p), Occupants(locations[l := row], p);
    if row.odp == p {
      assert after == before + {l};
    } else {
      assert after == before - {l};
    }
  }

  lemma RemovedCount(locations: map<Id, LocationRow>, l: Id, p: Id)
    requires l in locations
    ensures |Occupants(locations - {l}, p)| == |Occupants(locations, p)| - if locations[l].odp == p then 1 else 0
  {
    assert Occupants(locations - {l}, p) == Occupants(locations, p) - {l};
  }

  lemma WithoutCount(locations: map<Id, LocationRow>, odp: Id, p: Id)
    requires p != odp
    ensures Occupants(WithoutOdp(locations, odp), p) == Occupants(locations, p)
  {
  }

  ghost function Slack(t: Tables, p: Id): int
    requires p in t.odps
  {
    |Occupants(t.locations, p)| - t.odps[p].usedPorts
  }

  ghost predicate BoundedAt(t: Tables, p: Id)
    requires p in t.odps
  {
    0 <= t.odps[p].usedPorts <= t.odps[p].portCount && Slack(t, p) >= 0
  }

  /** How one operation moves the count and the occupancy of one distribution point. */
  lemma StepAt(t: Tables, op: Op, p: Id)
    requires Bounded(t) && Fresh(t, op) && p in Apply(t, op).odps
    ensures BoundedAt(Apply(t, op), p)
    ensures p !in t.odps ==> Slack(Apply(t, op), p) == 0
    ensures p in t.odps && OverFillsAt(t, op, p) ==> Slack(Apply(t, op), p) == Slack(t, p) + 1
    ensures p in t.odps && !OverFillsAt(t, op, p) && Slack(t, p) == 0 ==> Slack(Apply(t, op), p) == 0
  {
    hide CapacityStatus, WithLink;
    if p in t.odps {
      assert BoundedAt(t, p);
    }
    match op {
      case CreateOdp(id, _, _) =>
        if p == id { assert Occupants(t.locations, p) == {}; }
      case CreateLocation(id, client, odp) => PlacedCount(t.locations, id, LocationRow(client, odp, Ok), p);
      case MoveLocation(id, odp) => MoveAt(t, id, odp, p);
      case DeleteLocation(id) =>
        if id in t.locations { DeleteAt(t, id, p); }
      case DeleteOdp(id) => WithoutCount(t.locations, id, p);
      case _ =>
    }
  }

  lemma DeleteAt(t: Tables, id: Id, p: Id)
    requires Bounded(t) && id in t.locations && p in t.odps
    ensures BoundedAt(Apply(t, DeleteLocation(id)), p)
    ensures Slack(t, p) == 0 ==> Slack(Apply(t, DeleteLocation(id)), p) == 0
  {
    RemovedCount(t.locations, id, p);
    assert BoundedAt(t, p);
    if t.locations[id].odp == p {
      assert id in Occupants(t.locations, p);
    }
  }

  lemma MoveAt(t: Tables, id: Id, odp: Option<Id>, p: Id)
    requires Bounded(t) && p in t.odps
    ensures var t' := Apply(t, MoveLocation(id, odp));
      && p in t'.odps && BoundedAt(t', p)
      && (OverFillsAt(t, MoveLocation(id, odp), p) ==> Slack(t', p) == Slack(t, p) + 1)
      && (!OverFillsAt(t, MoveLocation(id, odp), p) && Slack(t, p) == 0 ==> Slack(t', p) == 0)
  {
    assert BoundedAt(t, p);
    if id in t.locations && (odp.Some? ==> odp.value in t.odps) {
      var from := t.locations[id].odp;
      var to := if odp.Some? then odp.value else from;
      PlacedCount(t.locations, id, t.locations[id].(odp := to), p);
      assert id in Occupants(t.locations, from);
    }
  }

  lemma StepBounded(t: Tables, op: Op)
    requires Bounded(t) && Fresh(t, op)
    ensures Bounded(Apply(t, op))
  {
    var t' := Apply(t, op);
    forall p | p in t'.odps ensures BoundedAt(t', p) {
      StepAt(t, op, p);
    }
    forall l | l in t'.locations ensures t'.locations[l].odp in t'.odps {
      LocationStaysPlaced(t, op, l);
    }
  }

  lemma LocationStaysPlaced(t: Tables, op: Op, l: Id)
    requires Bounded(t) && l in Apply(t, op).locations
    ensures Apply(t, op).locations[l].odp in Apply(t, op).odps
  {
    hide CapacityStatus, WithLink;
  }

  /** An operation keeps the counts equal to the occupancy exactly when it does not place a location on a full distribution point. */
  lemma StepCounted(t: Tables, op: Op)
    requires Bounded(t) && Counted(t) && Fresh(t, op)
    ensures Counted(Apply(t, op)) <==> !OverFills(t, op)
  {
    var t' := Apply(t, op);
    if OverFills(t, op) {
      var p :| OverFillsAt(t, op, p);
      OverFilledStays(t, op, p);
      StepAt(t, op, p);
      assert Slack(t', p) == 1;
    } else {
      forall p | p in t'.odps ensures t'.odps[p].usedPorts == |Occupants(t'.locations, p)| {
        StepAt(t, op, p);
        assert !OverFillsAt(t, op, p);
      }
    }
  }

  lemma OverFilledStays(t: Tables, op: Op, p: Id)
    requires OverFillsAt(t, op, p)
    ensures p in t.odps && p in Apply(t, op).odps
  {
  }

  // ---------- runs ----------

  ghost predicate ValidRun(t: Tables, run: seq<Op>)
    decreases |run|
  {
    run == [] || (Fresh(t, run[0]) && ValidRun(Apply(t, run[0]), run[1..]))
  }

  function After(t: Tables, run: seq<Op>): Tables
    decreases |run|
  {
    if run == [] then t else After(Apply(t, run[0]), run[1..])
  }

  /** Some operation of the run places a location on a full distribution point. */
  ghost predicate OverFillsIn(t: Tables, run: seq<Op>)
    decreases |run|
  {
    run != [] && (OverFills(t, run[0]) || OverFillsIn(Apply(t, run[0]), run[1..]))
  }

  /** Over every run the counts never exceed the occupancy; they equal it if no full point is ever placed on. */
  lemma {:induction false} RunCounted(t: Tables, run: seq<Op>)
    requires Bounded(t) && Counted(t) && ValidRun(t, run)
    ensures Bounded(After(t, run))
    ensures !OverFillsIn(t, run) ==> Counted(After(t, run))
    decreases |run|
  {
    if run != [] {
      StepBounded(t, run[0]);
      if OverFillsIn(t, run) {
        RunBounded(Apply(t, run[0]), run[1..]);
      } else {
        StepCounted(t, run[0]);
        RunCounted(Apply(t, run[0]), run[1..]);
      }
    }
  }

  lemma {:induction false} RunBounded(t: Tables, run: seq<Op>)
    requires Bounded(t) && ValidRun(t, run)
    ensures Bounded(After(t, run))
    decreases |run|
  {
    if run != [] {
      StepBounded(t, run[0]);
      RunBounded(Apply(t, run[0]), run[1..]);
    }
  }

  /** With the counts right, a decrement never meets the clamp at zero. */
  lemma DecrementNeverClamps(t: Tables, l: Id)
    requires Bounded(t) && Counted(t) && l in t.locations
    ensures var p := t.locations[l].odp; Decrement(t, p).odps[p].usedPorts == t.odps[p].usedPorts - 1
  {
    var p := t.locations[l].odp;
    assert l in Occupants(t.locations, p);
  }

  lemma AfterFrom(t: Tables, run: seq<Op>, i: nat)
    requires i < |run|
    ensures After(t, run[i..]) == After(Apply(t, run[i]), run[i + 1..])
    ensures run[0..] == run && (i == |run| - 1 ==> After(t, run[i..]) == Apply(t, run[i]))
  {
    assert run[i..][1..] == run[i + 1..];
  }

  /** Two clients placed on a point with one port: both locations are stored, one is counted and linked. */
  lemma FullPointDrifts()
    ensures var run := [CreateOdc(0), CreateOdp(1, 0, 1), CreateLocation(2, 10, 1), CreateLocation(3, 11, 1)];
      var t := After(Tables(map[], map[], map[], []), run);
      && 1 in t.odps && t.odps[1].usedPorts == 1 && |Occupants(t.locations, 1)| == 2 && !Counted(t)
      && Link(Odp(1), Client(2)) in t.links && Link(Odp(1), Client(3)) !in t.links
  {
    var run := [CreateOdc(0), CreateOdp(1, 0, 1), CreateLocation(2, 10, 1), CreateLocation(3, 11, 1)];
    var up, link1, link2 := map[0 := Ok], Link(Odc(0), Odp(1)), Link(Odp(1), Client(2));
    var one, two := map[2 := LocationRow(10, 1, Ok)], map[2 := LocationRow(10, 1, Ok), 3 := LocationRow(11, 1, Ok)];
    var row := OdpRow(0, 1, 0, CapacityStatus(0, 1));
    var t0, t1 := Tables(map[], map[], map[], []), Tables(up, map[], map[], []);
    var t2 := Tables(up, map[1 := row], map[], [link1]);
    var t3 := Tables(up, map[1 := row.(usedPorts := 1)], one, [link1, link2]);
    var t4 := t3.(locations := two);
    hide CapacityStatus, Occupants, AfterMove, Decrement, WithoutOdp;
    assert Apply(t0, run[0]) == t1 && Apply(t1, run[1]) == t2;
    assert Apply(t2, run[2]) == t3;
    assert Apply(t3, run[3]) == t4;
    AfterFrom(t0, run, 0);
    AfterFrom(t1, run, 1);
    AfterFrom(t2, run, 2);
    AfterFrom(t3, run, 3);
    TwoOccupants();
  }

  lemma TwoOccupants()
    ensures |Occupants(map[2 := LocationRow(10, 1, Ok), 3 := LocationRow(11, 1, Ok)], 1)| == 2
  {
    assert Occupants(map[2 := LocationRow(10, 1, Ok), 3 := LocationRow(11, 1, Ok)], 1) == {2, 3};
  }

  // ---------- totals ----------

  ghost function Pick(odps: map<Id, OdpRow>): (p: Id)
    requires odps != map[]
    ensures p in odps
  {
    var p :| p in odps; p
  }

  ghost function TotalUsed(odps: map<Id, OdpRow>): int
    decreases |odps|
  {
    if odps == map[] then 0 else var p := Pick(odps); odps[p].usedPorts + TotalUsed(odps - {p})
  }

  lemma {:induction false} TotalUsedIsLocations(odps: map<Id, OdpRow>, locations: map<Id, LocationRow>)
    requires forall l :: l in locations ==> locations[l].odp in odps
    requires forall p :: p in odps ==> odps[p].usedPorts == |Occupants(locations, p)|
    ensures TotalUsed(odps) == |locations|
    decreases |odps|
  {
    if odps == map[] {
      assert locations.Keys == {};
    } else {
      var p := Pick(odps);
      var rest := WithoutOdp(locations, p);
      forall q | q in odps - {p} ensures odps[q].usedPorts == |Occupants(rest, q)| {
        WithoutCount(locations, p, q);
      }
      TotalUsedIsLocations(odps - {p}, rest);
      assert locations.Keys == rest.Keys + Occupants(locations, p);
      assert |locations| == |locations.Keys| && |rest| == |rest.Keys|;
    }
  }

  /** So all used ports together are the client locations. */
  lemma CountedTotal(t: Tables)
    requires Bounded(t) && Counted(t)
    ensures TotalUsed(t.odps) == |t.locations|
  {
    TotalUsedIsLocations(t.odps, t.locations);
  }
}
