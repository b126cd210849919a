/** Links against placement: the cascade follows links, the port counts follow locations, and when the two tell the same. */
module Placement {
  import opened Options
  import opened FiberMap
  import opened Outages

  /** A live location hangs below exactly the point it is placed on. */
  ghost predicate LinkedAsPlaced(t: Tables) {
    forall l, p :: l in t.locations ==> (Link(Odp(p), Client(l)) in t.links <==> t.locations[l].odp == p)
  }

  /** A location changes point, or is stored on a full one. */
  predicate Detaches(t: Tables, op: Op) {
    match op
    case CreateLocation(_, client, odp) => CanPlace(t, client, odp) && !CanIncrement(t, odp)
    case MoveLocation(id, target) =>
      id in t.locations && target.Some? && target.value in t.odps && target.value != t.locations[id].odp
    case _ => false
  }

  lemma Detached(t: Tables, op: Op)
    requires LinkedAsPlaced(t) && Fresh(t, op) && Detaches(t, op)
    ensures !LinkedAsPlaced(Apply(t, op))
  {
    var t' := Apply(t, op);
    if op.CreateLocation? {
      assert op.id in t'.locations && t'.locations[op.id].odp == op.odp && Link(Odp(op.odp), Client(op.id)) !in t'.links;
    } else {
      var to := op.target.value;
      assert op.id in t'.locations && t'.locations[op.id].odp == to && Link(Odp(to), Client(op.id)) !in t'.links;
    }
  }

  lemma StaysLinked(t: Tables, op: Op, l: Id, p: Id)
    requires LinkedAsPlaced(t) && Fresh(t, op) && !Detaches(t, op) && l in Apply(t, op).locations
    ensures Link(Odp(p), Client(l)) in Apply(t, op).links <==> Apply(t, op).locations[l].odp == p
  {
    hide CapacityStatus;
  }

  /** An operation keeps links and placement together exactly when it neither moves a location to another point nor stores one on a full point. */
  lemma StepLinked(t: Tables, op: Op)
    requires LinkedAsPlaced(t) && Fresh(t, op)
    ensures LinkedAsPlaced(Apply(t, op)) <==> !Detaches(t, op)
  {
    if Detaches(t, op) {
      Detached(t, op);
    } else {
      forall l, p | l in Apply(t, op).locations
        ensures Link(Odp(p), Client(l)) in Apply(t, op).links <==> Apply(t, op).locations[l].odp == p
      {
        StaysLinked(t, op, l, p);
      }
    }
  }

  ghost predicate DetachesIn(t: Tables, run: seq<Op>)
    decreases |run|
  {
    run != [] && (Detaches(t, run[0]) || DetachesIn(Apply(t, run[0]), run[1..]))
  }

  lemma {:induction false} RunLinked(t: Tables, run: seq<Op>)
    requires LinkedAsPlaced(t) && ValidRun(t, run) && !DetachesIn(t, run)
    ensures LinkedAsPlaced(After(t, run))
    decreases |run|
  {
    if run != [] {
      StepLinked(t, run[0]);
      RunLinked(Apply(t, run[0]), run[1..]);
    }
  }

  /** Then an outage on a point affects exactly the live clients placed on it. */
  lemma AffectedArePlaced(t: Tables, p: Id, l: Id)
    requires LinkedAsPlaced(t) && l in t.locations
    ensures Client(l) in Affected(t.links, Odp(p)) <==> t.locations[l].odp == p
  {
    ChildrenAre(t.links, Odp(p), Client(l));
  }

  /** After a move the client is affected by outages of the point it left, and not by those of its own. */
  lemma MovedClientIsMissed(t: Tables, l: Id, p: Id)
    requires LinkedAsPlaced(t) && l in t.locations && p in t.odps && p != t.locations[l].odp
    ensures var t' := Apply(t, MoveLocation(l, Some(p)));
      && t'.locations[l].odp == p
      && Client(l) in Affected(t'.links, Odp(t.locations[l].odp)) && Client(l) !in Affected(t'.links, Odp(p))
  {
    var from := t.locations[l].odp;
    ChildrenAre(t.links, Odp(from), Client(l));
    ChildrenAre(t.links, Odp(p), Client(l));
  }
}
