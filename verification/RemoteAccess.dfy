/**
 * The remote-access port allocator: a first-free search over a fixed range, against all live
 * routers on create and provision but only the tenant's own on toggle, and two operations
 * that store a requested port unchecked.
 */
module RemoteAccess {
  import Collections

  type Id = nat

  datatype Router = Router(tenant: Id, port: nat, enabled: bool, deleted: bool)

  const FIRST_PORT := 10500
  const LAST_PORT := 20000

  type Table = map<Id, Router>

  datatype Scope = AllTenants | OneTenant(tenant: Id)

  predicate InScope(r: Router, scope: Scope) {
    !r.deleted && (scope.OneTenant? ==> r.tenant == scope.tenant)
  }

  /** The live routers a query lists that hold a port. */
  function Holders(rs: Table, scope: Scope): set<Id> {
    set id | id in rs && InScope(rs[id], scope) && rs[id].port > 0
  }

  function UsedPorts(rs: Table, scope: Scope): set<nat> {
    set id | id in Holders(rs, scope) :: rs[id].port
  }

  /** The least port from p on that is not used, or 0. */
  function FirstFree(used: set<nat>, p: nat): nat
    decreases LAST_PORT + 1 - p
  {
    if p > LAST_PORT then 0 else if p !in used then p else FirstFree(used, p + 1)
  }

  // ---------- the operations ----------

  datatype Op =
    | Create(id: Id, tenant: Id, vpn: bool, requested: nat, enable: bool, rulesApply: bool)
    | Provision(id: Id, tenant: Id, scriptSucceeds: bool)
    | Toggle(id: Id, enabled: bool, rulesApply: bool)
    | Update(id: Id, requested: nat, setEnabled: bool, enabled: bool)
    | Delete(id: Id)

  /** New rows get fresh ids. */
  predicate Fresh(rs: Table, op: Op) {
    op.Create? || op.Provision? ==> op.id !in rs
  }

  /** The port an operation gives to a live router, 0 if it gives none. */
  function Assigned(rs: Table, op: Op): nat {
    match op
    case Create(_, _, vpn, requested, enable, rulesApply) =>
      if enable then (if rulesApply then FirstFree(UsedPorts(rs, AllTenants), FIRST_PORT) else 0)
      else if vpn then requested
      else 0
    case Provision(_, _, scriptSucceeds) =>
      if scriptSucceeds then FirstFree(UsedPorts(rs, AllTenants), FIRST_PORT) else 0
    case Toggle(id, enabled, rulesApply) =>
      if id in rs && !rs[id].enabled && enabled && rs[id].port == 0 && rulesApply && !rs[id].deleted then
        FirstFree(UsedPorts(rs, OneTenant(rs[id].tenant)), FIRST_PORT)
      else 0
    case Update(id, requested, _, _) => if id in rs && !rs[id].deleted then requested else 0
    case Delete(_) => 0
  }

  function ToggleRow(rs: Table, id: Id, enabled: bool, rulesApply: bool): Table
    requires id in rs
  {
    var r := rs[id];
    if r.enabled == enabled then rs
    else if !enabled then rs[id := r.(enabled := false)]
    else
      var port := if r.port == 0 then FirstFree(UsedPorts(rs, OneTenant(r.tenant)), FIRST_PORT) else r.port;
      if port == 0 || !rulesApply then rs else rs[id := r.(port := port, enabled := true)]
  }

  function Apply(rs: Table, op: Op): Table {
    match op
    case Create(id, tenant, vpn, requested, enable, rulesApply) =>
      var port := Assigned(rs, op);
      if enable && port == 0 then rs else rs[id := Router(tenant, port, enable, false)]
    case Provision(id, tenant, _) =>
      var port := Assigned(rs, op);
      if port == 0 then rs else rs[id := Router(tenant, port, true, false)]
    case Toggle(id, enabled, rulesApply) => if id in rs then ToggleRow(rs, id, enabled, rulesApply) else rs
    case Update(id, requested, setEnabled, enabled) =>
      if id !in rs then rs
      else
        var r := rs[id];
        rs[id := r.(port := if requested > 0 then requested else r.port, enabled := if setEnabled then enabled else r.enabled)]
    case Delete(id) => if id in rs then rs[id := rs[id].(deleted := true)] else rs
  }

  // ---------- distinct ports ----------

  /** b holds port p where it matters: live, another router, of the same tenant if perTenant. */
  predicate Clashes(rs: Table, id: Id, tenant: Id, p: nat, b: Id, perTenant: bool) {
    b in rs && b != id && !rs[b].deleted && rs[b].port == p && (perTenant ==> rs[b].tenant == tenant)
  }

  ghost predicate Taken(rs: Table, id: Id, tenant: Id, p: nat, perTenant: bool) {
    exists b :: Clashes(rs, id, tenant, p, b, perTenant)
  }

  /** No two live routers (of one tenant, if perTenant) hold the same port. */
  ghost predicate Distinct(rs: Table, perTenant: bool) {
    forall a, b :: a in rs && !rs[a].deleted && rs[a].port > 0 ==> !Clashes(rs, a, rs[a].tenant, rs[a].port, b, perTenant)
  }

  function TenantOf(rs: Table, op: Op): Id {
    if op.Create? || op.Provision? then op.tenant else if op.id in rs then rs[op.id].tenant else 0
  }

  /** An operation keeps ports distinct exactly when the port it gives, if any, is not taken. */
  lemma KeptExactly(rs: Table, op: Op, perTenant: bool)
    requires Distinct(rs, perTenant) && Fresh(rs, op)
    ensures Distinct(Apply(rs, op), perTenant)
      <==> (Assigned(rs, op) == 0 || !Taken(rs, op.id, TenantOf(rs, op), Assigned(rs, op), perTenant))
  {
    hide FirstFree, UsedPorts;
    var rs', p, t := Apply(rs, op), Assigned(rs, op), TenantOf(rs, op);
    if p != 0 {
      if Taken(rs, op.id, t, p, perTenant) {
        var b :| Clashes(rs, op.id, t, p, b, perTenant);
        assert rs'[op.id].port == p && rs'[op.id].tenant == t && !rs'[op.id].deleted;
        assert Clashes(rs', op.id, t, p, b, perTenant);
      } else {
        forall a, b | a in rs' && !rs'[a].deleted && rs'[a].port > 0
          ensures !Clashes(rs', a, rs'[a].tenant, rs'[a].port, b, perTenant)
        {
          if a == op.id {
            assert !Clashes(rs, op.id, t, p, b, perTenant);
          } else {
            assert !Clashes(rs, a, rs[a].tenant, rs[a].port, b, perTenant);
            assert !Clashes(rs, op.id, t, p, a, perTenant);
          }
        }
      }
    } else {
      forall a, b | a in rs' && !rs'[a].deleted && rs'[a].port > 0
        ensures !Clashes(rs', a, rs'[a].tenant, rs'[a].port, b, perTenant)
      {
        if a in rs {
          assert !Clashes(rs, a, rs[a].tenant, rs[a].port, b, perTenant);
        }
      }
    }
  }

  lemma {:induction false} FirstFreeIsLeast(used: set<nat>, p: nat)
    requires p > 0
    ensures var q := FirstFree(used, p);
      && (q == 0 <==> forall x :: p <= x <= LAST_PORT ==> x in used)
      && (q != 0 ==> p <= q <= LAST_PORT && q !in used && forall x :: p <= x < q ==> x in used)
    decreases LAST_PORT + 1 - p
  {
    if p <= LAST_PORT && p in used {
      FirstFreeIsLeast(used, p + 1);
    }
  }

  /** A live router, of one tenant or of any, holds the port. */
  predicate Held(rs: Table, p: nat, scope: Scope) {
    exists b :: b in rs && !rs[b].deleted && rs[b].port == p && (scope.OneTenant? ==> rs[b].tenant == scope.tenant)
  }

  lemma UsedAreHeld(rs: Table, scope: Scope, p: nat)
    ensures p in UsedPorts(rs, scope) <==> p > 0 && Held(rs, p, scope)
  {
    if b :| b in rs && !rs[b].deleted && rs[b].port == p && (scope.OneTenant? ==> rs[b].tenant == scope.tenant) {
      assert p > 0 ==> b in Holders(rs, scope);
    }
    if p in UsedPorts(rs, scope) {
      var b :| b in Holders(rs, scope) && rs[b].port == p;
    }
  }

  /** Create with remote access and provision give the least port of the range no live router holds. */
  lemma CreateTakesLeastFree(rs: Table, op: Op)
    requires op.Provision? || (op.Create? && op.enable)
    requires Fresh(rs, op) && Assigned(rs, op) != 0
    ensures var p := Assigned(rs, op);
      && op.id in Apply(rs, op) && Apply(rs, op)[op.id] == Router(op.tenant, p, true, false)
      && 10500 <= p <= 20000
      && !Taken(rs, op.id, op.tenant, p, false)
      && !Held(rs, p, AllTenants)
      && forall q :: 10500 <= q < p ==> Held(rs, q, AllTenants)
  {
    var p, used := Assigned(rs, op), UsedPorts(rs, AllTenants);
    FirstFreeIsLeast(used, FIRST_PORT);
    forall b ensures !Clashes(rs, op.id, op.tenant, p, b, false) {
      assert b in Holders(rs, AllTenants) ==> rs[b].port in used;
    }
    UsedAreHeld(rs, AllTenants, p);
    forall q | 10500 <= q < p ensures Held(rs, q, AllTenants) {
      UsedAreHeld(rs, AllTenants, q);
    }
  }

  /** Toggle gives the least port of the range no live router of the same tenant holds. */
  lemma ToggleAvoidsTenantPorts(rs: Table, op: Op)
    requires op.Toggle? && Assigned(rs, op) != 0
    ensures !Taken(rs, op.id, TenantOf(rs, op), Assigned(rs, op), true)
    ensures op.id in rs
    ensures var p, t := Assigned(rs, op), rs[op.id].tenant;
      && 10500 <= p <= 20000
      && !Held(rs, p, OneTenant(t))
      && forall q :: 10500 <= q < p ==> Held(rs, q, OneTenant(t))
  {
    var p, t := Assigned(rs, op), TenantOf(rs, op);
    var used := UsedPorts(rs, OneTenant(t));
    FirstFreeIsLeast(used, FIRST_PORT);
    hide FirstFree;
    forall b ensures !Clashes(rs, op.id, t, p, b, true) {
      assert b in Holders(rs, OneTenant(t)) ==> rs[b].port in used;
    }
    UsedAreHeld(rs, OneTenant(t), p);
    forall q | 10500 <= q < p ensures Held(rs, q, OneTenant(t)) {
      UsedAreHeld(rs, OneTenant(t), q);
    }
  }

  // ---------- runs ----------

  ghost predicate ValidRun(rs: Table, run: seq<Op>)
    decreases |run|
  {
    run == [] || (Fresh(rs, run[0]) && ValidRun(Apply(rs, run[0]), run[1..]))
  }

  function After(rs: Table, run: seq<Op>): Table
    decreases |run|
  {
    if run == [] then rs else After(Apply(rs, run[0]), run[1..])
  }

  /** Operations that pick the port themselves, or none. */
  predicate Allocates(op: Op) {
    match op
    case Create(_, _, vpn, requested, enable, _) => enable || !vpn || requested == 0
    case Update(_, requested, _, _) => requested == 0
    case _ => true
  }

  /** Over every run of allocating operations, per tenant; and across tenants if nothing is toggled. */
  lemma {:induction false} RunKeepsDistinct(rs: Table, run: seq<Op>, perTenant: bool)
    requires Distinct(rs, perTenant) && ValidRun(rs, run)
    requires forall i :: 0 <= i < |run| ==> Allocates(run[i]) && (perTenant || !run[i].Toggle?)
    ensures Distinct(After(rs, run), perTenant)
    decreases |run|
  {
    if run != [] {
      var op := run[0];
      if Assigned(rs, op) != 0 {
        AllocationNotTaken(rs, op, perTenant);
      }
      KeptExactly(rs, op, perTenant);
      RunKeepsDistinct(Apply(rs, op), run[1..], perTenant);
    }
  }

  lemma AllocationNotTaken(rs: Table, op: Op, perTenant: bool)
    requires Fresh(rs, op) && Allocates(op) && (perTenant || !op.Toggle?) && Assigned(rs, op) != 0
    ensures !Taken(rs, op.id, TenantOf(rs, op), Assigned(rs, op), perTenant)
  {
    hide FirstFree, UsedPorts;
    if op.Toggle? {
      ToggleAvoidsTenantPorts(rs, op);
    } else {
      CreateTakesLeastFree(rs, op);
      forall b ensures !Clashes(rs, op.id, op.tenant, Assigned(rs, op), b, perTenant) {
        assert !Clashes(rs, op.id, op.tenant, Assigned(rs, op), b, false);
      }
    }
  }

  /** The search of toggle looks at one tenant, so it can give the port of another tenant's live router. */
  lemma ToggleClashesAcrossTenants()
    ensures var rs: Table := map[0 := Router(1, FIRST_PORT, true, false), 1 := Router(2, 0, false, false)];
      Distinct(rs, false) && !Distinct(Apply(rs, Toggle(1, true, true)), false)
  {
    var rs: Table := map[0 := Router(1, FIRST_PORT, true, false), 1 := Router(2, 0, false, false)];
    var op := Toggle(1, true, true);
    assert UsedPorts(rs, OneTenant(2)) == {};
    assert Apply(rs, op)[1].port == FIRST_PORT;
    assert Clashes(Apply(rs, op), 1, 2, FIRST_PORT, 0, false);
  }

  /** A port stored unchecked clashes within one tenant: by an update, and by a VPN create without remote access. */
  lemma UncheckedPortsClash(p: nat)
    requires p > 0
    ensures var rs: Table := map[0 := Router(1, p, true, false), 1 := Router(1, 0, false, false)];
      && Distinct(rs, false)
      && !Distinct(Apply(rs, Update(1, p, false, false)), true)
      && !Distinct(Apply(rs, Create(2, 1, true, p, false, true)), true)
  {
    var rs: Table := map[0 := Router(1, p, true, false), 1 := Router(1, 0, false, false)];
    var updated, created := Apply(rs, Update(1, p, false, false)), Apply(rs, Create(2, 1, true, p, false, true));
    assert updated[1].port == p && Clashes(updated, 1, updated[1].tenant, updated[1].port, 0, true);
    assert created[2].port == p && Clashes(created, 2, created[2].tenant, created[2].port, 0, true);
  }

  // ---------- the search cannot fail early ----------

  function Range(lo: nat, hi: nat): (ports: set<nat>)
    ensures forall p :: p in ports <==> lo <= p < hi
    decreases hi
  {
    if lo >= hi then {} else Range(lo, hi - 1) + {hi - 1}
  }

  lemma {:induction false} RangeSize(lo: nat, hi: nat)
    requires lo <= hi
    ensures |Range(lo, hi)| == hi - lo
  {
    if lo < hi {
      RangeSize(lo, hi - 1);
      assert hi - 1 !in Range(lo, hi - 1);
    }
  }

  function PortsOf(rs: Table, ids: set<Id>): set<nat>
    requires ids <= rs.Keys
  {
    set id | id in ids :: rs[id].port
  }

  lemma {:induction false} ImageSize(rs: Table, ids: set<Id>)
    requires ids <= rs.Keys
    ensures |PortsOf(rs, ids)| <= |ids|
    decreases |ids|
  {
    if ids != {} {
      var x :| x in ids;
      ImageSize(rs, ids - {x});
      assert PortsOf(rs, ids) == PortsOf(rs, ids - {x}) + {rs[x].port};
    }
  }

  lemma CoveringNeedsHolders(rs: Table, ids: set<Id>, lo: nat, hi: nat)
    requires ids <= rs.Keys && lo <= hi
    requires forall p :: lo <= p < hi ==> p in PortsOf(rs, ids)
    ensures hi - lo <= |ids|
  {
    RangeSize(lo, hi);
    Collections.SubsetSize(Range(lo, hi), PortsOf(rs, ids));
    ImageSize(rs, ids);
  }

  /** While fewer routers in scope hold a port than the range has ports, the search succeeds. */
  lemma SearchSucceeds(rs: Table, scope: Scope)
    requires |Holders(rs, scope)| < 9501
    ensures FirstFree(UsedPorts(rs, scope), FIRST_PORT) != 0
  {
    FirstFreeIsLeast(UsedPorts(rs, scope), FIRST_PORT);
    if FirstFree(UsedPorts(rs, scope), FIRST_PORT) == 0 {
      assert UsedPorts(rs, scope) == PortsOf(rs, Holders(rs, scope));
      CoveringNeedsHolders(rs, Holders(rs, scope), FIRST_PORT, LAST_PORT + 1);
    }
  }

  // ---------- the service ----------

  class NetworkService {
    var routers: Table

    constructor ()
      ensures routers == map[]
    {
      routers := map[];
    }

    /** The loop that fills usedPorts from the listed routers. */
    method CollectUsedPorts(scope: Scope) returns (used: set<nat>)
      ensures used == UsedPorts(routers, scope)
      ensures forall p :: p in used <==> p > 0 && Held(routers, p, scope)
    {
      used := {};
      var listed := set id | id in routers && InScope(routers[id], scope);
      ghost var done := {};
      while listed != {}
        invariant forall id :: id in listed || id in done <==> id in routers && InScope(routers[id], scope)
        invariant listed !! done
        invariant used == set id | id in done && routers[id].port > 0 :: routers[id].port
        decreases listed
      {
        var id :| id in listed;
        if routers[id].port > 0 {
          used := used + {routers[id].port};
        }
        listed := listed - {id};
        done := done + {id};
      }
      forall p ensures p in used <==> p > 0 && Held(routers, p, scope) {
        UsedAreHeld(routers, scope, p);
      }
    }

    method FindFreePort(used: set<nat>) returns (port: nat)
      ensures port == FirstFree(used, FIRST_PORT)
    {
      port := 0;
      var p := FIRST_PORT;
      while p <= LAST_PORT
        invariant FIRST_PORT <= p <= LAST_PORT + 1
        invariant FirstFree(used, FIRST_PORT) == FirstFree(used, p)
      {
        if p !in used {
          return p;
        }
        p := p + 1;
      }
    }

    method CreateRouter(id: Id, tenant: Id, vpn: bool, requested: nat, enable: bool, rulesApply: bool) returns (ok: bool)
      requires id !in routers
      modifies this
      ensures routers == Apply(old(routers), Create(id, tenant, vpn, requested, enable, rulesApply))
      ensures ok <==> id in routers
      ensures !ok ==> routers == old(routers) && enable
      ensures ok ==> id in routers && routers == old(routers)[id := routers[id]]
      ensures ok ==> routers[id].tenant == tenant && routers[id].enabled == enable && !routers[id].deleted
      ensures ok && !enable ==> routers[id].port == if vpn then requested else 0
      ensures ok && enable ==> rulesApply && routers[id].port == FirstFree(UsedPorts(old(routers), AllTenants), 10500)
    {
      var port := 0;
      if vpn && requested > 0 {
        port := requested;
      }
      if enable {
        var used := CollectUsedPorts(AllTenants);
        port := FindFreePort(used);
        if port == 0 || !rulesApply {
          return false;
        }
      }
      routers := routers[id := Router(tenant, port, enable, false)];
      ok := true;
    }

    method ProvisionRouter(id: Id, tenant: Id, scriptSucceeds: bool) returns (port: nat)
      requires id !in routers
      modifies this
      ensures routers == Apply(old(routers), Provision(id, tenant, scriptSucceeds))
      ensures port == Assigned(old(routers), Provision(id, tenant, scriptSucceeds))
      ensures port == if scriptSucceeds then FirstFree(UsedPorts(old(routers), AllTenants), 10500) else 0
      ensures routers == if port == 0 then old(routers) else old(routers)[id := Router(tenant, port, true, false)]
    {
      var used := CollectUsedPorts(AllTenants);
      port := FindFreePort(used);
      if port == 0 || !scriptSucceeds {
        return 0;
      }
      routers := routers[id := Router(tenant, port, true, false)];
    }

    method ToggleRemoteAccess(id: Id, enabled: bool, rulesApply: bool) returns (ok: bool)
      modifies this
      ensures routers == Apply(old(routers), Toggle(id, enabled, rulesApply))
      ensures ok <==> id in routers && routers[id].enabled == enabled
      ensures !ok ==> routers == old(routers)
      ensures ok ==> id in old(routers) && routers == old(routers)[id := old(routers)[id].(enabled := enabled, port := routers[id].port)]
      ensures ok && (!enabled || old(routers)[id].enabled || old(routers)[id].port != 0) ==> routers[id].port == old(routers)[id].port
      ensures ok && enabled && !old(routers)[id].enabled ==> rulesApply && routers[id].port != 0
      ensures ok && enabled && !old(routers)[id].enabled && old(routers)[id].port == 0 ==>
        routers[id].port == FirstFree(UsedPorts(old(routers), OneTenant(old(routers)[id].tenant)), 10500)
    {
      if id !in routers {
        return false;
      }
      var router := routers[id];
      if router.enabled == enabled {
        return true;
      }
      if enabled {
        if router.port == 0 {
          var used := CollectUsedPorts(OneTenant(router.tenant));
          var port := FindFreePort(used);
          if port == 0 {
            return false;
          }
          router := router.(port := port);
        }
        if !rulesApply {
          return false;
        }
      }
      routers := routers[id := router.(enabled := enabled)];
      ok := true;
    }

    /** A positive requested port is stored without a search. */
    method UpdateRouter(id: Id, requested: nat, setEnabled: bool, enabled: bool) returns (ok: bool)
      modifies this
      ensures routers == Apply(old(routers), Update(id, requested, setEnabled, enabled))
      ensures ok <==> id in old(routers)
      ensures !ok ==> routers == old(routers)
      ensures ok ==> routers == old(routers)[id := old(routers)[id].(
        port := if requested > 0 then requested else old(routers)[id].port,
        enabled := if setEnabled then enabled else old(routers)[id].enabled)]
    {
      if id !in routers {
        return false;
      }
      var router := routers[id];
      if requested > 0 {
        router := router.(port := requested);
      }
      if setEnabled {
        router := router.(enabled := enabled);
      }
      routers := routers[id := router];
      ok := true;
    }

    method DeleteRouter(id: Id) returns (ok: bool)
      modifies this
      ensures routers == Apply(old(routers), Delete(id))
      ensures ok <==> id in old(routers)
      ensures routers == if ok then old(routers)[id := old(routers)[id].(deleted := true)] else old(routers)
    {
      if id !in routers {
        return false;
      }
      routers := routers[id := routers[id].(deleted := true)];
      ok := true;
    }
  }
}
