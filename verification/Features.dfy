/**
 * Feature resolution, one code at a time (Has) and all at once (GetAllFeatures), and exactly
 * where the two agree. A plan lists features and may hold the wildcard "*".
 */
module Features {
  import opened Options

  datatype Toggle = Toggle(code: string, enabled: bool)

  /** The addon's type test, its parsed feature (None if the value does not parse) and its expiry test. */
  datatype TenantAddon = TenantAddon(isFeature: bool, feature: Option<string>, expired: bool)

  /** plan: None without a plan; a plan whose feature list does not parse lists nothing. */
  datatype Tenant = Tenant(plan: Option<seq<string>>, addons: seq<TenantAddon>, toggles: seq<Toggle>, globals: seq<Toggle>)

  const WILDCARD := "*"

  function AllFeatureCodes(): seq<string> {
    ["client_management", "billing_basic", "billing_full", "radius_basic", "radius_full", "mikrotik_api",
     "voucher_basic", "voucher_full", "isolir_manual", "isolir_auto", "maps_basic", "maps_full",
     "rbac_basic", "rbac_full", "wa_gateway", "payment_gateway", "hr_module", "collector_module",
     "technician_module", "custom_login_page", "custom_domain", "reports_advanced", "api_access",
     "priority_support", "mikrotik_api_basic", "mikrotik_control_panel_advanced", "wa_gateway_basic",
     "wa_gateway", "rbac_employee", "rbac_client_reseller", "api_integration_partial",
     "api_integration_full", "hcm_module", "payment_reporting_advanced", "dashboard_pendapatan",
     "odp_maps", "client_maps", "custom_isolir_page", "ai_agent_client_wa", "addon_router",
     "addon_user_packs", "service_packages"]
  }

  /** At most one toggle per code in a scope. */
  predicate OnePerCode(toggles: seq<Toggle>) {
    forall i, j :: 0 <= i < j < |toggles| ==> toggles[i].code != toggles[j].code
  }

  /** The lookup of one toggle by code. */
  function Find(toggles: seq<Toggle>, code: string): Option<bool> {
    if toggles == [] then None
    else if toggles[0].code == code then Some(toggles[0].enabled)
    else Find(toggles[1..], code)
  }

  predicate Unlocks(a: TenantAddon, code: string) {
    a.isFeature && !a.expired && a.feature == Some(code)
  }

  predicate AddonUnlocks(addons: seq<TenantAddon>, code: string) {
    exists i :: 0 <= i < |addons| && Unlocks(addons[i], code)
  }

  predicate PlanHas(features: seq<string>, code: string) {
    WILDCARD in features || code in features
  }

  // ---------- one code ----------

  predicate Has(t: Tenant, code: string) {
    var global := Find(t.globals, code);
    var own := Find(t.toggles, code);
    if global == Some(false) then false
    else if own.Some? then own.value
    else if AddonUnlocks(t.addons, code) then true
    else t.plan.Some? && PlanHas(t.plan.value, code)
  }

  lemma {:induction false} FindMeans(toggles: seq<Toggle>, code: string, enabled: bool)
    requires OnePerCode(toggles)
    ensures Find(toggles, code) == Some(enabled) <==> Toggle(code, enabled) in toggles
  {
    if toggles != [] {
      FindMeans(toggles[1..], code, enabled);
      assert toggles == [toggles[0]] + toggles[1..];
      FindNone(toggles[1..], code);
      if toggles[0].code == code {
        assert forall i :: 0 <= i < |toggles[1..]| ==> toggles[1..][i] == toggles[i + 1];
      }
    }
  }

  /** The precedence in the data: a disabled global toggle, then the tenant's own toggle, then an unexpired feature addon, then the plan and its "*". */
  lemma HasMeans(t: Tenant, code: string)
    requires OnePerCode(t.globals) && OnePerCode(t.toggles)
    ensures Has(t, code) <==>
      && Toggle(code, false) !in t.globals
      && (|| Toggle(code, true) in t.toggles
          || (&& Toggle(code, false) !in t.toggles
              && (|| (exists a :: a in t.addons && a.isFeature && !a.expired && a.feature == Some(code))
                  || (t.plan.Some? && ("*" in t.plan.value || code in t.plan.value)))))
  {
    FindMeans(t.globals, code, false);
    FindMeans(t.toggles, code, true);
    FindMeans(t.toggles, code, false);
    if i :| 0 <= i < |t.addons| && Unlocks(t.addons[i], code) {
      assert t.addons[i] in t.addons;
    }
    if a :| a in t.addons && a.isFeature && !a.expired && a.feature == Some(code) {
      var i :| 0 <= i < |t.addons| && t.addons[i] == a;
      assert Unlocks(t.addons[i], code);
    }
  }

  method ResolveHas(t: Tenant, code: string) returns (has: bool)
    ensures has <==> Has(t, code)
  {
    var global := Find(t.globals, code);
    if global.Some? {
      if !global.value {
        return false;
      }
    }
    var own := Find(t.toggles, code);
    if own.Some? {
      return own.value;
    }
    for i := 0 to |t.addons|
      invariant forall j :: 0 <= j < i ==> !Unlocks(t.addons[j], code)
    {
      var a := t.addons[i];
      if a.isFeature && !a.expired {
        if a.feature.Some? && a.feature.value == code {
          return true;
        }
      }
    }
    if t.plan.Some? {
      has := PlanIncludes(t.plan.value, code);
      return;
    }
    has := false;
  }

  method PlanIncludes(features: seq<string>, code: string) returns (has: bool)
    ensures has <==> PlanHas(features, code)
  {
    for i := 0 to |features|
      invariant forall j :: 0 <= j < i ==> features[j] != WILDCARD && features[j] != code
    {
      if features[i] == WILDCARD || features[i] == code {
        return true;
      }
    }
    has := false;
  }

  // ---------- all codes ----------

  function Read(features: map<string, bool>, code: string): bool {
    code in features && features[code]
  }

  /** The plan features entered before the first wildcard, and every known code once it is met. */
  predicate Entered(features: seq<string>, code: string, known: seq<string>) {
    features != [] &&
    if features[0] == WILDCARD then code in known else features[0] == code || Entered(features[1..], code, known)
  }

  predicate Resolved(t: Tenant, code: string, known: seq<string>) {
    var own := Find(t.toggles, code);
    if Find(t.globals, code) == Some(false) then false
    else if own.Some? then own.value
    else AddonUnlocks(t.addons, code) || (t.plan.Some? && Entered(t.plan.value, code, known))
  }

  lemma {:induction false} EnteredSnoc(features: seq<string>, f: string, code: string, known: seq<string>)
    requires WILDCARD !in features
    ensures Entered(features + [f], code, known) <==> code in features || (if f == WILDCARD then code in known else f == code)
  {
    if features != [] {
      assert (features + [f])[1..] == features[1..] + [f];
      EnteredSnoc(features[1..], f, code, known);
    }
  }

  /** What follows the first wildcard is never entered. */
  lemma {:induction false} EnteredPrefix(features: seq<string>, i: nat, code: string, known: seq<string>)
    requires i < |features| && features[i] == WILDCARD && WILDCARD !in features[..i]
    ensures Entered(features, code, known) <==> Entered(features[..i + 1], code, known)
    decreases i
  {
    if i > 0 {
      assert features[0] in features[..i];
      assert features[..i + 1][1..] == features[1..][..i] && features[1..][..i - 1] == features[..i][1..];
      EnteredPrefix(features[1..], i - 1, code, known);
    }
  }

  method EnterPlan(plan: seq<string>, known: seq<string>) returns (features: map<string, bool>)
    ensures forall c :: Read(features, c) <==> Entered(plan, c, known)
  {
    features := map[];
    for i := 0 to |plan|
      invariant WILDCARD !in plan[..i]
      invariant forall c :: Read(features, c) <==> c in plan[..i]
    {
      assert plan[..i + 1] == plan[..i] + [plan[i]];
      forall c ensures Entered(plan[..i + 1], c, known) <==> c in plan[..i] || (if plan[i] == WILDCARD then c in known else plan[i] == c) {
        EnteredSnoc(plan[..i], plan[i], c, known);
      }
      if plan[i] == WILDCARD {
        features := EnterAll(features, known);
        forall c ensures Entered(plan, c, known) <==> Entered(plan[..i + 1], c, known) {
          EnteredPrefix(plan, i, c, known);
        }
        return;
      }
      features := features[plan[i] := true];
    }
    forall c ensures Entered(plan, c, known) <==> c in plan {
      EnteredWithoutWildcard(plan, c, known);
    }
    assert plan[..|plan|] == plan;
  }

  lemma {:induction false} EnteredWithoutWildcard(features: seq<string>, code: string, known: seq<string>)
    requires WILDCARD !in features
    ensures Entered(features, code, known) <==> code in features
  {
    if features != [] {
      EnteredWithoutWildcard(features[1..], code, known);
    }
  }

  method EnterAll(before: map<string, bool>, known: seq<string>) returns (features: map<string, bool>)
    ensures forall c :: Read(features, c) <==> Read(before, c) || c in known
  {
    features := before;
    for i := 0 to |known|
      invariant forall c :: Read(features, c) <==> Read(before, c) || c in known[..i]
    {
      features := features[known[i] := true];
    }
  }

  method EnterAddons(before: map<string, bool>, addons: seq<TenantAddon>) returns (features: map<string, bool>)
    ensures forall c :: Read(features, c) <==> Read(before, c) || AddonUnlocks(addons, c)
  {
    features := before;
    for i := 0 to |addons|
      invariant forall c :: Read(features, c) <==> Read(before, c) || AddonUnlocks(addons[..i], c)
    {
      var a := addons[i];
      ghost var was := features;
      if a.isFeature && !a.expired && a.feature.Some? {
        features := features[a.feature.value := true];
      }
      forall c ensures Read(features, c) <==> Read(before, c) || AddonUnlocks(addons[..i + 1], c) {
        UnlocksSnoc(addons, i, c);
        assert Read(features, c) <==> Read(was, c) || Unlocks(a, c);
      }
    }
    assert addons[..|addons|] == addons;
  }

  lemma UnlocksSnoc(addons: seq<TenantAddon>, i: nat, code: string)
    requires i < |addons|
    ensures AddonUnlocks(addons[..i + 1], code) <==> AddonUnlocks(addons[..i], code) || Unlocks(addons[i], code)
  {
    hide Unlocks;
    var shorter, longer := addons[..i], addons[..i + 1];
    assert longer == shorter + [addons[i]];
    if j :| 0 <= j < |shorter| && Unlocks(shorter[j], code) {
      assert Unlocks(longer[j], code);
    }
    if Unlocks(addons[i], code) {
      assert Unlocks(longer[i], code);
    }
  }

  lemma {:induction false} FindSnoc(toggles: seq<Toggle>, t: Toggle, code: string)
    ensures Find(toggles + [t], code) ==
      if Find(toggles, code).Some? then Find(toggles, code) else if t.code == code then Some(t.enabled) else None
  {
    if toggles != [] {
      assert (toggles + [t])[1..] == toggles[1..] + [t];
      FindSnoc(toggles[1..], t, code);
    }
  }

  lemma {:induction false} FindNone(toggles: seq<Toggle>, code: string)
    ensures Find(toggles, code) == None <==> forall i :: 0 <= i < |toggles| ==> toggles[i].code != code
  {
    if toggles != [] {
      FindNone(toggles[1..], code);
      assert toggles == [toggles[0]] + toggles[1..];
    }
  }

  lemma FindPrefix(toggles: seq<Toggle>, i: nat, code: string)
    requires OnePerCode(toggles) && i < |toggles|
    ensures Find(toggles[..i + 1], code) == if code == toggles[i].code then Some(toggles[i].enabled) else Find(toggles[..i], code)
    ensures code == toggles[i].code ==> Find(toggles[..i], code) == None
  {
    assert toggles[..i + 1] == toggles[..i] + [toggles[i]];
    FindSnoc(toggles[..i], toggles[i], code);
    FindNone(toggles[..i], code);
  }

  method OverrideWithToggles(before: map<string, bool>, toggles: seq<Toggle>) returns (features: map<string, bool>)
    requires OnePerCode(toggles)
    ensures forall c :: Read(features, c) <==> (var own := Find(toggles, c); if own.Some? then own.value else Read(before, c))
  {
    features := before;
    for i := 0 to |toggles|
      invariant forall c :: Read(features, c) <==> (var own := Find(toggles[..i], c); if own.Some? then own.value else Read(before, c))
    {
      ghost var was := features;
      features := features[toggles[i].code := toggles[i].enabled];
      forall c ensures Read(features, c) <==> (var own := Find(toggles[..i + 1], c); if own.Some? then own.value else Read(before, c)) {
        FindPrefix(toggles, i, c);
        assert c != toggles[i].code ==> Read(features, c) == Read(was, c);
      }
    }
    assert toggles[..|toggles|] == toggles;
  }

  method ApplyGlobals(before: map<string, bool>, toggles: seq<Toggle>) returns (features: map<string, bool>)
    requires OnePerCode(toggles)
    ensures forall c :: Read(features, c) <==> Find(toggles, c) != Some(false) && Read(before, c)
  {
    features := before;
    for i := 0 to |toggles|
      invariant forall c :: Read(features, c) <==> Find(toggles[..i], c) != Some(false) && Read(before, c)
    {
      ghost var was := features;
      if !toggles[i].enabled {
        features := features[toggles[i].code := false];
      }
      forall c ensures Read(features, c) <==> Find(toggles[..i + 1], c) != Some(false) && Read(before, c) {
        assert c != toggles[i].code ==> Read(features, c) == Read(was, c);
        FindPrefix(toggles, i, c);
      }
    }
    assert toggles[..|toggles|] == toggles;
  }

  /** GetAllFeatures, read at a code with default false, is Resolved at that code. */
  method GetAllFeatures(t: Tenant) returns (features: map<string, bool>)
    requires OnePerCode(t.toggles) && OnePerCode(t.globals)
    ensures forall c :: Read(features, c) <==> Resolved(t, c, AllFeatureCodes())
  {
    hide AllFeatureCodes;
    features := map[];
    if t.plan.Some? {
      features := EnterPlan(t.plan.value, AllFeatureCodes());
    }
    features := EnterAddons(features, t.addons);
    features := OverrideWithToggles(features, t.toggles);
    features := ApplyGlobals(features, t.globals);
  }

  // ---------- agreement ----------

  /** Nothing but the plan decides this code. */
  predicate LeftToPlan(t: Tenant, code: string) {
    Find(t.globals, code) != Some(false) && Find(t.toggles, code).None? && !AddonUnlocks(t.addons, code)
  }

  /** What a plan lists before its first wildcard, all of it if there is none. */
  function BeforeWildcard(features: seq<string>): seq<string> {
    if features == [] || features[0] == WILDCARD then [] else [features[0]] + BeforeWildcard(features[1..])
  }

  lemma {:induction false} EnteredMeans(features: seq<string>, code: string, known: seq<string>)
    ensures Entered(features, code, known) <==> code in BeforeWildcard(features) || (WILDCARD in features && code in known)
    ensures code in features ==> code in BeforeWildcard(features) || WILDCARD in features
    ensures code in BeforeWildcard(features) ==> code in features
  {
    if features != [] {
      EnteredMeans(features[1..], code, known);
    }
  }

  /**
   * The batch form and the single form disagree on a code exactly when only the plan decides
   * it, the plan has a wildcard, does not list the code before it, and the code is unknown.
   */
  lemma AgreesExactly(t: Tenant, code: string, known: seq<string>)
    ensures (Resolved(t, code, known) <==> Has(t, code)) <==>
      !(LeftToPlan(t, code) && t.plan.Some? && WILDCARD in t.plan.value && code !in known && code !in BeforeWildcard(t.plan.value))
  {
    if t.plan.Some? {
      EnteredMeans(t.plan.value, code, known);
    }
  }

  /** Such a code: a wildcard plan has "sso", which the batch form does not list. */
  lemma WildcardDisagrees()
    ensures var t := Tenant(Some([WILDCARD]), [], [], []);
      Has(t, "sso") && !Resolved(t, "sso", AllFeatureCodes())
  {
    var t, known := Tenant(Some([WILDCARD]), [], [], []), AllFeatureCodes();
    assert "sso" !in known by {
      assert forall i :: 0 <= i < |known| ==> |known[i]| >= 8;
    }
    hide AllFeatureCodes;
    assert t.plan.value[0] == WILDCARD;
    AgreesExactly(t, "sso", known);
  }

  /** The plan catalogue: what the basic plan lists. */
  predicate InBasicPlan(code: string) {
    || code == "radius_basic"
    || code == "mikrotik_api_basic"
    || code == "wa_gateway_basic"
    || code == "isolir_manual"
    || code == "addon_router"
    || code == "addon_user_packs"
  }

  /** What the pro plan adds. */
  predicate InProPlan(code: string) {
    || code == "mikrotik_control_panel_advanced"
    || code == "wa_gateway"
    || code == "isolir_auto"
    || code == "rbac_employee"
    || code == "rbac_client_reseller"
    || code == "payment_gateway"
    || code == "api_integration_partial"
    || code == "hcm_module"
    || code == "payment_reporting_advanced"
    || code == "dashboard_pendapatan"
  }

  /** What the business plan adds. */
  predicate InBusinessPlan(code: string) {
    || code == "odp_maps"
    || code == "client_maps"
    || code == "api_integration_full"
    || code == "custom_login_page"
    || code == "custom_isolir_page"
    || code == "ai_agent_client_wa"
  }

  lemma KnownAt(known: seq<string>, i: nat)
    requires i < |known|
    ensures known[i] in known
  {
  }

  lemma BasicCodesAreKnown(code: string)
    requires InBasicPlan(code)
    ensures code in AllFeatureCodes()
  {
    var known := AllFeatureCodes();
    var i :=
      if code == "radius_basic" then 3
      else if code == "mikrotik_api_basic" then 24
      else if code == "wa_gateway_basic" then 26
      else if code == "isolir_manual" then 8
      else if code == "addon_router" then 39
      else 40;
    assert known[i] == code;
    KnownAt(known, i);
  }

  lemma ProCodesAreKnown(code: string)
    requires InProPlan(code)
    ensures code in AllFeatureCodes()
  {
    var known := AllFeatureCodes();
    var i :=
      if code == "mikrotik_control_panel_advanced" then 25
      else if code == "wa_gateway" then 14
      else if code == "isolir_auto" then 9
      else if code == "rbac_employee" then 28
      else if code == "rbac_client_reseller" then 29
      else if code == "payment_gateway" then 15
      else if code == "api_integration_partial" then 30
      else if code == "hcm_module" then 32
      else if code == "payment_reporting_advanced" then 33
      else 34;
    assert known[i] == code;
    KnownAt(known, i);
  }

  lemma BusinessCodesAreKnown(code: string)
    requires InBusinessPlan(code)
    ensures code in AllFeatureCodes()
  {
    var known := AllFeatureCodes();
    var i :=
      if code == "odp_maps" then 35
      else if code == "client_maps" then 36
      else if code == "api_integration_full" then 31
      else if code == "custom_login_page" then 19
      else if code == "custom_isolir_page" then 37
      else 38;
    assert known[i] == code;
    KnownAt(known, i);
  }

  /** Every code a plan of the catalogue lists is known, so a wildcard plan has it in both forms. */
  lemma PlanCodesAreKnown(code: string)
    requires InBasicPlan(code) || InProPlan(code) || InBusinessPlan(code)
    ensures code in AllFeatureCodes()
  {
    hide InBasicPlan, InProPlan, InBusinessPlan, AllFeatureCodes;
    if InBasicPlan(code) {
      BasicCodesAreKnown(code);
    } else if InProPlan(code) {
      ProCodesAreKnown(code);
    } else {
      BusinessCodesAreKnown(code);
    }
  }

  /** So they agree on every code of a plan without the wildcard, and on every known code of any plan. */
  lemma AgreesOnKnownCodes(t: Tenant, code: string)
    requires t.plan.Some? && WILDCARD in t.plan.value ==> code in AllFeatureCodes()
    ensures Resolved(t, code, AllFeatureCodes()) <==> Has(t, code)
  {
    hide AllFeatureCodes;
    AgreesExactly(t, code, AllFeatureCodes());
    if t.plan.Some? {
      EnteredMeans(t.plan.value, code, AllFeatureCodes());
    }
  }
}
