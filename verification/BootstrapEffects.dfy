/**
 What a bootstrap run leaves in the store, whatever was there before: built-in rules and routes, delegation, tags, the
 first administrators. Read off the stored tables, the marker and the build alone.
 */
module BootstrapEffects {
  import opened Prelude
  import opened AccessRules
  import opened RbacStore
  import R = RouteMapMerge
  import opened Bootstrap
  import P = Power
  import V = Resolver

  // ── When a run does anything ──────────────────────────────────────────────

  /** Nothing of this build is left to bring in. */
  predicate UpToDate(marker: Option<Marker>, b: Build) {
    && marker.Some? && marker.value.schemaVersion == b.schemaVersion
    && marker.value.rulesHash == b.rulesHash && marker.value.routesHash == b.routesHash
  }

  /** A newer build has been here. */
  predicate Ahead(marker: Option<Marker>, b: Build) {
    marker.Some? && marker.value.schemaVersion > b.schemaVersion
  }

  predicate HasWork(marker: Option<Marker>, b: Build) {
    !UpToDate(marker, b) && !Ahead(marker, b)
  }

  /** A run has work unless the marker is of this very build, built-ins included, or of a newer schema. */
  lemma OutcomeMeans(marker: Option<Marker>, b: Build)
    ensures var o := OutcomeOf(marker, b);
            && (o == NoOp <==> UpToDate(marker, b))
            && (o == SchemaDowngrade <==> Ahead(marker, b))
            && (o == FirstRun <==> marker.None?)
            && (o == SchemaUpgrade <==> marker.Some? && marker.value.schemaVersion < b.schemaVersion)
            && (o == BuiltinsDrift <==> HasWork(marker, b) && marker.Some?
                                        && marker.value.schemaVersion == b.schemaVersion)
  {
  }

  /** A run with nothing to bring in writes no marker and, at most, tags. */
  lemma IdleRun(i: Install, b: Build, now: int)
    requires !HasWork(i.marker, b)
    ensures var after := Run(i, b, now);
            && after.marker == i.marker
            && after.rbac.(groupMeta := i.rbac.groupMeta, serviceMeta := i.rbac.serviceMeta) == i.rbac
            && (Ahead(i.marker, b) ==> after.rbac == i.rbac)
            && (UpToDate(i.marker, b) ==> Protected(after.rbac))
  {
    TaggedIsCurrent(i.rbac, now);
  }

  /** The groups and services of the system carry its tag wherever they exist. */
  predicate Protected(r: Rbac) {
    && (forall g :: g in {"super_admins", "admins", "devs", "viewers", "users"} && g in r.groups ==>
         g in r.groupMeta && r.groupMeta[g].system)
    && (forall s :: s in {"jinbe", "kuma", "auth", "local-auth", "login_page", "hydra-oauth2-public", "kratos",
                          "oathkeeper", "hydra", "kratos-login-ui"} && s in r.services ==>
          s in r.serviceMeta && r.serviceMeta[s].system)
  }

  /** The marker a run with work writes: this build, stamped now; the first time stays. */
  lemma MarkerWritten(i: Install, b: Build, now: int)
    requires HasWork(i.marker, b)
    ensures var m := Run(i, b, now).marker;
            && m.Some? && UpToDate(m, b)
            && m.value.version == b.version && m.value.gitSha == b.gitSha && m.value.lastUpgradeAt == now
            && m.value.bootstrappedAt == (if i.marker.Some? then i.marker.value.bootstrappedAt else now)
            && m.value.previousSchemaVersion
                 == (if i.marker.Some? then Some(i.marker.value.schemaVersion) else None)
            && (i.marker.Some? && i.marker.value.schemaVersion == b.schemaVersion ==>
                 m.value.migrations == i.marker.value.migrations)
            && (i.marker.None? || i.marker.value.schemaVersion < b.schemaVersion ==>
                 m.value.migrations
                 == (if i.marker.Some? then i.marker.value.migrations else [])
                    + [Migration(m.value.previousSchemaVersion, b.schemaVersion, now, b.gitSha)])
  {
  }

  // ── Rules ─────────────────────────────────────────────────────────────────

  /** The rules under none of the built-in ids, in order. */
  function Others(rules: seq<Rule>, builtIn: seq<Rule>): seq<Rule> {
    Filter(rules, (r: Rule) => forall x :: x in builtIn ==> x.id != r.id)
  }

  /** The state the upserts of a run start from. */
  function Base(i: Install, b: Build): Rbac {
    if i.marker.Some? then i.rbac
    else if b.hasApp then SeededKuma(SeededDefaults(i.rbac)) else SeededDefaults(i.rbac)
  }

  lemma RunUpserts(i: Install, b: Build, now: int)
    requires HasWork(i.marker, b)
    ensures Run(i, b, now).rbac == Upserted(Base(i, b), b, now)
  {
  }

  lemma UpsertedTables(r: Rbac, b: Build, now: int)
    ensures var s := Upserted(r, b, now);
            && s.rules == UpsertedRules(r.rules, b.rules) && s.routeMaps == R.MergedInto(r.routeMaps, b.routes)
            && s.services == r.services && s.orgs == r.orgs
  {
    DelegationPromise(Tagged(WithBuiltInRoutes(WithBuiltInRules(r, b), b), now));
  }

  /** The defaults are groups, roles and services. */
  lemma DefaultsTables(r: Rbac)
    ensures var s := SeededDefaults(r);
            && s.rules == r.rules && s.orgs == r.orgs && s.routeMaps == r.routeMaps
            && s.groupMeta == r.groupMeta && s.serviceMeta == r.serviceMeta
  {
  }

  /** `kuma` comes with an empty route map of its own. */
  lemma KumaTables(r: Rbac)
    ensures var s := SeededKuma(r);
            && s.rules == r.rules && s.orgs == r.orgs
            && s.groupMeta == r.groupMeta && s.serviceMeta == r.serviceMeta
            && s.routeMaps == if "kuma" in r.routeMaps then r.routeMaps else r.routeMaps["kuma" := []]
  {
    KumaServiceTables(r);
  }

  lemma KumaServiceTables(r: Rbac)
    ensures var s := WithKumaService(r);
            && s.rules == r.rules && s.orgs == r.orgs && s.routeMaps == r.routeMaps
            && s.groupMeta == r.groupMeta && s.serviceMeta == r.serviceMeta
  {
  }

  /** What the seeders add before the upserts: no rule, no org, and no route map but the empty one for `kuma`. */
  lemma BaseTables(i: Install, b: Build)
    ensures var base := Base(i, b);
            && base.rules == i.rbac.rules && base.orgs == i.rbac.orgs
            && base.groupMeta == i.rbac.groupMeta && base.serviceMeta == i.rbac.serviceMeta
            && base.routeMaps == if i.marker.None? && b.hasApp && "kuma" !in i.rbac.routeMaps
                                 then i.rbac.routeMaps["kuma" := []] else i.rbac.routeMaps
  {
    DefaultsTables(i.rbac);
    KumaTables(SeededDefaults(i.rbac));
  }

  lemma RunTables(i: Install, b: Build, now: int)
    requires HasWork(i.marker, b)
    ensures var s := Run(i, b, now).rbac;
            && s.rules == UpsertedRules(i.rbac.rules, b.rules)
            && s.routeMaps == R.MergedInto(Base(i, b).routeMaps, b.routes)
            && s.services == Base(i, b).services && s.orgs == i.rbac.orgs
  {
    RunUpserts(i, b, now);
    UpsertedTables(Base(i, b), b, now);
    BaseTables(i, b);
  }

  /**
   Every built-in rule is stored, under its id if the ids are distinct; no other rule holds such an id; all
   others stay as they were, in order.
   */
  ghost predicate RulesBroughtIn(before: seq<Rule>, after: seq<Rule>, builtIn: seq<Rule>) {
    && (forall r :: r in builtIn ==> r in after)
    && (forall r, x :: r in after && x in builtIn && x.id == r.id ==> r in builtIn)
    && Others(after, builtIn) == Others(before, builtIn)
    && (DistinctIds(builtIn) ==> forall r :: r in builtIn ==> Find(after, r.id) == Some(r))
  }

  lemma BuiltInRulesStored(i: Install, b: Build, now: int)
    requires HasWork(i.marker, b)
    ensures RulesBroughtIn(i.rbac.rules, Run(i, b, now).rbac.rules, b.rules)
  {
    RunTables(i, b, now);
    UpsertBringsIn(i.rbac.rules, b.rules);
  }

  lemma UpsertBringsIn(rules: seq<Rule>, builtIn: seq<Rule>)
    ensures RulesBroughtIn(rules, UpsertedRules(rules, builtIn), builtIn)
  {
    var merged := UpsertedRules(rules, builtIn);
    UpsertPromise(rules, builtIn);
    OthersAreCustom(rules, builtIn);
    OthersAreCustom(merged, builtIn);
    forall r | r in builtIn && DistinctIds(builtIn) ensures Find(merged, r.id) == Some(r) {
      FoundInFront(builtIn, Filter(rules, Custom(Ids(builtIn))), r);
    }
  }

  lemma {:induction false} OthersAreCustom(rules: seq<Rule>, builtIn: seq<Rule>)
    ensures Others(rules, builtIn) == Filter(rules, Custom(Ids(builtIn)))
  {
    if rules != [] {
      OthersAreCustom(rules[1..], builtIn);
      assert Custom(Ids(builtIn))(rules[0]) <==> forall x :: x in builtIn ==> x.id != rules[0].id;
    }
  }

  lemma FoundInFront(front: seq<Rule>, back: seq<Rule>, r: Rule)
    requires DistinctIds(front) && r in front
    ensures Find(front + back, r.id) == Some(r)
  {
    var k :| 0 <= k < |front| && front[k] == r;
    assert (front + back)[k].id == r.id;
    assert forall j :: 0 <= j < k ==> (front + back)[j] == front[j];
  }

  // ── Routes ────────────────────────────────────────────────────────────────

  /** The service's own route map as stored, empty if there is none. */
  function OwnRoutes(r: Rbac): seq<RouteRule> {
    if "jinbe" in r.routeMaps then r.routeMaps["jinbe"] else []
  }

  /**
   The stored routes stay in front; a built-in key whose stored permissions are all built in ends with exactly
   the built-in ones, any other key with what it had.
   */
  ghost predicate RoutesBroughtIn(before: seq<RouteRule>, after: seq<RouteRule>, builtIn: seq<RouteRule>, key: string) {
    && before <= after
    && (forall r :: r in after[|before|..] ==> r in builtIn)
    && if R.PermsAt(builtIn, key) != {} && R.PermsAt(before, key) <= R.PermsAt(builtIn, key)
       then R.PermsAt(after, key) == R.PermsAt(builtIn, key)
       else Filter(after, R.AtKey(key)) == Filter(before, R.AtKey(key))
  }

  lemma BuiltInRoutesStored(i: Install, b: Build, now: int, key: string)
    requires HasWork(i.marker, b)
    ensures RoutesBroughtIn(OwnRoutes(i.rbac), OwnRoutes(Run(i, b, now).rbac), b.routes, key)
  {
    RunTables(i, b, now);
    BaseTables(i, b);
    assert R.Stored(Base(i, b).routeMaps) == OwnRoutes(i.rbac);
    MergedIntoOwn(Base(i, b).routeMaps, b.routes);
    MergeBringsIn(OwnRoutes(i.rbac), b.routes, key);
  }

  lemma MergedIntoOwn(routeMaps: map<string, seq<RouteRule>>, builtIn: seq<RouteRule>)
    ensures var after := R.MergedInto(routeMaps, builtIn);
            (if "jinbe" in after then after["jinbe"] else []) == R.Merged(R.Stored(routeMaps), builtIn)
  {
    assert R.Stored(routeMaps) + [] == R.Stored(routeMaps);
  }

  lemma MergeBringsIn(existing: seq<RouteRule>, builtIn: seq<RouteRule>, key: string)
    ensures RoutesBroughtIn(existing, R.Merged(existing, builtIn), builtIn, key)
  {
    R.MergePromise(existing, builtIn, key);
    KeyOwned(existing, builtIn, key);
  }

  /** No other service's map is touched, but for an empty one for `kuma` on a first run. */
  lemma OtherRoutesStay(i: Install, b: Build, now: int, svc: string)
    requires HasWork(i.marker, b) && svc != "jinbe"
    ensures var before, after := i.rbac.routeMaps, Run(i, b, now).rbac.routeMaps;
            if svc in before then svc in after && after[svc] == before[svc]
            else svc in after ==> svc == "kuma" && i.marker.None? && b.hasApp && after[svc] == []
  {
    RunTables(i, b, now);
    BaseTables(i, b);
    MergedElsewhere(Base(i, b).routeMaps, b.routes, svc);
  }

  lemma MergedElsewhere(routeMaps: map<string, seq<RouteRule>>, builtIn: seq<RouteRule>, svc: string)
    requires svc != "jinbe"
    ensures var after := R.MergedInto(routeMaps, builtIn);
            (svc in after <==> svc in routeMaps) && (svc in routeMaps ==> after[svc] == routeMaps[svc])
  {
  }

  lemma KeyOwned(existing: seq<RouteRule>, builtIn: seq<RouteRule>, key: string)
    ensures R.OperatorOwned(existing, builtIn, key) <==> !(R.PermsAt(existing, key) <= R.PermsAt(builtIn, key))
    ensures key in R.Keys(builtIn) <==> R.PermsAt(builtIn, key) != {}
  {
    if key in R.Keys(builtIn) {
      var r :| r in builtIn && R.Key(r) == key;
      assert R.Perm(r) in R.PermsAt(builtIn, key);
    }
    if R.OperatorOwned(existing, builtIn, key) {
      var r :| r in existing && R.Key(r) == key && R.Perm(r) !in R.PermsAt(builtIn, key);
      assert R.Perm(r) in R.PermsAt(existing, key);
    }
  }

  // ── Delegation ────────────────────────────────────────────────────────────

  /** A group delegation makes: the viewers or the administrators of one service, or the global administrators. */
  predicate DelegationGroup(services: set<string>, g: string, def: GroupDef) {
    || (g == "platform-admins" && def == map["global" := ["admin"]])
    || exists svc :: svc in {"kuma", "jinbe", "fleet"} && svc in services
         && ((g == svc + "-viewer" && def == map[svc := ["viewer"]])
             || (g == svc + "-admin" && def == map[svc := ["admin"]]))
  }

  lemma DelegatedGroups(r: Rbac, svc: string, g: string)
    requires svc in {"kuma", "jinbe", "fleet"}
    requires g in Delegated(r, svc).groups && g !in r.groups
    ensures DelegationGroup(r.services, g, Delegated(r, svc).groups[g])
  {
    WithOrgAdminExtends(WithGroup(WithGroup(r, svc + "-viewer", map[svc := ["viewer"]]), svc + "-admin",
                                  map[svc := ["admin"]]), svc);
  }

  lemma {:induction false} DelegatedAllGroups(r: Rbac, svcs: seq<string>, g: string)
    requires forall svc :: svc in svcs ==> svc in {"kuma", "jinbe", "fleet"}
    requires g in DelegatedAll(r, svcs).groups && g !in r.groups
    ensures DelegationGroup(r.services, g, DelegatedAll(r, svcs).groups[g])
  {
    if svcs != [] {
      var n := |svcs| - 1;
      var front := DelegatedAll(r, svcs[..n]);
      assert svcs[n] in svcs && forall svc :: svc in svcs[..n] ==> svc in svcs;
      DelegatedAllExtends(r, svcs[..n]);
      DelegatedExtends(front, svcs[n]);
      if g in front.groups {
        DelegatedAllGroups(r, svcs[..n], g);
      } else {
        DelegatedGroups(front, svcs[n], g);
      }
    }
  }

  /** What delegation adds to the groups, and that it changes none. */
  ghost predicate GroupsDelegated(before: map<string, GroupDef>, after: map<string, GroupDef>, services: set<string>) {
    && "platform-admins" in after
    && (forall svc :: svc in {"kuma", "jinbe", "fleet"} && svc in services ==>
         svc + "-viewer" in after && svc + "-admin" in after)
    && (forall g :: g in before ==> g in after && after[g] == before[g])
    && (forall g :: g in after && g !in before ==> DelegationGroup(services, g, after[g]))
  }

  /** What it adds to the roles: one per delegated service that has none by that name. */
  ghost predicate RolesDelegated(before: Rbac, after: Rbac) {
    && (forall svc :: svc in {"kuma", "jinbe", "fleet"} && svc in before.services ==>
         "org_admin" in RolesOf(after, svc))
    && (forall svc, role :: role in RolesOf(before, svc) ==>
         role in RolesOf(after, svc) && RolesOf(after, svc)[role] == RolesOf(before, svc)[role])
    && (forall svc, role :: role in RolesOf(after, svc) && role !in RolesOf(before, svc) ==>
         role == "org_admin" && "*" !in RolesOf(after, svc)[role])
  }

  lemma UpsertedDelegates(r: Rbac, b: Build, now: int)
    ensures GroupsDelegated(r.groups, Upserted(r, b, now).groups, r.services)
    ensures RolesDelegated(r, Upserted(r, b, now))
  {
    var t := Tagged(WithBuiltInRoutes(WithBuiltInRules(r, b), b), now);
    DelegationPromise(t);
    DelegationSpelledOut(t);
    assert forall svc :: RolesOf(t, svc) == RolesOf(r, svc);
  }

  lemma DelegationSpelledOut(t: Rbac)
    ensures GroupsDelegated(t.groups, SeededDelegation(t).groups, t.services)
    ensures RolesDelegated(t, SeededDelegation(t))
  {
    var s := SeededDelegation(t);
    DelegationPromise(t);
    forall svc | svc in {"kuma", "jinbe", "fleet"} && svc in t.services
      ensures svc + "-viewer" in s.groups && svc + "-admin" in s.groups && "org_admin" in RolesOf(s, svc)
    {
      assert svc in DELEGATED_SERVICES && HasDelegation(s, svc);
    }
    forall g | g in s.groups && g !in t.groups ensures DelegationGroup(t.services, g, s.groups[g]) {
      if g in DelegatedAll(t, DELEGATED_SERVICES).groups {
        DelegatedAllGroups(t, DELEGATED_SERVICES, g);
      }
    }
    forall svc ensures "*" !in OrgAdminPerms(RolesOf(t, svc)) {
      OrgAdminIsBounded(RolesOf(t, svc));
    }
  }

  /**
   After a run with work every delegated service that exists has its administrator role and its two groups, each
   bound to that service alone if the run made it; on an upgrade or drift no role and no group that was there changes.
   */
  lemma DelegationInPlace(i: Install, b: Build, now: int)
    requires HasWork(i.marker, b)
    ensures var after := Run(i, b, now).rbac;
            && after.services == Base(i, b).services
            && GroupsDelegated(Base(i, b).groups, after.groups, after.services)
            && RolesDelegated(Base(i, b), after)
    ensures i.marker.Some? ==> Base(i, b) == i.rbac
  {
    RunUpserts(i, b, now);
    UpsertedTables(Base(i, b), b, now);
    UpsertedDelegates(Base(i, b), b, now);
  }

  /** And everything of the system is protected. */
  lemma TagsInPlace(i: Install, b: Build, now: int)
    requires HasWork(i.marker, b)
    ensures Protected(Run(i, b, now).rbac)
  {
    RunUpserts(i, b, now);
    UpsertedIsSettled(Base(i, b), b, now);
    CurrentIsProtected(Run(i, b, now).rbac);
  }

  lemma CurrentIsProtected(r: Rbac)
    requires TagsCurrent(r)
    ensures Protected(r)
  {
  }

  // ── The first run ─────────────────────────────────────────────────────────

  /** The first administrators, what their role may do, and who else there is. */
  ghost predicate DoorOpen(r: Rbac) {
    && "super_admins" in r.groups && "global" in r.groups["super_admins"]
    && r.groups["super_admins"]["global"] == ["super_admin"]
    && "super_admin" in RolesOf(r, "global") && RolesOf(r, "global")["super_admin"] == ["*"]
    && "users" in r.groups && r.groups["users"] == map[]
    && {"jinbe", "global"} <= r.services
  }

  ghost predicate KumaOpen(r: Rbac) {
    && "kuma" in r.services && "super_admins" in r.groups
    && "kuma" in r.groups["super_admins"] && r.groups["super_admins"]["kuma"] == ["admin"]
    && "admin" in RolesOf(r, "kuma") && RolesOf(r, "kuma")["admin"] == ["*"]
  }

  /**
   A first run on a store without groups: `super_admins` binds `super_admin` globally, and that role may do
   anything; the control plane and, with an app configured, `kuma` are registered.
   */
  lemma FirstRunOpensTheDoor(i: Install, b: Build, now: int)
    requires i.marker.None? && i.rbac.groups == map[]
    ensures var after := Run(i, b, now).rbac;
            && DoorOpen(after) && i.rbac.services <= after.services
            && (b.hasApp ==> "kuma" in after.services)
            && (b.hasApp && "kuma" !in i.rbac.services ==> KumaOpen(after))
  {
    BaseOpens(i, b);
    DelegationInPlace(i, b, now);
    DoorStaysOpen(Base(i, b), Run(i, b, now).rbac);
  }

  lemma BaseOpens(i: Install, b: Build)
    requires i.marker.None? && i.rbac.groups == map[]
    ensures var s := Base(i, b);
            && DoorOpen(s) && i.rbac.services <= s.services
            && (b.hasApp ==> "kuma" in s.services)
            && (b.hasApp && "kuma" !in i.rbac.services ==> KumaOpen(s))
  {
    FirstBase(i, b);
  }

  lemma DoorStaysOpen(r: Rbac, s: Rbac)
    requires r.services == s.services && GroupsDelegated(r.groups, s.groups, s.services) && RolesDelegated(r, s)
    ensures DoorOpen(r) ==> DoorOpen(s)
    ensures KumaOpen(r) ==> KumaOpen(s)
  {
  }

  /** The route map of `kuma` is there, empty if it is new. */
  lemma FirstRunMapsKuma(i: Install, b: Build, now: int)
    requires i.marker.None? && b.hasApp
    ensures "kuma" in Run(i, b, now).rbac.routeMaps
  {
    RunTables(i, b, now);
    BaseTables(i, b);
    MergedElsewhere(Base(i, b).routeMaps, b.routes, "kuma");
  }

  /** What the seeders alone leave. */
  lemma FirstBase(i: Install, b: Build)
    requires i.marker.None? && i.rbac.groups == map[]
    ensures var s := Base(i, b);
            && s.groups == map["super_admins" := if b.hasApp && "kuma" !in i.rbac.services
                                                 then map["global" := ["super_admin"], "kuma" := ["admin"]]
                                                 else map["global" := ["super_admin"]],
                               "users" := map[]]
            && RolesOf(s, "global") == map["super_admin" := ["*"], "admin" := ["*"]]
            && s.services == i.rbac.services + {"jinbe", "global"} + (if b.hasApp then {"kuma"} else {})
            && (b.hasApp && "kuma" !in i.rbac.services ==>
                 RolesOf(s, "kuma") == map["admin" := ["*"], "viewer" := ["read"]])
  {
    FirstDefaults(i.rbac);
    if b.hasApp {
      KumaBinds(SeededDefaults(i.rbac));
    }
  }

  lemma FirstDefaults(r: Rbac)
    requires r.groups == map[]
    ensures var s := SeededDefaults(r);
            && s.groups == map["super_admins" := map["global" := ["super_admin"]], "users" := map[]]
            && RolesOf(s, "global") == map["super_admin" := ["*"], "admin" := ["*"]]
            && s.services == r.services + {"jinbe", "global"}
  {
  }

  lemma KumaBinds(r: Rbac)
    requires r.groups == map["super_admins" := map["global" := ["super_admin"]], "users" := map[]]
    ensures var s := SeededKuma(r);
            && s.services == r.services + {"kuma"}
            && RolesOf(s, "global") == RolesOf(r, "global")
            && ("kuma" !in r.services ==>
                 && s.groups == map["super_admins" := map["global" := ["super_admin"], "kuma" := ["admin"]],
                                    "users" := map[]]
                 && RolesOf(s, "kuma") == map["admin" := ["*"], "viewer" := ["read"]])
            && ("kuma" in r.services ==> s.groups == r.groups)
  {
    KumaServiceBinds(r);
  }

  lemma KumaServiceBinds(r: Rbac)
    requires r.groups == map["super_admins" := map["global" := ["super_admin"]], "users" := map[]]
    ensures var s := WithKumaService(r);
            && s.services == r.services + {"kuma"}
            && RolesOf(s, "global") == RolesOf(r, "global")
            && ("kuma" !in r.services ==>
                 && s.groups == map["super_admins" := map["global" := ["super_admin"], "kuma" := ["admin"]],
                                    "users" := map[]]
                 && RolesOf(s, "kuma") == map["admin" := ["*"], "viewer" := ["read"]])
            && ("kuma" in r.services ==> s.groups == r.groups)
  {
    if "kuma" !in r.services {
      var g1 := WithKuma(r.groups, "super_admins", "admin");
      assert g1 == map["super_admins" := map["global" := ["super_admin"], "kuma" := ["admin"]], "users" := map[]];
      assert "admins" !in g1 && "viewers" !in g1;
    }
  }

  /** The point of it: after such a run a member of `super_admins` may do anything in any application. */
  lemma SuperAdminsMayDoAnything(i: Install, b: Build, now: int, gs: seq<string>, app: string)
    requires i.marker.None? && i.rbac.groups == map[] && "super_admins" in gs
    ensures var after := Run(i, b, now).rbac; V.May(gs, after.groups, after.roles, app, "*")
  {
    FirstRunOpensTheDoor(i, b, now);
    var after := Run(i, b, now).rbac;
    assert "super_admin" in V.Bound(after.groups, "super_admins", P.GLOBAL);
    assert V.HasRole(gs, after.groups, app, "super_admin");
    assert "*" in P.Perms(after.roles, P.GLOBAL, "super_admin");
    assert V.RoleGives(after.roles, app, "super_admin", "*");
  }

  /**
   The control plane's own roles: only `admin` holds the wildcard, viewers read databases, editors change them too,
   operators also run clusters.
   */
  ghost predicate OwnRoles(r: RoleMap) {
    && {"admin", "operator", "editor", "viewer"} <= r.Keys
    && (forall role :: role in r ==> ("*" in r[role] <==> role == "admin"))
    && r["viewer"] == ["databases:list", "databases:read"]
    && r["editor"] == r["viewer"] + ["databases:create", "databases:update", "databases:delete"]
    && r["operator"]
         == ["clusters:list", "clusters:read", "clusters:create", "clusters:update", "clusters:delete"] + r["editor"]
  }

  /** After such a run the control plane has these roles, and the administrator role delegation adds. */
  lemma ControlPlaneRoles(i: Install, b: Build, now: int)
    requires i.marker.None? && i.rbac.groups == map[]
    ensures OwnRoles(RolesOf(Run(i, b, now).rbac, "jinbe"))
    ensures RolesOf(Run(i, b, now).rbac, "jinbe").Keys == {"admin", "operator", "editor", "viewer", "org_admin"}
  {
    FirstOwnRoles(i, b);
    JinbeRolesFit();
    BaseOpens(i, b);
    DelegationInPlace(i, b, now);
    OwnRolesStay(Base(i, b), Run(i, b, now).rbac);
  }

  lemma JinbeRolesFit()
    ensures OwnRoles(JINBE_ROLES) && JINBE_ROLES.Keys == {"admin", "operator", "editor", "viewer"}
  {
    var r := JINBE_ROLES;
    assert |"*"| == 1;
    assert "*" !in r["viewer"] by {
      assert forall p :: p in r["viewer"] ==> |p| > 1;
    }
    assert "*" !in r["editor"] by {
      assert forall p :: p in r["editor"] ==> |p| > 1;
    }
    assert "*" !in r["operator"] by {
      assert forall p :: p in r["operator"] ==> |p| > 1;
    }
  }

  lemma OwnRolesStay(r: Rbac, s: Rbac)
    requires "jinbe" in r.services && RolesDelegated(r, s)
    requires OwnRoles(RolesOf(r, "jinbe"))
    ensures OwnRoles(RolesOf(s, "jinbe"))
    ensures RolesOf(s, "jinbe").Keys == RolesOf(r, "jinbe").Keys + {"org_admin"}
  {
  }

  lemma FirstOwnRoles(i: Install, b: Build)
    requires i.marker.None? && i.rbac.groups == map[]
    ensures RolesOf(Base(i, b), "jinbe") == JINBE_ROLES
  {
    OwnDefaults(i.rbac);
    if b.hasApp {
      KumaKeepsRoles(SeededDefaults(i.rbac), "jinbe");
    }
  }

  lemma OwnDefaults(r: Rbac)
    requires r.groups == map[]
    ensures RolesOf(SeededDefaults(r), "jinbe") == JINBE_ROLES
  {
  }

  lemma KumaKeepsRoles(r: Rbac, svc: string)
    requires svc != "kuma"
    ensures RolesOf(SeededKuma(r), svc) == RolesOf(r, svc)
  {
    KumaServiceKeepsRoles(r, svc);
  }

  lemma KumaServiceKeepsRoles(r: Rbac, svc: string)
    requires svc != "kuma"
    ensures RolesOf(WithKumaService(r), svc) == RolesOf(r, svc)
  {
  }

  /** The role of the new `kuma` service that a group there before a first run gets. */
  function KumaRole(g: string): Option<string> {
    if g == "super_admins" || g == "admins" then Some("admin") else if g == "viewers" then Some("viewer") else None
  }

  /**
   A first run on a store that has groups, say restored ones, keeps each of them, and gives those of administrators
   and viewers a role on `kuma` if it registers that service.
   */
  lemma FirstRunKeepsGroups(i: Install, b: Build, now: int, g: string)
    requires i.marker.None? && g in i.rbac.groups
    ensures var before, after := i.rbac.groups[g], Run(i, b, now).rbac.groups;
            && g in after
            && after[g] == if b.hasApp && "kuma" !in i.rbac.services && KumaRole(g).Some?
                           then before["kuma" := [KumaRole(g).value]] else before
  {
    DelegationInPlace(i, b, now);
    BaseKeepsGroup(i, b, g);
  }

  lemma BaseKeepsGroup(i: Install, b: Build, g: string)
    requires i.marker.None? && g in i.rbac.groups
    ensures var before, after := i.rbac.groups[g], Base(i, b).groups;
            && g in after
            && after[g] == if b.hasApp && "kuma" !in i.rbac.services && KumaRole(g).Some?
                           then before["kuma" := [KumaRole(g).value]] else before
  {
    assert SeededDefaults(i.rbac) == i.rbac;
    KumaServiceKeepsGroup(i.rbac, g);
  }

  lemma KumaServiceKeepsGroup(r: Rbac, g: string)
    requires g in r.groups
    ensures var after := WithKumaService(r).groups;
            && g in after
            && after[g] == if "kuma" !in r.services && KumaRole(g).Some?
                           then r.groups[g]["kuma" := [KumaRole(g).value]] else r.groups[g]
  {
    KumaInGroup(r.groups, g);
  }

  lemma KumaInGroup(groups: map<string, GroupDef>, g: string)
    requires g in groups
    ensures var after :=
              WithKuma(WithKuma(WithKuma(groups, "super_admins", "admin"), "admins", "admin"), "viewers", "viewer");
            g in after && after[g] == if KumaRole(g).Some? then groups[g]["kuma" := [KumaRole(g).value]] else groups[g]
  {
  }
}
