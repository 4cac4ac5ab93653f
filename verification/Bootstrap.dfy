/**
 The bootstrap: the seeders that write default RBAC data, the upserts and migrations re-run on upgrade or
 drift, the marker with its migration chain, and the decision which of them a start-up runs. One run at a
 time (the lock), and completed runs only.
 */
module Bootstrap {
  import opened Prelude
  import opened AccessRules
  import opened RbacStore
  import opened RouteMapMerge

  // ── Default data ──────────────────────────────────────────────────────────

  const JINBE_ROLES: RoleMap := map[
    "admin" := ["*"],
    "operator" := ["clusters:list", "clusters:read", "clusters:create", "clusters:update", "clusters:delete",
                   "databases:list", "databases:read", "databases:create", "databases:update", "databases:delete"],
    "editor" := ["databases:list", "databases:read", "databases:create", "databases:update", "databases:delete"],
    "viewer" := ["databases:list", "databases:read"]
  ]

  /** Skipped altogether if there is any group. */
  function SeededDefaults(r: Rbac): Rbac {
    if r.groups != map[] then r
    else r.(groups := map["super_admins" := map["global" := ["super_admin"]], "users" := map[]],
            roles := r.roles["global" := map["super_admin" := ["*"], "admin" := ["*"]]]["jinbe" := JINBE_ROLES],
            services := r.services + {"jinbe", "global"})
  }

  /** Give an existing group a binding on kuma. */
  function WithKuma(groups: map<string, GroupDef>, name: string, role: string): map<string, GroupDef> {
    if name in groups then groups[name := groups[name]["kuma" := [role]]] else groups
  }

  function WithKumaService(r: Rbac): Rbac {
    if "kuma" in r.services then r
    else r.(services := r.services + {"kuma"},
            roles := r.roles["kuma" := map["admin" := ["*"], "viewer" := ["read"]]],
            groups := WithKuma(WithKuma(WithKuma(r.groups, "super_admins", "admin"), "admins", "admin"), "viewers",
                "viewer"))
  }

  function WithKumaRoutes(r: Rbac): Rbac {
    if "kuma" in r.routeMaps then r else r.(routeMaps := r.routeMaps["kuma" := []])
  }

  function SeededKuma(r: Rbac): Rbac {
    WithKumaRoutes(WithKumaService(r))
  }

  // ── Built-in rules ────────────────────────────────────────────────────────

  function Ids(rules: seq<Rule>): set<string> {
    set r | r in rules :: r.id
  }

  function Custom(ids: set<string>): Rule -> bool {
    (r: Rule) => r.id !in ids
  }

  function UpsertedRules(rules: seq<Rule>, builtIn: seq<Rule>): seq<Rule> {
    builtIn + Filter(rules, Custom(Ids(builtIn)))
  }

  /** Custom rules survive in order, built-in ids are exactly the built-in rules, and doing it again changes nothing. */
  lemma UpsertPromise(rules: seq<Rule>, builtIn: seq<Rule>)
    ensures var merged := UpsertedRules(rules, builtIn);
            && Filter(merged, Custom(Ids(builtIn))) == Filter(rules, Custom(Ids(builtIn)))
            && (forall r :: r in merged && r.id in Ids(builtIn) ==> r in builtIn)
            && UpsertedRules(merged, builtIn) == merged
  {
    var custom := Custom(Ids(builtIn));
    FilterAppend(builtIn, Filter(rules, custom), custom);
    HasNone(Filter(builtIn, custom));
    FilterKeepsAll(Filter(rules, custom), custom);
  }

  // ── System tags ───────────────────────────────────────────────────────────

  const SYSTEM_GROUPS: seq<string> := ["super_admins", "admins", "devs", "viewers", "users"]
  const SYSTEM_SERVICES: seq<string> :=
    ["jinbe", "kuma", "auth", "local-auth", "login_page", "hydra-oauth2-public", "kratos", "oathkeeper", "hydra",
        "kratos-login-ui"]

  function TaggedMeta(existing: Option<Meta>, description: string, now: int): Meta {
    match existing
    case None => Meta(true, Some(description), None, Some(now), Some(now))
    case Some(m) => m.(system := true, description := Some(m.description.GetOr(description)),
                       createdAt := Some(m.createdAt.GetOr(now)), updatedAt := Some(now))
  }

  function Tag(meta: map<string, Meta>, name: string, present: set<string>, describe: string -> string,
      now: int): map<string, Meta> {
    if name !in present || (name in meta && meta[name].system) then meta
    else meta[name := TaggedMeta(if name in meta then Some(meta[name]) else None, describe(name), now)]
  }

  function TagAll(meta: map<string, Meta>, names: seq<string>, present: set<string>, describe: string -> string,
      now: int)
    : map<string, Meta>
  {
    if names == [] then meta
    else
      var n := |names| - 1;
      Tag(TagAll(meta, names[..n], present, describe, now), names[n], present, describe, now)
  }

  /**
   What tagging promises: every listed name that exists is system, nothing else changes, and what was set before
   stays.
   */
  lemma {:induction false} TagAllPromise(meta: map<string, Meta>, names: seq<string>, present: set<string>,
      describe: string -> string, now: int)
    ensures var after := TagAll(meta, names, present, describe, now);
            && meta.Keys <= after.Keys
            && (forall n :: n in names && n in present ==> n in after && after[n].system)
            && (forall n :: n in meta && (meta[n].system || n !in names || n !in present) ==> after[n] == meta[n])
            && (forall n :: n in after && n !in meta ==> n in names && n in present)
            && (forall n :: n in meta ==> && (meta[n].description.Some? ==> after[n].description == meta[n].description)
                                          && (meta[n].createdAt.Some? ==> after[n].createdAt == meta[n].createdAt)
                                          && after[n].createdBy == meta[n].createdBy)
            && (forall n :: n in after && n !in meta ==> after[n].createdAt == Some(now) && after[n].createdBy.None?)
            && (forall n :: n in after && (n !in meta || after[n] != meta[n]) ==>
                 after[n].system && after[n].updatedAt == Some(now) && after[n].description.Some?)
  {
    if names != [] {
      var n := |names| - 1;
      TagAllPromise(meta, names[..n], present, describe, now);
      assert names == names[..n] + [names[n]];
    }
  }

  lemma {:induction false} TagAllNothing(meta: map<string, Meta>, names: seq<string>, present: set<string>,
      describe: string -> string, now: int)
    requires forall n :: n in names && n in present ==> n in meta && meta[n].system
    ensures TagAll(meta, names, present, describe, now) == meta
  {
    if names != [] {
      TagAllNothing(meta, names[..|names| - 1], present, describe, now);
    }
  }

  /** How the tagged resources are described; the wording does not matter here. */
  function Description(name: string): string {
    "system:" + name
  }

  function Tagged(r: Rbac, now: int): Rbac {
    r.(groupMeta := TagAll(r.groupMeta, SYSTEM_GROUPS, r.groups.Keys, Description, now),
       serviceMeta := TagAll(r.serviceMeta, SYSTEM_SERVICES, r.services, Description, now))
  }

  /** All protected resources that exist are tagged. */
  predicate TagsCurrent(r: Rbac) {
    && (forall n :: n in SYSTEM_GROUPS && n in r.groups ==> n in r.groupMeta && r.groupMeta[n].system)
    && (forall n :: n in SYSTEM_SERVICES && n in r.services ==> n in r.serviceMeta && r.serviceMeta[n].system)
  }

  lemma TaggedIsCurrent(r: Rbac, now: int)
    ensures TagsCurrent(Tagged(r, now))
  {
    TagAllPromise(r.groupMeta, SYSTEM_GROUPS, r.groups.Keys, Description, now);
    TagAllPromise(r.serviceMeta, SYSTEM_SERVICES, r.services, Description, now);
  }

  lemma CurrentNeedsNoTags(r: Rbac, now: int)
    requires TagsCurrent(r)
    ensures Tagged(r, now) == r
  {
    TagAllNothing(r.groupMeta, SYSTEM_GROUPS, r.groups.Keys, Description, now);
    TagAllNothing(r.serviceMeta, SYSTEM_SERVICES, r.services, Description, now);
  }

  // ── Delegation ────────────────────────────────────────────────────────────

  const DELEGATED_SERVICES: seq<string> := ["kuma", "jinbe", "fleet"]
  const ORG_ADMIN_USER_PERMS: seq<string> := ["org:manage_users", "users:read", "users:create", "users:assign_group"]
  const STAR: string := "*"
  const ORG_ADMIN: string := "org_admin"
  const PLATFORM_ADMINS: string := "platform-admins"

  predicate NotStar(p: string) { p != STAR }

  /** User management plus what a viewer may do, never the wildcard. */
  function OrgAdminPerms(roles: RoleMap): seq<string> {
    Dedup(ORG_ADMIN_USER_PERMS + Filter(if "viewer" in roles then roles["viewer"] else [], NotStar))
  }

  function RolesOf(r: Rbac, svc: string): RoleMap {
    if svc in r.roles then r.roles[svc] else map[]
  }

  function Ensured(groups: map<string, GroupDef>, name: string, def: GroupDef): map<string, GroupDef> {
    if name in groups then groups else groups[name := def]
  }

  function Delegated(r: Rbac, svc: string): Rbac {
    if svc !in r.services then r
    else
      WithOrgAdmin(WithGroup(WithGroup(r, svc + "-viewer", map[svc := ["viewer"]]), svc
          + "-admin", map[svc := ["admin"]]), svc)
  }

  function WithOrgAdmin(r: Rbac, svc: string): Rbac {
    var roles := RolesOf(r, svc);
    if ORG_ADMIN in roles then r else r.(roles := r.roles[svc := roles[ORG_ADMIN := OrgAdminPerms(roles)]])
  }

  function WithGroup(r: Rbac, name: string, def: GroupDef): Rbac {
    r.(groups := Ensured(r.groups, name, def))
  }

  function DelegatedAll(r: Rbac, svcs: seq<string>): Rbac {
    if svcs == [] then r else Delegated(DelegatedAll(r, svcs[..|svcs| - 1]), svcs[|svcs| - 1])
  }

  function WithSystemGroup(r: Rbac, name: string, def: GroupDef, meta: Meta): Rbac {
    if name in r.groups then r
    else r.(groups := r.groups[name := def], groupMeta := r.groupMeta[name := meta])
  }

  function WithPlatformAdmins(r: Rbac): Rbac {
    WithSystemGroup(r, PLATFORM_ADMINS, map["global" := ["admin"]],
                    Meta(true, Some("Global admin (all services). Assigned by super_admins only."), None, None, None))
  }

  function SeededDelegation(r: Rbac): Rbac {
    WithPlatformAdmins(DelegatedAll(r, DELEGATED_SERVICES))
  }

  /** Has this service all that delegation gives it? */
  predicate HasDelegation(r: Rbac, svc: string) {
    svc in r.services ==>
      ORG_ADMIN in RolesOf(r, svc) && svc + "-viewer" in r.groups && svc + "-admin" in r.groups
  }

  /** Nothing that was there is changed or removed; only groups with a hyphen in their name are new. */
  ghost predicate Extends(r: Rbac, s: Rbac) {
    && s.services == r.services && s.routeMaps == r.routeMaps && s.rules == r.rules && s.orgs == r.orgs
    && s.serviceMeta == r.serviceMeta
    && (forall g :: g in r.groups ==> g in s.groups && s.groups[g] == r.groups[g])
    && (forall g :: g in s.groups && g !in r.groups ==> '-' in g)
    && (forall svc, role :: role in RolesOf(r, svc) ==>
         role in RolesOf(s, svc) && RolesOf(s, svc)[role] == RolesOf(r, svc)[role])
    && (forall svc, role :: role in RolesOf(s, svc) && role !in RolesOf(r, svc) ==>
          role == ORG_ADMIN && RolesOf(s, svc)[role] == OrgAdminPerms(RolesOf(r, svc)))
    && (forall g :: g in r.groupMeta && g in r.groups ==> g in s.groupMeta && s.groupMeta[g] == r.groupMeta[g])
  }

  lemma WithGroupExtends(r: Rbac, name: string, def: GroupDef)
    requires '-' in name
    ensures Extends(r, WithGroup(r, name, def))
  {
    assert forall svc :: RolesOf(WithGroup(r, name, def), svc) == RolesOf(r, svc);
  }

  lemma OneRoleMore(r: Rbac, s: Rbac, svc: string, perms: seq<string>)
    requires ORG_ADMIN !in RolesOf(r, svc) && s == r.(roles := r.roles[svc := RolesOf(r, svc)[ORG_ADMIN := perms]])
    ensures forall x, role :: role in RolesOf(r, x) ==>
            role in RolesOf(s, x) && RolesOf(s, x)[role] == RolesOf(r, x)[role]
    ensures forall x, role :: role in RolesOf(s, x) && role !in RolesOf(r, x) ==>
              x == svc && role == ORG_ADMIN && RolesOf(s, x)[role] == perms
    ensures ORG_ADMIN in RolesOf(s, svc)
  {
    assert forall x :: x != svc ==> RolesOf(s, x) == RolesOf(r, x);
    assert RolesOf(s, svc) == RolesOf(r, svc)[ORG_ADMIN := perms];
  }

  lemma WithOrgAdminExtends(r: Rbac, svc: string)
    ensures Extends(r, WithOrgAdmin(r, svc)) && ORG_ADMIN in RolesOf(WithOrgAdmin(r, svc), svc)
    ensures WithOrgAdmin(r, svc).groups == r.groups
  {
    if ORG_ADMIN !in RolesOf(r, svc) {
      OneRoleMore(r, WithOrgAdmin(r, svc), svc, OrgAdminPerms(RolesOf(r, svc)));
    }
  }

  lemma WithSystemGroupExtends(r: Rbac, name: string, def: GroupDef, meta: Meta)
    requires '-' in name
    ensures Extends(r, WithSystemGroup(r, name, def, meta))
    ensures forall svc :: RolesOf(WithSystemGroup(r, name, def, meta), svc) == RolesOf(r, svc)
  {
    assert forall svc :: RolesOf(WithSystemGroup(r, name, def, meta), svc) == RolesOf(r, svc);
  }

  /** The order in which a service's role and groups are added does not matter. */
  lemma DelegatedExtends(r: Rbac, svc: string)
    ensures Extends(r, Delegated(r, svc)) && HasDelegation(Delegated(r, svc), svc)
  {
    var viewer, admin := svc + "-viewer", svc + "-admin";
    assert viewer[|svc|] == '-' && admin[|svc|] == '-';
    DelegatedAsExtends(r, svc, viewer, admin, map[svc := ["viewer"]], map[svc := ["admin"]]);
  }

  lemma DelegatedAsExtends(r: Rbac, svc: string, viewer: string, admin: string, v: GroupDef, a: GroupDef)
    requires '-' in viewer && '-' in admin
    ensures var s := WithOrgAdmin(WithGroup(WithGroup(r, viewer, v), admin, a), svc);
            Extends(r, s) && ORG_ADMIN in RolesOf(s, svc) && viewer in s.groups && admin in s.groups
  {
    var s1 := WithGroup(r, viewer, v);
    var s2 := WithGroup(s1, admin, a);
    WithGroupExtends(r, viewer, v);
    WithGroupExtends(s1, admin, a);
    WithOrgAdminExtends(s2, svc);
    assert forall x :: RolesOf(s2, x) == RolesOf(r, x);
    ExtendsChain(r, s1, s2);
    ExtendsChain(r, s2, WithOrgAdmin(s2, svc));
  }

  lemma ExtendsKeepsDelegation(r: Rbac, s: Rbac, svc: string)
    requires Extends(r, s) && HasDelegation(r, svc)
    ensures HasDelegation(s, svc)
  {
  }

  lemma HasDelegationIsFixed(r: Rbac, svc: string)
    requires HasDelegation(r, svc)
    ensures Delegated(r, svc) == r
  {
  }

  lemma {:induction false} DelegatedAllFixed(r: Rbac, svcs: seq<string>)
    requires forall svc :: svc in svcs ==> HasDelegation(r, svc)
    ensures DelegatedAll(r, svcs) == r
  {
    if svcs != [] {
      DelegatedAllFixed(r, svcs[..|svcs| - 1]);
      HasDelegationIsFixed(r, svcs[|svcs| - 1]);
    }
  }

  /** Additions to one service never look at another's, so what is added stays what the first state asked for. */
  lemma ExtendsChain(r: Rbac, s: Rbac, t: Rbac)
    requires Extends(r, s) && Extends(s, t)
    requires forall svc, role :: role in RolesOf(t, svc) && role !in RolesOf(s, svc) ==>
               OrgAdminPerms(RolesOf(s, svc)) == OrgAdminPerms(RolesOf(r, svc))
    ensures Extends(r, t)
  {
    forall g | g in t.groups && g !in r.groups ensures '-' in g {
      if g in s.groups {
        assert '-' in g;
      }
    }
    forall svc, role | role in RolesOf(t, svc) && role !in RolesOf(r, svc)
      ensures role == ORG_ADMIN && RolesOf(t, svc)[role] == OrgAdminPerms(RolesOf(r, svc))
    {
      if role in RolesOf(s, svc) {
        assert RolesOf(t, svc)[role] == RolesOf(s, svc)[role];
      }
    }
  }

  /** The viewer role, on which the permissions of a new org_admin depend, is never new itself. */
  lemma SamePermsAfter(r: Rbac, s: Rbac, svc: string)
    requires Extends(r, s)
    ensures OrgAdminPerms(RolesOf(s, svc)) == OrgAdminPerms(RolesOf(r, svc))
  {
    assert "viewer" != ORG_ADMIN;
  }

  lemma {:induction false} DelegatedAllExtends(r: Rbac, svcs: seq<string>)
    ensures Extends(r, DelegatedAll(r, svcs))
    ensures forall svc :: svc in svcs ==> HasDelegation(DelegatedAll(r, svcs), svc)
  {
    if svcs != [] {
      var n := |svcs| - 1;
      var s := DelegatedAll(r, svcs[..n]);
      DelegatedAllExtends(r, svcs[..n]);
      DelegatedExtends(s, svcs[n]);
      forall svc ensures OrgAdminPerms(RolesOf(s, svc)) == OrgAdminPerms(RolesOf(r, svc)) {
        SamePermsAfter(r, s, svc);
      }
      ExtendsChain(r, s, Delegated(s, svcs[n]));
      forall svc | svc in svcs ensures HasDelegation(DelegatedAll(r, svcs), svc) {
        if svc in svcs[..n] {
          ExtendsKeepsDelegation(s, Delegated(s, svcs[n]), svc);
        }
      }
    }
  }

  lemma PlatformAdminsExtends(r: Rbac)
    ensures Extends(r, WithPlatformAdmins(r))
    ensures forall svc :: RolesOf(WithPlatformAdmins(r), svc) == RolesOf(r, svc)
  {
    assert PLATFORM_ADMINS[8] == '-';
    WithSystemGroupExtends(r, PLATFORM_ADMINS, map["global" := ["admin"]],
                           Meta(true, Some("Global admin (all services). Assigned by super_admins only."), None, None,
                               None));
  }

  /** The delegation seed is additive, complete for every delegated service that exists, and idempotent. */
  lemma DelegationPromise(r: Rbac)
    ensures var s := SeededDelegation(r);
            && Extends(r, s) && SeededDelegation(s) == s
            && PLATFORM_ADMINS in s.groups
            && forall svc :: svc in DELEGATED_SERVICES ==> HasDelegation(s, svc)
  {
    var s := DelegatedAll(r, DELEGATED_SERVICES);
    var t := WithPlatformAdmins(s);
    DelegatedAllExtends(r, DELEGATED_SERVICES);
    PlatformAdminsExtends(s);
    assert forall svc :: RolesOf(t, svc) == RolesOf(s, svc);
    ExtendsChain(r, s, t);
    forall svc | svc in DELEGATED_SERVICES ensures HasDelegation(t, svc) {
      ExtendsKeepsDelegation(s, t, svc);
    }
    DelegatedAllFixed(t, DELEGATED_SERVICES);
  }

  /** A seeded org_admin role manages users, may do what a viewer may, and never holds the wildcard. */
  lemma OrgAdminIsBounded(roles: RoleMap)
    ensures STAR !in OrgAdminPerms(roles)
    ensures forall p :: p in ORG_ADMIN_USER_PERMS ==> p in OrgAdminPerms(roles)
    ensures "viewer" in roles ==> forall p :: p in roles["viewer"] && p != STAR ==> p in OrgAdminPerms(roles)
  {
    assert STAR !in ORG_ADMIN_USER_PERMS by {
      assert |STAR| == 1;
      assert forall p :: p in ORG_ADMIN_USER_PERMS ==> |p| > 1;
    }
  }

  // ── Marker ────────────────────────────────────────────────────────────────

  datatype Migration = Migration(from: Option<nat>, to: nat, appliedAt: int, gitSha: string)

  datatype Marker = Marker(
    version: string, schemaVersion: nat, gitSha: string, bootstrappedAt: int, lastUpgradeAt: int,
    previousSchemaVersion: Option<nat>, migrations: seq<Migration>, rulesHash: string, routesHash: string)

  /** What one version of the code brings along, and how it is configured. */
  datatype Build = Build(
    version: string, schemaVersion: nat, gitSha: string, rules: seq<Rule>, routes: seq<RouteRule>,
    rulesHash: string, routesHash: string, hasApp: bool)

  function BuiltMarker(previous: Option<Marker>, b: Build, now: int): Marker {
    var from := if previous.Some? then Some(previous.value.schemaVersion) else None;
    var migrations := if previous.Some? then previous.value.migrations else [];
    Marker(b.version, b.schemaVersion, b.gitSha,
           if previous.Some? then previous.value.bootstrappedAt else now, now, from,
           if previous.None? || previous.value.schemaVersion < b.schemaVersion
           then migrations + [Migration(from, b.schemaVersion, now, b.gitSha)] else migrations,
           b.rulesHash, b.routesHash)
  }

  // ── The decision ──────────────────────────────────────────────────────────

  datatype Outcome = FirstRun | NoOp | BuiltinsDrift | SchemaUpgrade | SchemaDowngrade | LockHeld

  datatype Install = Install(marker: Option<Marker>, rbac: Rbac)

  function OutcomeOf(marker: Option<Marker>, b: Build): Outcome {
    if marker.None? then FirstRun
    else if marker.value.schemaVersion > b.schemaVersion then SchemaDowngrade
    else if marker.value.schemaVersion < b.schemaVersion then SchemaUpgrade
    else if marker.value.rulesHash != b.rulesHash || marker.value.routesHash != b.routesHash then BuiltinsDrift
    else NoOp
  }

  function Upserted(r: Rbac, b: Build, now: int): Rbac {
    SeededDelegation(Tagged(WithBuiltInRoutes(WithBuiltInRules(r, b), b), now))
  }

  function WithBuiltInRules(r: Rbac, b: Build): Rbac {
    r.(rules := UpsertedRules(r.rules, b.rules))
  }

  function WithBuiltInRoutes(r: Rbac, b: Build): Rbac {
    r.(routeMaps := MergedInto(r.routeMaps, b.routes))
  }

  function FullySeeded(r: Rbac, b: Build, now: int): Rbac {
    var seeded := SeededDefaults(r);
    Upserted(if b.hasApp then SeededKuma(seeded) else seeded, b, now)
  }

  /** What the outcome writes to the RBAC data. */
  function SeedsOf(o: Outcome, r: Rbac, b: Build, now: int): Rbac {
    match o
    case SchemaDowngrade => r
    case LockHeld => r
    case NoOp => Tagged(r, now)
    case FirstRun => FullySeeded(r, b, now)
    case BuiltinsDrift => Upserted(r, b, now)
    case SchemaUpgrade => Upserted(r, b, now)
  }

  function MarkerAfter(marker: Option<Marker>, b: Build, now: int): Option<Marker> {
    if OutcomeOf(marker, b) in {SchemaDowngrade, NoOp} then marker else Some(BuiltMarker(marker, b, now))
  }

  /** One completed, unforced run. */
  function Run(i: Install, b: Build, now: int): Install {
    Install(MarkerAfter(i.marker, b, now), SeedsOf(OutcomeOf(i.marker, b), i.rbac, b, now))
  }

  // ── Re-running is harmless ────────────────────────────────────────────────

  /** Extending by hyphenated groups leaves no protected group untagged. */
  lemma ExtendsKeepsTags(r: Rbac, s: Rbac)
    requires TagsCurrent(r) && Extends(r, s)
    ensures TagsCurrent(s)
  {
    forall n | n in SYSTEM_GROUPS && n in s.groups ensures n in s.groupMeta && s.groupMeta[n].system {
      NoHyphen(n);
    }
  }

  lemma NoHyphen(n: string)
    requires n in SYSTEM_GROUPS
    ensures '-' !in n
  {
  }

  lemma UpsertedIsSettled(r: Rbac, b: Build, now: int)
    ensures TagsCurrent(Upserted(r, b, now))
  {
    var t := Tagged(WithBuiltInRoutes(WithBuiltInRules(r, b), b), now);
    TaggedIsCurrent(WithBuiltInRoutes(WithBuiltInRules(r, b), b), now);
    DelegationPromise(t);
    ExtendsKeepsTags(t, SeededDelegation(t));
  }

  /** Running the upserts a second time, at any later time, changes nothing. */
  lemma UpsertedTwice(r: Rbac, b: Build, now: int, later: int)
    ensures Upserted(Upserted(r, b, now), b, later) == Upserted(r, b, now)
  {
    var t := Tagged(WithBuiltInRoutes(WithBuiltInRules(r, b), b), now);
    var s := Upserted(r, b, now);
    DelegationPromise(t);
    UpsertPromise(r.rules, b.rules);
    assert s.rules == t.rules == UpsertedRules(r.rules, b.rules);
    assert WithBuiltInRules(s, b) == s;
    MergedIntoIdempotent(r.routeMaps, b.routes);
    assert s.routeMaps == t.routeMaps == MergedInto(r.routeMaps, b.routes);
    assert WithBuiltInRoutes(s, b) == s;
    UpsertedIsSettled(r, b, now);
    CurrentNeedsNoTags(s, later);
  }

  lemma MarkerMatchesBuild(previous: Option<Marker>, b: Build, now: int)
    ensures OutcomeOf(Some(BuiltMarker(previous, b, now)), b) == NoOp
  {
  }

  lemma FixedWhenCurrent(i: Install, b: Build, later: int)
    requires OutcomeOf(i.marker, b) == NoOp && TagsCurrent(i.rbac)
    ensures Run(i, b, later) == i
  {
    CurrentNeedsNoTags(i.rbac, later);
  }

  lemma FullySeededIsSettled(r: Rbac, b: Build, now: int)
    ensures TagsCurrent(FullySeeded(r, b, now))
  {
    var seeded := SeededDefaults(r);
    UpsertedIsSettled(if b.hasApp then SeededKuma(seeded) else seeded, b, now);
  }

  /** A second run with the same build is a no-op that leaves marker and RBAC data exactly as they are. */
  lemma RepeatRunIsNoOp(i: Install, b: Build, now: int, later: int)
    ensures Run(Run(i, b, now), b, later) == Run(i, b, now)
    ensures OutcomeOf(i.marker, b) != SchemaDowngrade ==> OutcomeOf(Run(i, b, now).marker, b) == NoOp
  {
    var o := OutcomeOf(i.marker, b);
    if o != SchemaDowngrade {
      MarkerMatchesBuild(i.marker, b, now);
      TaggedIsCurrent(i.rbac, now);
      FullySeededIsSettled(i.rbac, b, now);
      UpsertedIsSettled(i.rbac, b, now);
      FixedWhenCurrent(Run(i, b, now), b, later);
    }
  }

  /** Should the marker be lost after a first run, the next first run finds everything in place. */
  lemma FirstRunTwice(r: Rbac, b: Build, now: int, later: int)
    ensures FullySeeded(FullySeeded(r, b, now), b, later) == FullySeeded(r, b, now)
  {
    var seeded := SeededDefaults(r);
    var base := if b.hasApp then SeededKuma(seeded) else seeded;
    UpsertedKeepsServices(base, b, now);
    KumaPresent(seeded);
    OnlyUpserts(Upserted(base, b, now), b, later);
    UpsertedTwice(base, b, now, later);
  }

  lemma KumaPresent(r: Rbac)
    ensures "kuma" in SeededKuma(r).services && "kuma" in SeededKuma(r).routeMaps
  {
  }

  lemma OnlyUpserts(s: Rbac, b: Build, later: int)
    requires s.groups != map[] && (b.hasApp ==> "kuma" in s.services && "kuma" in s.routeMaps)
    ensures FullySeeded(s, b, later) == Upserted(s, b, later)
  {
  }

  lemma UpsertedKeepsServices(r: Rbac, b: Build, now: int)
    ensures var s := Upserted(r, b, now);
            s.services == r.services && r.routeMaps.Keys <= s.routeMaps.Keys && s.groups != map[]
  {
    var t := Tagged(WithBuiltInRoutes(WithBuiltInRules(r, b), b), now);
    DelegationPromise(t);
  }

  // ── The migration chain ───────────────────────────────────────────────────

  /**
   Each migration starts where the one before ended, from nothing at first, and always upwards; the last ends at
   the recorded version.
   */
  predicate ChainOk(m: Marker) {
    && m.migrations != []
    && m.migrations[0].from.None?
    && (forall k :: 0 < k < |m.migrations| ==>
          m.migrations[k].from == Some(m.migrations[k - 1].to) && m.migrations[k - 1].to < m.migrations[k].to)
    && m.migrations[|m.migrations| - 1].to == m.schemaVersion
  }

  /** What a later marker keeps of an earlier one. */
  predicate Continues(m: Marker, m': Marker) {
    m'.bootstrappedAt == m.bootstrappedAt && m.schemaVersion <= m'.schemaVersion && m.migrations <= m'.migrations
  }

  lemma MarkerKeepsChain(marker: Option<Marker>, b: Build, now: int)
    requires marker.Some? ==> ChainOk(marker.value)
    ensures var after := MarkerAfter(marker, b, now);
            && after.Some? && ChainOk(after.value)
            && (marker.Some? ==> Continues(marker.value, after.value))
  {
  }

  datatype Start = Start(build: Build, now: int)

  function Runs(i: Install, starts: seq<Start>): Install {
    if starts == [] then i
        else Run(Runs(i, starts[..|starts| - 1]), starts[|starts| - 1].build, starts[|starts| - 1].now)
  }

  /**
   Over any sequence of runs by any versions of the code: the migrations form one rising chain from
   nothing to the recorded version, and, from any point on, the version never falls, recorded migrations
   stay, and the time of the first bootstrap never changes.
   */
  lemma {:induction false} MarkerHistory(rbac: Rbac, starts: seq<Start>, n: nat)
    requires 0 < n <= |starts|
    ensures var early, late := Runs(Install(None, rbac), starts[..n]).marker, Runs(Install(None, rbac), starts).marker;
            early.Some? && late.Some? && ChainOk(late.value) && Continues(early.value, late.value)
    decreases |starts|
  {
    MarkersOf(Install(None, rbac), starts);
    MarkersOf(Install(None, rbac), starts[..n]);
    MarkersContinue(starts, n);
  }

  function Markers(marker: Option<Marker>, starts: seq<Start>): Option<Marker> {
    if starts == [] then marker
    else MarkerAfter(Markers(marker, starts[..|starts| - 1]), starts[|starts| - 1].build, starts[|starts| - 1].now)
  }

  /** The marker's history does not depend on the RBAC data. */
  lemma {:induction false} MarkersOf(i: Install, starts: seq<Start>)
    ensures Runs(i, starts).marker == Markers(i.marker, starts)
  {
    if starts != [] {
      MarkersOf(i, starts[..|starts| - 1]);
    }
  }

  lemma {:induction false} MarkersContinue(starts: seq<Start>, n: nat)
    requires 0 < n <= |starts|
    ensures var early, late := Markers(None, starts[..n]), Markers(None, starts);
            early.Some? && late.Some? && ChainOk(late.value) && Continues(early.value, late.value)
  {
    var last := |starts| - 1;
    if last > 0 {
      MarkersContinue(starts[..last], if n == |starts| then last else n);
      assert n < |starts| ==> starts[..last][..n] == starts[..n];
    }
    MarkerKeepsChain(Markers(None, starts[..last]), starts[last].build, starts[last].now);
    if n == |starts| {
      assert starts[..n] == starts;
    }
  }
}
