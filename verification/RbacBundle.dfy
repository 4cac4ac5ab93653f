/**
 Export, import, compensation and rollback of the whole RBAC configuration. An import is a long,
 non-transactional sequence of Redis writes; any of them may fail.
 */
module RbacBundle {
  import opened Prelude
  import opened AccessRules
  import opened RbacStore

  /** Legacy bundles store one service name per org. */
  datatype OrgValue = Scalar(name: string) | Names(names: seq<string>)

  function NamesOf(v: OrgValue): seq<string> {
    match v case Scalar(n) => [n] case Names(ns) => ns
  }

  datatype Bundle = Bundle(
    services: seq<string>,
    groups: map<string, GroupDef>,
    roles: map<string, RoleMap>,
    routeMaps: map<string, seq<RouteRule>>,
    rules: seq<Rule>,
    orgs: map<string, OrgValue>)

  datatype Section = Services | Groups | Roles | RouteMaps | Rules | Orgs

  const ALL_SECTIONS: seq<Section> := [Services, Groups, Roles, RouteMaps, Rules, Orgs]

  /** An empty section list stands for "not given". */
  predicate Wants(sections: seq<Section>, s: Section) {
    sections == [] || s in sections
  }

  predicate IsFull(sections: seq<Section>) {
    sections == [] || |sections| >= |ALL_SECTIONS|
  }

  // ── What a completed apply leaves behind ──────────────────────────────────

  /** Registered services that a full restore prunes. */
  function Orphans(b: Bundle, sections: seq<Section>, services: set<string>): set<string> {
    if Wants(sections, Services) && IsFull(sections) then services - ToSet(b.services) else {}
  }

  function AppliedServices(b: Bundle, sections: seq<Section>, services: set<string>): set<string> {
    if Wants(sections, Services) then (services - Orphans(b, sections, services)) + ToSet(b.services) else services
  }

  function AppliedGroups(b: Bundle, sections: seq<Section>, groups: map<string, GroupDef>): map<string, GroupDef> {
    if !Wants(sections, Groups) then groups else if IsFull(sections) then b.groups else groups + b.groups
  }

  /** The roles written for a service the bundle has roles for: its own over the defaults. */
  function Overlay(service: string, r: RoleMap): RoleMap {
    if service == "global" then r else DefaultServiceRoles(service) + r
  }

  /** The roles key of `service` after the apply: what was written to it, or else what an unpruned key held. */
  function AppliedRole(b: Bundle, sections: seq<Section>, orphans: set<string>, service: string,
      was: Option<RoleMap>): Option<RoleMap> {
    if Wants(sections, Roles) && service in b.roles then Some(Overlay(service, b.roles[service]))
    else if Wants(sections, Roles) && Wants(sections, Services) && service in b.services
        then Some(DefaultServiceRoles(service))
    else if service in orphans then None
    else was
  }

  function AppliedRoles(b: Bundle, sections: seq<Section>, orphans: set<string>, roles: map<string,
      RoleMap>): map<string, RoleMap> {
    map svc | svc in roles.Keys + b.roles.Keys + ToSet(b.services)
        && AppliedRole(b, sections, orphans, svc, At(roles, svc)).Some? ::
      AppliedRole(b, sections, orphans, svc, At(roles, svc)).value
  }

  function AppliedRouteMaps(b: Bundle, sections: seq<Section>, orphans: set<string>, routeMaps: map<string,
      seq<RouteRule>>):
    map<string, seq<RouteRule>>
  {
    (routeMaps - orphans) + (if Wants(sections, RouteMaps) then b.routeMaps else map[])
  }

  function OrgsWritten(b: Bundle): map<string, seq<string>> {
    map org | org in b.orgs && OrgServices(NamesOf(b.orgs[org])) != [] :: OrgServices(NamesOf(b.orgs[org]))
  }

  function AppliedOrgs(b: Bundle, sections: seq<Section>, orgs: map<string, seq<string>>): map<string, seq<string>> {
    if Wants(sections, Orgs) then (orgs - b.orgs.Keys) + OrgsWritten(b) else orgs
  }

  /** The state after a completed apply of `b`, whatever the state `s` before it. */
  function Applied(b: Bundle, sections: seq<Section>, s: Rbac): Rbac {
    var orphans := Orphans(b, sections, s.services);
    s.(services := AppliedServices(b, sections, s.services),
       groups := AppliedGroups(b, sections, s.groups),
       roles := AppliedRoles(b, sections, orphans, s.roles),
       routeMaps := AppliedRouteMaps(b, sections, orphans, s.routeMaps),
       rules := if Wants(sections, Rules) then b.rules else s.rules,
       orgs := AppliedOrgs(b, sections, s.orgs))
  }

  function At<V>(m: map<string, V>, key: string): Option<V> {
    if key in m then Some(m[key]) else None
  }

  /** The bundle is a full export of `s`. The registry is read in no particular order. */
  ghost predicate IsSnapshot(b: Bundle, s: Rbac) {
    && Distinct(b.services) && ToSet(b.services) == s.services
    && b.groups == s.groups
    && b.roles == KeptFor(s.roles, s.services + {"global"})
    && b.routeMaps == KeptFor(s.routeMaps, s.services)
    && b.rules == s.rules
    && b.orgs == (map org | org in s.orgs :: Names(s.orgs[org]))
  }

  function KeptFor<V>(m: map<string, V>, names: set<string>): map<string, V> {
    map svc | svc in names && svc in m :: m[svc]
  }

  // ── A full restore ────────────────────────────────────────────────────────

  lemma RolesAt(b: Bundle, sections: seq<Section>, orphans: set<string>, roles: map<string, RoleMap>, svc: string)
    ensures At(AppliedRoles(b, sections, orphans, roles), svc) == AppliedRole(b, sections, orphans, svc, At(roles, svc))
  {
  }

  /**
   A full apply, from any state whatsoever: services, groups and rules are replaced 1:1, a service's
   roles are the defaults overlaid by the bundle's (`global` passes through), named route maps are
   overwritten, and what a pruned service had is gone unless the bundle names it.
   */
  lemma FullApplyFromAnyState(b: Bundle, s: Rbac)
    ensures var after := Applied(b, [], s);
            && after.services == ToSet(b.services)
            && after.groups == b.groups
            && after.rules == b.rules
            && (forall svc :: svc in b.roles ==>
                  At(after.roles, svc) == Some(if svc == "global" then b.roles[svc]
                      else DefaultServiceRoles(svc) + b.roles[svc]))
            && (forall svc :: svc in b.services && svc !in b.roles ==>
                 At(after.roles, svc) == Some(DefaultServiceRoles(svc)))
            && (forall svc :: svc in b.routeMaps ==> At(after.routeMaps, svc) == Some(b.routeMaps[svc]))
            && (forall svc :: svc in s.services && svc !in b.services ==>
                  (svc !in b.roles ==> svc !in after.roles) && (svc !in b.routeMaps ==> svc !in after.routeMaps))
  {
    var orphans := Orphans(b, [], s.services);
    assert AppliedServices(b, [], s.services) == ToSet(b.services);
    forall svc ensures At(Applied(b, [], s).roles, svc) == AppliedRole(b, [], orphans, svc, At(s.roles, svc)) {
      RolesAt(b, [], orphans, s.roles, svc);
    }
  }

  lemma RolesAgain(b: Bundle, sections: seq<Section>, orphans: set<string>, roles: map<string, RoleMap>)
    requires orphans !! ToSet(b.services)
    ensures AppliedRoles(b, sections, {}, AppliedRoles(b, sections, orphans, roles))
            == AppliedRoles(b, sections, orphans, roles)
  {
    var once := AppliedRoles(b, sections, orphans, roles);
    forall svc ensures AppliedRole(b, sections, {}, svc, At(once, svc)) == At(once, svc) {
      RolesAt(b, sections, orphans, roles, svc);
    }
    assert forall svc :: svc in once ==> svc in roles.Keys + b.roles.Keys + ToSet(b.services);
    var twice := AppliedRoles(b, sections, {}, once);
    forall svc ensures At(twice, svc) == At(once, svc) {
      RolesAt(b, sections, {}, once, svc);
    }
    SameEverywhere(twice, once);
  }

  lemma SameEverywhere<V>(m: map<string, V>, n: map<string, V>)
    requires forall key :: At(m, key) == At(n, key)
    ensures m == n
  {
    forall key ensures key in m <==> key in n {
      assert At(m, key) == At(n, key);
    }
    forall key | key in m ensures m[key] == n[key] {
      assert At(m, key) == At(n, key);
    }
  }

  lemma PlusAgain<K, V>(m: map<K, V>, w: map<K, V>)
    ensures (m + w) + w == m + w
  {
  }

  lemma ServicesAgain(b: Bundle, sections: seq<Section>, services: set<string>)
    ensures var once := AppliedServices(b, sections, services);
            Orphans(b, sections, once) == {} && AppliedServices(b, sections, once) == once
  {
  }

  lemma KeyedAgain(b: Bundle, sections: seq<Section>, orphans: set<string>, s: Rbac)
    ensures var once := AppliedRouteMaps(b, sections, orphans, s.routeMaps);
            AppliedRouteMaps(b, sections, {}, once) == once
    ensures var once := AppliedGroups(b, sections, s.groups);
            AppliedGroups(b, sections, once) == once
  {
    PlusAgain(s.routeMaps - orphans, if Wants(sections, RouteMaps) then b.routeMaps else map[]);
    PlusAgain(s.groups, b.groups);
    var once := AppliedRouteMaps(b, sections, orphans, s.routeMaps);
    assert once - {} == once;
  }

  lemma OrgsAgain(b: Bundle, sections: seq<Section>, orgs: map<string, seq<string>>)
    ensures var once := AppliedOrgs(b, sections, orgs);
            AppliedOrgs(b, sections, once) == once
  {
    var rest, written := orgs - b.orgs.Keys, OrgsWritten(b);
    assert written.Keys <= b.orgs.Keys;
    assert (rest + written) - b.orgs.Keys == rest;
  }

  /** Applying a bundle a second time, whole or in part, changes nothing. */
  lemma ApplyIdempotent(b: Bundle, sections: seq<Section>, s: Rbac)
    ensures Applied(b, sections, Applied(b, sections, s)) == Applied(b, sections, s)
  {
    var orphans := Orphans(b, sections, s.services);
    ServicesAgain(b, sections, s.services);
    RolesAgain(b, sections, orphans, s.roles);
    KeyedAgain(b, sections, orphans, s);
    OrgsAgain(b, sections, s.orgs);
  }

  /**
   The outcome does not remember where it started: two states agree after the same full apply on
   services, groups, rules, and on every roles key, route map and org mapping the bundle names.
   */
  lemma ApplyForgets(b: Bundle, s: Rbac, t: Rbac)
    ensures var u, v := Applied(b, [], s), Applied(b, [], t);
            && u.services == v.services && u.groups == v.groups && u.rules == v.rules
            && (forall svc :: svc in b.roles.Keys + ToSet(b.services) ==> At(u.roles, svc) == At(v.roles, svc))
            && (forall svc :: svc in b.routeMaps ==> At(u.routeMaps, svc) == At(v.routeMaps, svc))
            && (forall org :: org in b.orgs ==> At(u.orgs, org) == At(v.orgs, org))
  {
    FullApplyFromAnyState(b, s);
    FullApplyFromAnyState(b, t);
  }

  /**
   An org mapping is stored as the bundle gives it exactly when it is non-empty, duplicate-free and names no empty
   service.
   */
  lemma OrgMappingStored(b: Bundle, s: Rbac, org: string)
    requires org in b.orgs
    ensures var names := NamesOf(b.orgs[org]);
            var after := Applied(b, [], s).orgs;
            org in after && after[org] == names <==> names != [] && Distinct(names) && "" !in names
  {
    var names := NamesOf(b.orgs[org]);
    var p := (n: string) => n != "";
    if "" !in names {
      FilterKeepsAll(names, p);
      DedupIdentity(names);
    } else if org in Applied(b, [], s).orgs {
      assert "" !in OrgServices(names);
    }
  }

  // ── Sections ──────────────────────────────────────────────────────────────

  function SectionSet(): set<Section> {
    {Services, Groups, Roles, RouteMaps, Rules, Orgs}
  }

  /** For duplicate-free section lists the length test means what it should: every section is wanted. */
  lemma FullMeansAllWanted(sections: seq<Section>)
    requires Distinct(sections)
    ensures IsFull(sections) <==> forall s: Section :: Wants(sections, s)
  {
    DistinctCardinality(sections);
    assert |SectionSet()| == 6;
    forall s: Section ensures s in SectionSet() {
      match s case Services => case Groups => case Roles => case RouteMaps => case Rules => case Orgs =>
    }
    SubsetCardinality(ToSet(sections), SectionSet());
    if sections != [] && forall s: Section :: Wants(sections, s) {
      forall x | x in SectionSet() ensures x in ToSet(sections) {
        assert Wants(sections, x);
      }
      SubsetCardinality(SectionSet(), ToSet(sections));
    }
  }

  /** A duplicated list is counted as a full restore: groups are pruned although services were never asked for. */
  lemma DuplicatedSectionsPrune(b: Bundle, s: Rbac, g: string)
    requires g in s.groups && g !in b.groups
    ensures var six := [Groups, Groups, Groups, Groups, Groups, Groups];
            IsFull(six) && !Wants(six, Services) && g !in Applied(b, six, s).groups
    ensures g in Applied(b, [Groups], s).groups
  {
  }

  /** A selective import never prunes, and leaves every section outside the selection alone. */
  lemma SelectiveNeverPrunes(b: Bundle, sections: seq<Section>, s: Rbac)
    requires !IsFull(sections)
    ensures var after := Applied(b, sections, s);
            && s.services <= after.services
            && s.groups.Keys <= after.groups.Keys
            && s.roles.Keys <= after.roles.Keys
            && s.routeMaps.Keys <= after.routeMaps.Keys
            && (Services !in sections ==> after.services == s.services)
            && (Groups !in sections ==> after.groups == s.groups)
            && (Roles !in sections ==> after.roles == s.roles)
            && (RouteMaps !in sections ==> after.routeMaps == s.routeMaps)
            && (Rules !in sections ==> after.rules == s.rules)
            && (Orgs !in sections ==> after.orgs == s.orgs)
  {
    RolesGrow(b, sections, s.roles);
    RouteMapsGrow(b, sections, s.routeMaps);
  }

  lemma RolesGrow(b: Bundle, sections: seq<Section>, roles: map<string, RoleMap>)
    ensures roles.Keys <= AppliedRoles(b, sections, {}, roles).Keys
    ensures !Wants(sections, Roles) ==> AppliedRoles(b, sections, {}, roles) == roles
  {
    var roles' := AppliedRoles(b, sections, {}, roles);
    forall svc ensures At(roles', svc) == AppliedRole(b, sections, {}, svc, At(roles, svc)) {
      RolesAt(b, sections, {}, roles, svc);
    }
    forall svc | svc in roles ensures svc in roles' {
      assert At(roles', svc).Some?;
    }
    if !Wants(sections, Roles) {
      SameEverywhere(roles', roles);
    }
  }

  lemma RouteMapsGrow(b: Bundle, sections: seq<Section>, routeMaps: map<string, seq<RouteRule>>)
    ensures routeMaps.Keys <= AppliedRouteMaps(b, sections, {}, routeMaps).Keys
    ensures !Wants(sections, RouteMaps) ==> AppliedRouteMaps(b, sections, {}, routeMaps) == routeMaps
  {
    assert routeMaps - {} == routeMaps;
  }

  // ── Restoring a snapshot ──────────────────────────────────────────────────

  /**
   Restored after a snapshot of `s` was applied: exact for services, groups, rules and whatever the snapshot
   carries.
   */
  ghost predicate Restored(s: Rbac, after: Rbac) {
    && after.services == s.services
    && after.groups == s.groups
    && after.rules == s.rules
    && (forall svc :: svc in s.services && svc != "global" ==>
          (At(after.roles, svc) == At(s.roles, svc) <==> svc in s.roles && DEFAULT_ROLE_NAMES <= s.roles[svc].Keys))
    && ("global" in s.roles ==> At(after.roles, "global") == At(s.roles, "global"))
    && (forall svc :: svc in s.services && svc in s.routeMaps ==> At(after.routeMaps, svc) == At(s.routeMaps, svc))
    && (forall org :: org in s.orgs ==>
          (At(after.orgs, org) == At(s.orgs, org) <==>
             s.orgs[org] != [] && Distinct(s.orgs[org]) && "" !in s.orgs[org]))
  }

  /**
   Compensation and rollback: a snapshot of `s`, applied to any state at all (in particular to
   whatever a failed import left half-written), restores services, groups and rules exactly; the
   roles of a registered service come back unchanged if and only if they held every default name.
   */
  lemma SnapshotRestores(b: Bundle, s: Rbac, broken: Rbac)
    requires IsSnapshot(b, s)
    ensures Restored(s, Applied(b, [], broken))
  {
    var after := Applied(b, [], broken);
    FullApplyFromAnyState(b, broken);
    forall svc | svc in s.services && svc != "global"
      ensures At(after.roles, svc) == At(s.roles, svc) <==> svc in s.roles && DEFAULT_ROLE_NAMES <= s.roles[svc].Keys
    {
      RoleRestored(b, s, broken, svc);
    }
    RouteMapsRestored(b, s, broken);
    OrgsRestored(b, s, broken);
  }

  lemma OrgsRestored(b: Bundle, s: Rbac, broken: Rbac)
    requires IsSnapshot(b, s)
    ensures forall org :: org in s.orgs ==>
              (At(Applied(b, [], broken).orgs, org) == At(s.orgs, org) <==>
                 s.orgs[org] != [] && Distinct(s.orgs[org]) && "" !in s.orgs[org])
  {
    forall org | org in s.orgs
      ensures At(Applied(b, [], broken).orgs, org) == At(s.orgs, org) <==>
              s.orgs[org] != [] && Distinct(s.orgs[org]) && "" !in s.orgs[org]
    {
      OrgMappingStored(b, broken, org);
    }
  }

  lemma RouteMapsRestored(b: Bundle, s: Rbac, broken: Rbac)
    requires IsSnapshot(b, s)
    ensures forall svc :: svc in s.services && svc in s.routeMaps ==>
            At(Applied(b, [], broken).routeMaps, svc) == At(s.routeMaps, svc)
  {
    assert forall svc :: svc in s.services && svc in s.routeMaps ==> svc in b.routeMaps;
  }

  lemma RoleRestored(b: Bundle, s: Rbac, broken: Rbac, svc: string)
    requires IsSnapshot(b, s) && svc in s.services && svc != "global"
    ensures At(Applied(b, [], broken).roles, svc) == At(s.roles, svc) <==>
            svc in s.roles && DEFAULT_ROLE_NAMES <= s.roles[svc].Keys
  {
    assert svc in b.services;
    RolesAt(b, [], Orphans(b, [], broken.services), broken.roles, svc);
    if svc in s.roles {
      assert b.roles[svc] == s.roles[svc];
      OverlayIdentity(svc, s.roles[svc]);
    }
  }

  lemma OverlayIdentity(svc: string, r: RoleMap)
    ensures DefaultServiceRoles(svc) + r == r <==> DEFAULT_ROLE_NAMES <= r.Keys
  {
    var defaults := DefaultServiceRoles(svc);
    assert defaults.Keys == DEFAULT_ROLE_NAMES;
    assert (defaults + r).Keys == defaults.Keys + r.Keys;
    if DEFAULT_ROLE_NAMES <= r.Keys {
      assert defaults + r == r;
    }
  }

  // ── What a failed import leaves, and what the compensation then cannot take back ──

  /** The section whose write failed, as far as its caller could tell: it may have taken effect all the same. */
  datatype Stage = AtServices | AtGroups | AtRoles | AtRouteMaps | AtRules | AtOrgs

  ghost predicate PartlyPruned<V>(old': map<string, V>, new': map<string, V>, orphans: set<string>) {
    forall svc :: At(new', svc) == At(old', svc) || (svc in orphans && svc !in new')
  }

  /** A value a roles key gets only from this bundle. */
  predicate WrittenRole(b: Bundle, sections: seq<Section>, svc: string, value: Option<RoleMap>) {
    && Wants(sections, Roles)
    && (|| (svc in b.roles && value == Some(Overlay(svc, b.roles[svc])))
        || (Wants(sections, Services) && svc in b.services && value == Some(DefaultServiceRoles(svc))))
  }

  predicate WrittenRouteMap(b: Bundle, sections: seq<Section>, svc: string, value: Option<seq<RouteRule>>) {
    Wants(sections, RouteMaps) && svc in b.routeMaps && value == Some(b.routeMaps[svc])
  }

  /** The orgs in `done` have been written, the others not; in whatever order they come. */
  ghost predicate WrittenOrgs(b: Bundle, old': map<string, seq<string>>, new': map<string, seq<string>>,
      done: set<string>) {
    forall org :: At(new', org) == if org in done then At(OrgsWritten(b), org) else At(old', org)
  }

  ghost predicate OrgsPartly(b: Bundle, old': map<string, seq<string>>, new': map<string, seq<string>>) {
    exists done :: done <= b.orgs.Keys && WrittenOrgs(b, old', new', done)
  }

  /** Everything up to the route maps applied: the state just before the rules are written. */
  function BeforeRules(b: Bundle, sections: seq<Section>, s: Rbac): Rbac {
    Applied(b, sections, s).(rules := s.rules, orgs := s.orgs)
  }

  /** Nothing beyond pruning and the writes of this bundle has touched the roles. */
  ghost predicate RolesPartly(
    b: Bundle, sections: seq<Section>, old': map<string, RoleMap>, new': map<string, RoleMap>, orphans: set<string>)
  {
    forall svc :: At(new', svc) == At(old', svc) || (svc in orphans && svc !in new')
                  || WrittenRole(b, sections, svc, At(new', svc))
  }

  ghost predicate RouteMapsPartly(
    b: Bundle, sections: seq<Section>, old': map<string, seq<RouteRule>>, new': map<string, seq<RouteRule>>,
    orphans: set<string>)
  {
    forall svc :: At(new', svc) == At(old', svc) || (svc in orphans && svc !in new')
                  || WrittenRouteMap(b, sections, svc, At(new', svc))
  }

  /** Groups written or deleted by this bundle only, in whatever order. */
  ghost predicate GroupsPartly(
    b: Bundle, sections: seq<Section>, old': map<string, GroupDef>, new': map<string, GroupDef>)
  {
    forall g :: At(new', g) == At(old', g) || At(new', g) == At(AppliedGroups(b, sections, old'), g)
  }

  /** Registered and pruned services of this bundle only. */
  predicate ServicesPartly(b: Bundle, sections: seq<Section>, old': set<string>, new': set<string>) {
    old' - Orphans(b, sections, old') <= new' <= old' + ToSet(b.services)
  }

  /** The registry as applied, with what it prunes. */
  function RegistryApplied(b: Bundle, sections: seq<Section>, s: Rbac): Rbac {
    var orphans := Orphans(b, sections, s.services);
    s.(services := AppliedServices(b, sections, s.services),
       roles := s.roles - orphans, routeMaps := s.routeMaps - orphans)
  }

  /** Registry, roles and route maps as applied. */
  predicate TablesApplied(b: Bundle, sections: seq<Section>, s: Rbac, t: Rbac) {
    var orphans := Orphans(b, sections, s.services);
    && t.services == AppliedServices(b, sections, s.services)
    && t.roles == AppliedRoles(b, sections, orphans, s.roles)
    && t.routeMaps == AppliedRouteMaps(b, sections, orphans, s.routeMaps)
  }

  /**
   What a failure in each section leaves behind. Before anything is written the registry is read, and that may
   fail too.
   */
  ghost predicate FailedApply(b: Bundle, sections: seq<Section>, s: Rbac, t: Rbac, at: Stage) {
    var orphans := Orphans(b, sections, s.services);
    match at
    case AtServices =>
      || t == s
      || (&& Wants(sections, Services) && ServicesPartly(b, sections, s.services, t.services)
          && PartlyPruned(s.roles, t.roles, orphans) && PartlyPruned(s.routeMaps, t.routeMaps, orphans)
          && t == s.(services := t.services, roles := t.roles, routeMaps := t.routeMaps))
    case AtGroups =>
      && Wants(sections, Groups) && GroupsPartly(b, sections, s.groups, t.groups)
      && t == RegistryApplied(b, sections, s).(groups := t.groups)
    case AtRoles =>
      && Wants(sections, Roles) && RolesPartly(b, sections, s.roles, t.roles, orphans)
      && t == RegistryApplied(b, sections, s).(groups := AppliedGroups(b, sections, s.groups), roles := t.roles)
    case AtRouteMaps =>
      && Wants(sections, RouteMaps) && RouteMapsPartly(b, sections, s.routeMaps, t.routeMaps, orphans)
      && t == BeforeRules(b, sections, s).(routeMaps := t.routeMaps)
    case AtRules =>
      && Wants(sections, Rules) && (t.rules == s.rules || t.rules == b.rules)
      && t == BeforeRules(b, sections, s).(rules := t.rules)
    case AtOrgs =>
      && Wants(sections, Orgs) && OrgsPartly(b, s.orgs, t.orgs)
      && t == BeforeRules(b, sections, s).(rules := if Wants(sections, Rules) then b.rules else s.rules, orgs := t.orgs)
  }

  /** A section written to its end, with the reply to its last write lost. */
  function LastReplyLost(b: Bundle, sections: seq<Section>, s: Rbac, at: Stage): Rbac
    requires at.AtRoles? || at.AtRouteMaps? || at.AtOrgs?
  {
    match at
    case AtRoles =>
      BeforeRules(b, sections, s).(routeMaps := s.routeMaps - Orphans(b, sections, s.services))
    case AtRouteMaps => BeforeRules(b, sections, s)
    case AtOrgs => Applied(b, sections, s)
  }

  /**
   A route map this bundle would leave for good: named by it, new, and of a service the compensation does not
   prune.
   */
  predicate NewRouteMap(b: Bundle, sections: seq<Section>, s: Rbac, svc: string) {
    && Wants(sections, RouteMaps) && svc in b.routeMaps && svc !in s.routeMaps
    && (svc in s.services || !(Wants(sections, Services) && svc in b.services))
  }

  /** Likewise a roles key of a name that is no service, `global` above all. */
  predicate NewRoles(b: Bundle, sections: seq<Section>, s: Rbac, svc: string) {
    && Wants(sections, Roles) && svc in b.roles && svc !in s.roles && svc !in s.services
    && !(Wants(sections, Services) && svc in b.services)
  }

  /** Likewise an org mapping. */
  predicate NewOrg(b: Bundle, sections: seq<Section>, s: Rbac, org: string) {
    Wants(sections, Orgs) && org in OrgsWritten(b) && org !in s.orgs
  }

  /** Whatever is there that was not there before is something the bundle leaves. */
  ghost predicate OnlyLeft(b: Bundle, sections: seq<Section>, s: Rbac, after: Rbac) {
    && (forall svc :: svc in after.routeMaps && svc !in s.routeMaps ==>
          NewRouteMap(b, sections, s, svc) && after.routeMaps[svc] == b.routeMaps[svc])
    && (forall svc :: svc in after.roles && svc !in s.roles && svc !in s.services ==> NewRoles(b, sections, s, svc))
    && (forall org :: org in after.orgs && org !in s.orgs ==>
          NewOrg(b, sections, s, org) && after.orgs[org] == OrgsWritten(b)[org])
  }

  ghost predicate NothingAdded(s: Rbac, after: Rbac) {
    && (forall svc :: svc in after.routeMaps ==> svc in s.routeMaps)
    && (forall svc :: svc in after.roles ==> svc in s.roles || svc in s.services)
    && (forall org :: org in after.orgs ==> org in s.orgs)
  }

  /** What a snapshot does to keys it does not carry: a service it does not know is pruned, the rest stays. */
  lemma KeysAfterSnapshot(snap: Bundle, s: Rbac, t: Rbac, svc: string)
    requires IsSnapshot(snap, s)
    ensures var after := Applied(snap, [], t);
            && (svc !in s.routeMaps ==>
                  At(after.routeMaps, svc) == if svc in t.services && svc !in s.services then None
                      else At(t.routeMaps, svc))
            && (svc !in s.roles && svc !in s.services ==>
                  At(after.roles, svc) == if svc in t.services then None else At(t.roles, svc))
  {
    SnapshotOrphans(snap, s, t.services, svc);
    if svc !in s.roles && svc !in s.services {
      RoleAfterSnapshot(snap, s, t, svc);
    }
  }

  lemma SnapshotOrphans(snap: Bundle, s: Rbac, services: set<string>, svc: string)
    requires IsSnapshot(snap, s)
    ensures svc in Orphans(snap, [], services) <==> svc in services && svc !in s.services
    ensures svc in snap.services <==> svc in s.services
  {
    assert svc in snap.services <==> svc in ToSet(snap.services);
  }

  lemma RoleAfterSnapshot(snap: Bundle, s: Rbac, t: Rbac, svc: string)
    requires IsSnapshot(snap, s) && svc !in s.roles && svc !in s.services
    ensures At(Applied(snap, [], t).roles, svc) == if svc in t.services then None else At(t.roles, svc)
  {
    SnapshotOrphans(snap, s, t.services, svc);
    RolesAt(snap, [], Orphans(snap, [], t.services), t.roles, svc);
  }

  lemma OrgsAfterSnapshot(snap: Bundle, s: Rbac, t: Rbac)
    requires IsSnapshot(snap, s)
    ensures forall org :: org !in s.orgs ==> At(Applied(snap, [], t).orgs, org) == At(t.orgs, org)
  {
    assert snap.orgs.Keys == s.orgs.Keys;
  }

  /** What a complete apply adds and its own snapshot leaves. */
  lemma AddedByApply(snap: Bundle, b: Bundle, sections: seq<Section>, s: Rbac, t: Rbac)
    requires IsSnapshot(snap, s) && TablesApplied(b, sections, s, t)
    ensures var after := Applied(snap, [], t);
            && (forall svc :: svc !in s.routeMaps ==>
                  At(after.routeMaps, svc)
                  == if NewRouteMap(b, sections, s, svc) then At(b.routeMaps, svc) else None)
            && (forall svc :: svc !in s.roles && svc !in s.services ==>
                  (svc in after.roles <==> NewRoles(b, sections, s, svc)))
  {
    var after := Applied(snap, [], t);
    forall svc | svc !in s.routeMaps
      ensures At(after.routeMaps, svc) == if NewRouteMap(b, sections, s, svc) then At(b.routeMaps, svc) else None
    {
      RouteMapAdded(snap, b, sections, s, t, svc);
    }
    forall svc | svc !in s.roles && svc !in s.services
      ensures svc in after.roles <==> NewRoles(b, sections, s, svc)
    {
      RolesAdded(snap, b, sections, s, t, svc);
    }
  }

  lemma RouteMapAdded(snap: Bundle, b: Bundle, sections: seq<Section>, s: Rbac, t: Rbac, svc: string)
    requires IsSnapshot(snap, s) && TablesApplied(b, sections, s, t) && svc !in s.routeMaps
    ensures At(Applied(snap, [], t).routeMaps, svc)
            == if NewRouteMap(b, sections, s, svc) then At(b.routeMaps, svc) else None
  {
    KeysAfterSnapshot(snap, s, t, svc);
  }

  lemma RolesAdded(snap: Bundle, b: Bundle, sections: seq<Section>, s: Rbac, t: Rbac, svc: string)
    requires IsSnapshot(snap, s) && TablesApplied(b, sections, s, t) && svc !in s.roles && svc !in s.services
    ensures svc in Applied(snap, [], t).roles <==> NewRoles(b, sections, s, svc)
  {
    KeysAfterSnapshot(snap, s, t, svc);
    RolesAt(b, sections, Orphans(b, sections, s.services), s.roles, svc);
    assert svc in Applied(snap, [], t).roles <==> At(Applied(snap, [], t).roles, svc).Some?;
  }

  lemma OrgLeft(b: Bundle, sections: seq<Section>, s: Rbac, t: Rbac, org: string)
    requires Wants(sections, Orgs) && OrgsPartly(b, s.orgs, t.orgs) && org in t.orgs && org !in s.orgs
    ensures NewOrg(b, sections, s, org) && t.orgs[org] == OrgsWritten(b)[org]
  {
    var done :| done <= b.orgs.Keys && WrittenOrgs(b, s.orgs, t.orgs, done);
    assert At(t.orgs, org).Some?;
    assert org in done;
  }

  /** Whichever write fails, the compensation leaves nothing new but what the bundle leaves. */
  lemma CompensationLeavesOnly(snap: Bundle, b: Bundle, sections: seq<Section>, s: Rbac, t: Rbac, at: Stage)
    requires IsSnapshot(snap, s) && FailedApply(b, sections, s, t, at)
    ensures OnlyLeft(b, sections, s, Applied(snap, [], t))
  {
    var after := Applied(snap, [], t);
    forall svc | svc in after.routeMaps && svc !in s.routeMaps
      ensures NewRouteMap(b, sections, s, svc) && after.routeMaps[svc] == b.routeMaps[svc]
    {
      RouteMapLeft(snap, b, sections, s, t, at, svc);
    }
    forall svc | svc in after.roles && svc !in s.roles && svc !in s.services ensures NewRoles(b, sections, s, svc) {
      RolesLeft(snap, b, sections, s, t, at, svc);
    }
    OrgsAfterSnapshot(snap, s, t);
    forall org | org in after.orgs && org !in s.orgs
      ensures NewOrg(b, sections, s, org) && after.orgs[org] == OrgsWritten(b)[org]
    {
      assert At(after.orgs, org) == At(t.orgs, org);
      OrgsUntilOrgs(b, sections, s, t, at);
      OrgLeft(b, sections, s, t, org);
    }
  }

  lemma OrgsUntilOrgs(b: Bundle, sections: seq<Section>, s: Rbac, t: Rbac, at: Stage)
    requires FailedApply(b, sections, s, t, at)
    ensures !at.AtOrgs? ==> t.orgs == s.orgs
    ensures at.AtOrgs? ==> Wants(sections, Orgs) && OrgsPartly(b, s.orgs, t.orgs)
  {
  }

  /** A failure at the rules or later: the tables are whole. */
  lemma TablesWhole(b: Bundle, sections: seq<Section>, s: Rbac, t: Rbac, at: Stage)
    requires FailedApply(b, sections, s, t, at) && (at.AtRules? || at.AtOrgs?)
    ensures TablesApplied(b, sections, s, t)
  {
  }

  /** What the failed import holds under a new route-map key, stage by stage. */
  lemma RouteMapWritten(b: Bundle, sections: seq<Section>, s: Rbac, t: Rbac, at: Stage, svc: string)
    requires FailedApply(b, sections, s, t, at) && svc in t.routeMaps && svc !in s.routeMaps
    ensures at.AtRouteMaps? || at.AtRules? || at.AtOrgs?
    ensures WrittenRouteMap(b, sections, svc, At(t.routeMaps, svc))
    ensures t.services == AppliedServices(b, sections, s.services)
  {
    if at.AtRules? || at.AtOrgs? {
      TablesWhole(b, sections, s, t, at);
    } else {
      assert At(t.routeMaps, svc) != At(s.routeMaps, svc);
    }
  }

  lemma RouteMapLeft(snap: Bundle, b: Bundle, sections: seq<Section>, s: Rbac, t: Rbac, at: Stage, svc: string)
    requires IsSnapshot(snap, s) && FailedApply(b, sections, s, t, at)
    requires var after := Applied(snap, [], t); svc in after.routeMaps && svc !in s.routeMaps
    ensures NewRouteMap(b, sections, s, svc) && Applied(snap, [], t).routeMaps[svc] == b.routeMaps[svc]
  {
    KeysAfterSnapshot(snap, s, t, svc);
    assert At(Applied(snap, [], t).routeMaps, svc) == At(t.routeMaps, svc);
    RouteMapWritten(b, sections, s, t, at, svc);
  }

  lemma RolesWritten(b: Bundle, sections: seq<Section>, s: Rbac, t: Rbac, at: Stage, svc: string)
    requires FailedApply(b, sections, s, t, at) && svc in t.roles && svc !in s.roles && svc !in t.services
    ensures at.AtRoles? || at.AtRouteMaps? || at.AtRules? || at.AtOrgs?
    ensures WrittenRole(b, sections, svc, At(t.roles, svc))
    ensures t.services == AppliedServices(b, sections, s.services)
  {
    if at.AtRules? || at.AtOrgs? {
      TablesWhole(b, sections, s, t, at);
      RolesAt(b, sections, Orphans(b, sections, s.services), s.roles, svc);
    } else if at.AtRouteMaps? {
      RolesAt(b, sections, Orphans(b, sections, s.services), s.roles, svc);
    } else {
      assert At(t.roles, svc) != At(s.roles, svc);
    }
  }

  lemma RolesLeft(snap: Bundle, b: Bundle, sections: seq<Section>, s: Rbac, t: Rbac, at: Stage, svc: string)
    requires IsSnapshot(snap, s) && FailedApply(b, sections, s, t, at)
    requires svc in Applied(snap, [], t).roles && svc !in s.roles && svc !in s.services
    ensures NewRoles(b, sections, s, svc)
  {
    KeysAfterSnapshot(snap, s, t, svc);
    assert At(Applied(snap, [], t).roles, svc) == At(t.roles, svc);
    RolesWritten(b, sections, s, t, at, svc);
  }

  /** Every new route map, and every new roles key of a name that is no service, is there to stay. */
  ghost predicate TablesLeft(b: Bundle, sections: seq<Section>, s: Rbac, after: Rbac) {
    && (forall svc :: NewRouteMap(b, sections, s, svc) ==> At(after.routeMaps, svc) == At(b.routeMaps, svc))
    && (forall svc :: NewRoles(b, sections, s, svc) ==> svc in after.roles)
  }

  /** A run that fails at the rules or the orgs: what the bundle adds is still there after the compensation. */
  lemma AddedKeysSurvive(snap: Bundle, b: Bundle, sections: seq<Section>, s: Rbac, t: Rbac, at: Stage)
    requires IsSnapshot(snap, s) && FailedApply(b, sections, s, t, at) && (at.AtRules? || at.AtOrgs?)
    ensures TablesLeft(b, sections, s, Applied(snap, [], t))
  {
    TablesWhole(b, sections, s, t, at);
    AddedByApply(snap, b, sections, s, t);
  }

  /** The run in which every org is written and the last reply is lost. */
  lemma AddedOrgSurvives(snap: Bundle, b: Bundle, sections: seq<Section>, s: Rbac, org: string)
    requires IsSnapshot(snap, s) && NewOrg(b, sections, s, org)
    ensures FailedApply(b, sections, s, LastReplyLost(b, sections, s, AtOrgs), AtOrgs)
    ensures At(Applied(snap, [], LastReplyLost(b, sections, s, AtOrgs)).orgs, org) == At(OrgsWritten(b), org)
  {
    LostInOrgs(b, sections, s);
    OrgsAfterSnapshot(snap, s, LastReplyLost(b, sections, s, AtOrgs));
    OrgApplied(b, sections, s.orgs, org);
  }

  lemma OrgApplied(b: Bundle, sections: seq<Section>, orgs: map<string, seq<string>>, org: string)
    requires Wants(sections, Orgs)
    ensures At(AppliedOrgs(b, sections, orgs), org)
            == if org in b.orgs then At(OrgsWritten(b), org) else At(orgs, org)
  {
  }

  lemma LostInOrgs(b: Bundle, sections: seq<Section>, s: Rbac)
    requires Wants(sections, Orgs)
    ensures FailedApply(b, sections, s, LastReplyLost(b, sections, s, AtOrgs), AtOrgs)
  {
    var orgs := AppliedOrgs(b, sections, s.orgs);
    forall org ensures At(orgs, org) == if org in b.orgs.Keys then At(OrgsWritten(b), org) else At(s.orgs, org) {
      OrgApplied(b, sections, s.orgs, org);
    }
    PartlyWritten(b, s.orgs, orgs, b.orgs.Keys);
  }

  /** Some key of this name is left for good. */
  predicate Leaves(b: Bundle, sections: seq<Section>, s: Rbac, name: string) {
    NewRouteMap(b, sections, s, name) || NewRoles(b, sections, s, name) || NewOrg(b, sections, s, name)
  }

  /**
   A failing run in which it is left, whatever the order of the bundle's entries: the section is written to
   its end and the last reply is lost.
   */
  lemma SomethingSurvives(snap: Bundle, b: Bundle, sections: seq<Section>, s: Rbac, name: string)
    returns (at: Stage)
    requires IsSnapshot(snap, s) && Leaves(b, sections, s, name)
    ensures at.AtRoles? || at.AtRouteMaps? || at.AtOrgs?
    ensures var t := LastReplyLost(b, sections, s, at);
            FailedApply(b, sections, s, t, at) && !NothingAdded(s, Applied(snap, [], t))
  {
    if NewOrg(b, sections, s, name) {
      at := AtOrgs;
      AddedOrgSurvives(snap, b, sections, s, name);
      NewOrgAdded(s, Applied(snap, [], LastReplyLost(b, sections, s, at)), name);
    } else if NewRouteMap(b, sections, s, name) {
      at := AtRouteMaps;
      var t := LastReplyLost(b, sections, s, at);
      LostInRouteMaps(b, sections, s);
      KeysAfterSnapshot(snap, s, t, name);
      NewRouteMapAdded(s, Applied(snap, [], t), name);
    } else {
      at := AtRoles;
      var t := LastReplyLost(b, sections, s, at);
      LostInRoles(b, sections, s);
      KeysAfterSnapshot(snap, s, t, name);
      RolesAt(b, sections, Orphans(b, sections, s.services), s.roles, name);
      NewRolesAdded(s, Applied(snap, [], t), name);
    }
  }

  lemma LostInRoles(b: Bundle, sections: seq<Section>, s: Rbac)
    requires Wants(sections, Roles)
    ensures FailedApply(b, sections, s, LastReplyLost(b, sections, s, AtRoles), AtRoles)
  {
    var orphans, t := Orphans(b, sections, s.services), LastReplyLost(b, sections, s, AtRoles);
    forall svc
      ensures || At(t.roles, svc) == At(s.roles, svc) || (svc in orphans && svc !in t.roles)
              || WrittenRole(b, sections, svc, At(t.roles, svc))
    {
      RolesAt(b, sections, orphans, s.roles, svc);
    }
  }

  lemma LostInRouteMaps(b: Bundle, sections: seq<Section>, s: Rbac)
    requires Wants(sections, RouteMaps)
    ensures FailedApply(b, sections, s, LastReplyLost(b, sections, s, AtRouteMaps), AtRouteMaps)
  {
  }

  lemma NewRouteMapAdded(s: Rbac, after: Rbac, svc: string)
    requires svc !in s.routeMaps && At(after.routeMaps, svc).Some?
    ensures !NothingAdded(s, after)
  {
  }

  lemma NewRolesAdded(s: Rbac, after: Rbac, svc: string)
    requires svc !in s.roles && svc !in s.services && At(after.roles, svc).Some?
    ensures !NothingAdded(s, after)
  {
  }

  lemma NewOrgAdded(s: Rbac, after: Rbac, org: string)
    requires org !in s.orgs && At(after.orgs, org).Some?
    ensures !NothingAdded(s, after)
  {
  }

  /** A compensation that leaves only what the bundle leaves, which is nothing. */
  lemma NothingLeftNothingAdded(b: Bundle, sections: seq<Section>, s: Rbac, after: Rbac)
    requires OnlyLeft(b, sections, s, after) && forall name :: !Leaves(b, sections, s, name)
    ensures NothingAdded(s, after)
  {
    forall name
      ensures name in after.routeMaps ==> name in s.routeMaps
      ensures name in after.roles ==> name in s.roles || name in s.services
      ensures name in after.orgs ==> name in s.orgs
    {
      assert !Leaves(b, sections, s, name);
    }
  }

  /** Whichever write fails, the compensation leaves no key behind that was not there. */
  ghost predicate AddsNoKey(snap: Bundle, b: Bundle, sections: seq<Section>, s: Rbac) {
    forall t, at :: FailedApply(b, sections, s, t, at) ==> NothingAdded(s, Applied(snap, [], t))
  }

  /**
   A failed import, whole or of some sections, and its compensation add no key (roles of registered services
   apart), whichever write is answered with an error, with or without effect, exactly when the bundle names
   nothing new that the snapshot cannot take back: no route map, no roles key of a name that is no service, no
   org.
   */
  lemma CompensationExactly(snap: Bundle, b: Bundle, sections: seq<Section>, s: Rbac)
    requires IsSnapshot(snap, s)
    ensures AddsNoKey(snap, b, sections, s) <==> forall name :: !Leaves(b, sections, s, name)
  {
    if name :| Leaves(b, sections, s, name) {
      var at := SomethingSurvives(snap, b, sections, s, name);
    } else {
      forall t, at | FailedApply(b, sections, s, t, at) ensures NothingAdded(s, Applied(snap, [], t)) {
        CompensationLeavesOnly(snap, b, sections, s, t, at);
        NothingLeftNothingAdded(b, sections, s, Applied(snap, [], t));
      }
    }
  }

  // ── When the compensation brings everything back ──────────────────────────

  /** Every registered service has the default role names; for a service called `global` any roles key will do. */
  predicate HoldsDefaults(s: Rbac) {
    forall svc :: svc in s.services ==>
      svc in s.roles && (svc == "global" || DEFAULT_ROLE_NAMES <= s.roles[svc].Keys)
  }

  /** Every org mapping is as the repository would store it. */
  predicate OrgsClean(s: Rbac) {
    forall org :: org in s.orgs ==> s.orgs[org] != [] && Distinct(s.orgs[org]) && "" !in s.orgs[org]
  }

  predicate Registers(b: Bundle, sections: seq<Section>, svc: string) {
    Wants(sections, Services) && svc in b.services
  }

  /** A route map of a name that is no service is neither registered, and so pruned with it, nor overwritten. */
  predicate StrayRouteMapKept(b: Bundle, sections: seq<Section>, s: Rbac, svc: string) {
    svc in s.routeMaps && svc !in s.services ==>
      && !Registers(b, sections, svc)
      && (Wants(sections, RouteMaps) && svc in b.routeMaps ==> b.routeMaps[svc] == s.routeMaps[svc])
  }

  /** Likewise its roles, those of `global` apart, which the snapshot carries. */
  predicate StrayRolesKept(b: Bundle, sections: seq<Section>, s: Rbac, svc: string) {
    svc in s.roles && svc !in s.services && svc != "global" ==>
      && !Registers(b, sections, svc)
      && (Wants(sections, Roles) && svc in b.roles ==> Overlay(svc, b.roles[svc]) == s.roles[svc])
  }

  /** What a caller can check before the import: the state restores itself, and the bundle spares the rest. */
  ghost predicate Restorable(b: Bundle, sections: seq<Section>, s: Rbac) {
    && HoldsDefaults(s) && OrgsClean(s)
    && forall name :: !Leaves(b, sections, s, name) && StrayRouteMapKept(b, sections, s, name)
                      && StrayRolesKept(b, sections, s, name)
  }

  /** Whichever write fails, the compensation brings back the very state the import found. */
  ghost predicate RestoresAll(snap: Bundle, b: Bundle, sections: seq<Section>, s: Rbac) {
    forall t, at :: FailedApply(b, sections, s, t, at) ==> Applied(snap, [], t) == s
  }

  /** The roles key of `svc` after a snapshot of `s` was applied to a state with these services and that roles key. */
  function RoleBack(s: Rbac, services: set<string>, was: Option<RoleMap>, svc: string): Option<RoleMap> {
    if svc in s.roles && (svc in s.services || svc == "global") then Some(Overlay(svc, s.roles[svc]))
    else if svc in s.services then Some(DefaultServiceRoles(svc))
    else if svc in services then None
    else was
  }

  function RouteMapBack(s: Rbac, services: set<string>, was: Option<seq<RouteRule>>, svc: string)
    : Option<seq<RouteRule>>
  {
    if svc in s.services then (if svc in s.routeMaps then At(s.routeMaps, svc) else was)
    else if svc in services then None
    else was
  }

  lemma RolesBack(snap: Bundle, s: Rbac, t: Rbac, svc: string)
    requires IsSnapshot(snap, s)
    ensures At(Applied(snap, [], t).roles, svc) == RoleBack(s, t.services, At(t.roles, svc), svc)
  {
    SnapshotOrphans(snap, s, t.services, svc);
    RolesAt(snap, [], Orphans(snap, [], t.services), t.roles, svc);
    assert svc in snap.roles <==> svc in s.roles && (svc in s.services || svc == "global");
  }

  lemma RouteMapsBack(snap: Bundle, s: Rbac, t: Rbac, svc: string)
    requires IsSnapshot(snap, s)
    ensures At(Applied(snap, [], t).routeMaps, svc) == RouteMapBack(s, t.services, At(t.routeMaps, svc), svc)
  {
    SnapshotOrphans(snap, s, t.services, svc);
    assert svc in snap.routeMaps <==> svc in s.routeMaps && svc in s.services;
  }

  lemma OrgsBack(snap: Bundle, s: Rbac, t: Rbac, org: string)
    requires IsSnapshot(snap, s)
    ensures org !in s.orgs ==> At(Applied(snap, [], t).orgs, org) == At(t.orgs, org)
    ensures org in s.orgs ==>
              (At(Applied(snap, [], t).orgs, org) == At(s.orgs, org) <==>
                 s.orgs[org] != [] && Distinct(s.orgs[org]) && "" !in s.orgs[org])
  {
    OrgsAfterSnapshot(snap, s, t);
    OrgsRestored(snap, s, t);
  }

  /** The state is back exactly when it is so key by key. */
  lemma BackByKeys(snap: Bundle, s: Rbac, t: Rbac)
    requires IsSnapshot(snap, s) && t.groupMeta == s.groupMeta && t.serviceMeta == s.serviceMeta
    requires forall svc :: RoleBack(s, t.services, At(t.roles, svc), svc) == At(s.roles, svc)
    requires forall svc :: RouteMapBack(s, t.services, At(t.routeMaps, svc), svc) == At(s.routeMaps, svc)
    requires OrgsClean(s) && forall org :: org !in s.orgs ==> org !in t.orgs
    ensures Applied(snap, [], t) == s
  {
    var after := Applied(snap, [], t);
    FullApplyFromAnyState(snap, t);
    forall svc ensures At(after.roles, svc) == At(s.roles, svc) {
      RolesBack(snap, s, t, svc);
    }
    forall svc ensures At(after.routeMaps, svc) == At(s.routeMaps, svc) {
      RouteMapsBack(snap, s, t, svc);
    }
    forall org ensures At(after.orgs, org) == At(s.orgs, org) {
      OrgsBack(snap, s, t, org);
    }
    SameEverywhere(after.roles, s.roles);
    SameEverywhere(after.routeMaps, s.routeMaps);
    SameEverywhere(after.orgs, s.orgs);
  }

  /** What any failure leaves of the registry and the metadata. */
  lemma FailedRegistry(b: Bundle, sections: seq<Section>, s: Rbac, t: Rbac, at: Stage)
    requires FailedApply(b, sections, s, t, at)
    ensures t.groupMeta == s.groupMeta && t.serviceMeta == s.serviceMeta
    ensures forall svc :: svc in t.services ==> svc in s.services || Registers(b, sections, svc)
  {
  }

  /** What it leaves of one roles key of a name that was no service: the old value, or one of this bundle's. */
  lemma FailedRole(b: Bundle, sections: seq<Section>, s: Rbac, t: Rbac, at: Stage, svc: string)
    requires FailedApply(b, sections, s, t, at) && svc !in s.services
    ensures At(t.roles, svc) == At(s.roles, svc)
            || (WrittenRole(b, sections, svc, At(t.roles, svc))
                && t.services == AppliedServices(b, sections, s.services))
  {
    RolesAt(b, sections, Orphans(b, sections, s.services), s.roles, svc);
    if at.AtServices? {
      assert At(t.roles, svc) == At(s.roles, svc);
    } else if at.AtGroups? {
      assert t.roles == s.roles - Orphans(b, sections, s.services);
    }
  }

  lemma FailedRouteMap(b: Bundle, sections: seq<Section>, s: Rbac, t: Rbac, at: Stage, svc: string)
    requires FailedApply(b, sections, s, t, at)
    ensures At(t.routeMaps, svc) == At(s.routeMaps, svc)
            || (svc in s.services && svc !in t.routeMaps)
            || (WrittenRouteMap(b, sections, svc, At(t.routeMaps, svc))
                && t.services == AppliedServices(b, sections, s.services))
  {
    if at.AtServices? {
      assert t == s || PartlyPruned(s.routeMaps, t.routeMaps, Orphans(b, sections, s.services));
    }
  }

  lemma RoleComesBack(b: Bundle, sections: seq<Section>, s: Rbac, t: Rbac, at: Stage, svc: string)
    requires FailedApply(b, sections, s, t, at) && Restorable(b, sections, s)
    ensures RoleBack(s, t.services, At(t.roles, svc), svc) == At(s.roles, svc)
  {
    if svc in s.roles && (svc in s.services || svc == "global") {
      if svc != "global" {
        OverlayIdentity(svc, s.roles[svc]);
      }
    } else if svc !in s.services {
      assert !Leaves(b, sections, s, svc) && StrayRolesKept(b, sections, s, svc);
      FailedRegistry(b, sections, s, t, at);
      FailedRole(b, sections, s, t, at, svc);
    }
  }

  lemma RouteMapComesBack(b: Bundle, sections: seq<Section>, s: Rbac, t: Rbac, at: Stage, svc: string)
    requires FailedApply(b, sections, s, t, at) && Restorable(b, sections, s)
    ensures RouteMapBack(s, t.services, At(t.routeMaps, svc), svc) == At(s.routeMaps, svc)
  {
    assert !Leaves(b, sections, s, svc) && StrayRouteMapKept(b, sections, s, svc);
    FailedRegistry(b, sections, s, t, at);
    FailedRouteMap(b, sections, s, t, at, svc);
  }

  lemma NoOrgAdded(b: Bundle, sections: seq<Section>, s: Rbac, t: Rbac, at: Stage, org: string)
    requires FailedApply(b, sections, s, t, at) && Restorable(b, sections, s) && org !in s.orgs
    ensures org !in t.orgs
  {
    assert !Leaves(b, sections, s, org);
    OrgsUntilOrgs(b, sections, s, t, at);
    if org in t.orgs {
      OrgLeft(b, sections, s, t, org);
    }
  }

  lemma ComesBack(snap: Bundle, b: Bundle, sections: seq<Section>, s: Rbac, t: Rbac, at: Stage)
    requires IsSnapshot(snap, s) && FailedApply(b, sections, s, t, at) && Restorable(b, sections, s)
    ensures Applied(snap, [], t) == s
  {
    FailedRegistry(b, sections, s, t, at);
    forall svc ensures RoleBack(s, t.services, At(t.roles, svc), svc) == At(s.roles, svc) {
      RoleComesBack(b, sections, s, t, at, svc);
    }
    forall svc ensures RouteMapBack(s, t.services, At(t.routeMaps, svc), svc) == At(s.routeMaps, svc) {
      RouteMapComesBack(b, sections, s, t, at, svc);
    }
    forall org | org !in s.orgs ensures org !in t.orgs {
      NoOrgAdded(b, sections, s, t, at, org);
    }
    BackByKeys(snap, s, t);
  }

  /** A state that does not restore itself does not come back from anywhere. */
  lemma UnreadyStateStays(snap: Bundle, s: Rbac, t: Rbac)
    requires IsSnapshot(snap, s) && !(HoldsDefaults(s) && OrgsClean(s))
    ensures Applied(snap, [], t) != s
  {
    if !HoldsDefaults(s) {
      var svc :| svc in s.services
        && !(svc in s.roles && (svc == "global" || DEFAULT_ROLE_NAMES <= s.roles[svc].Keys));
      RolesBack(snap, s, t, svc);
      if svc in s.roles {
        OverlayIdentity(svc, s.roles[svc]);
      }
      assert At(Applied(snap, [], t).roles, svc) != At(s.roles, svc);
    } else {
      var org :| org in s.orgs && !(s.orgs[org] != [] && Distinct(s.orgs[org]) && "" !in s.orgs[org]);
      OrgsBack(snap, s, t, org);
    }
  }

  /** Nothing at all was written, only the first read failed, and the compensation still changes such a state. */
  lemma UnreadyStateChanges(snap: Bundle, b: Bundle, sections: seq<Section>, s: Rbac)
    requires IsSnapshot(snap, s) && !(HoldsDefaults(s) && OrgsClean(s))
    ensures FailedApply(b, sections, s, s, AtServices) && Applied(snap, [], s) != s
  {
    UnreadyStateStays(snap, s, s);
  }

  /**
   A name that is no service but has a route map or roles (as an earlier failed import leaves them): a bundle
   that registers it as a service takes them away for good.
   */
  lemma RegisteredStrayIsPruned(snap: Bundle, b: Bundle, sections: seq<Section>, s: Rbac, svc: string)
    requires IsSnapshot(snap, s) && svc !in s.services && Registers(b, sections, svc)
    ensures var t := s.(services := s.services + {svc});
            && FailedApply(b, sections, s, t, AtServices)
            && svc !in Applied(snap, [], t).routeMaps
            && (svc != "global" ==> svc !in Applied(snap, [], t).roles)
  {
    var t := s.(services := s.services + {svc});
    RouteMapsBack(snap, s, t, svc);
    RolesBack(snap, s, t, svc);
    assert svc in ToSet(b.services);
  }

  /** And a bundle with another route map for it overwrites the old one for good. */
  lemma OverwrittenStrayStays(snap: Bundle, b: Bundle, sections: seq<Section>, s: Rbac, svc: string)
    requires IsSnapshot(snap, s) && svc !in s.services && !Registers(b, sections, svc)
    requires Wants(sections, RouteMaps) && svc in b.routeMaps
    ensures var t := LastReplyLost(b, sections, s, AtRouteMaps);
            && FailedApply(b, sections, s, t, AtRouteMaps)
            && At(Applied(snap, [], t).routeMaps, svc) == At(b.routeMaps, svc)
  {
    LostInRouteMaps(b, sections, s);
    RouteMapsBack(snap, s, LastReplyLost(b, sections, s, AtRouteMaps), svc);
  }

  lemma OverwrittenRolesStay(snap: Bundle, b: Bundle, sections: seq<Section>, s: Rbac, svc: string)
    requires IsSnapshot(snap, s) && svc !in s.services && svc != "global" && !Registers(b, sections, svc)
    requires Wants(sections, Roles) && svc in b.roles
    ensures var t := LastReplyLost(b, sections, s, AtRoles);
            && FailedApply(b, sections, s, t, AtRoles)
            && At(Applied(snap, [], t).roles, svc) == Some(Overlay(svc, b.roles[svc]))
  {
    var t := LastReplyLost(b, sections, s, AtRoles);
    LostInRoles(b, sections, s);
    RolesBack(snap, s, t, svc);
    RolesAt(b, sections, Orphans(b, sections, s.services), s.roles, svc);
  }

  lemma StrayDoesNotComeBack(snap: Bundle, b: Bundle, sections: seq<Section>, s: Rbac, svc: string)
    requires IsSnapshot(snap, s)
    requires !(StrayRouteMapKept(b, sections, s, svc) && StrayRolesKept(b, sections, s, svc))
    ensures !RestoresAll(snap, b, sections, s)
  {
    if Registers(b, sections, svc) {
      RegisteredStrayIsPruned(snap, b, sections, s, svc);
    } else if !StrayRouteMapKept(b, sections, s, svc) {
      OverwrittenStrayStays(snap, b, sections, s, svc);
    } else {
      OverwrittenRolesStay(snap, b, sections, s, svc);
    }
  }

  /**
   An import, whole or of some sections, is undone without a trace, whichever write is answered with an
   error, with or without effect, exactly when the state restores itself and the bundle neither adds a key
   that stays nor touches what names that are no service hold.
   */
  lemma CompensationRestoresExactly(snap: Bundle, b: Bundle, sections: seq<Section>, s: Rbac)
    requires IsSnapshot(snap, s)
    ensures RestoresAll(snap, b, sections, s) <==> Restorable(b, sections, s)
  {
    if Restorable(b, sections, s) {
      forall t, at | FailedApply(b, sections, s, t, at) ensures Applied(snap, [], t) == s {
        ComesBack(snap, b, sections, s, t, at);
      }
    } else if !(HoldsDefaults(s) && OrgsClean(s)) {
      UnreadyStateChanges(snap, b, sections, s);
    } else if name :| Leaves(b, sections, s, name) {
      var at := SomethingSurvives(snap, b, sections, s, name);
      assert NothingAdded(s, s);
    } else {
      var name :| !(StrayRouteMapKept(b, sections, s, name) && StrayRolesKept(b, sections, s, name));
      StrayDoesNotComeBack(snap, b, sections, s, name);
    }
  }

  /**
   No key is added, and yet something is gone: an existing route map of a name that is no service, which a
   bundle without any route maps registers.
   */
  lemma NothingAddedYetPruned(snap: Bundle, b: Bundle, s: Rbac, svc: string)
    requires IsSnapshot(snap, s) && svc in s.routeMaps && svc !in s.services
    requires svc in b.services && b.roles == map[] && b.routeMaps == map[] && b.orgs == map[]
    ensures AddsNoKey(snap, b, [], s) && !RestoresAll(snap, b, [], s)
  {
    LeavesNothing(b, s);
    CompensationExactly(snap, b, [], s);
    assert !StrayRouteMapKept(b, [], s, svc);
    StrayDoesNotComeBack(snap, b, [], s, svc);
  }

  /** Or is another: the bundle brings its own route map for that name. */
  lemma NothingAddedYetOverwritten(snap: Bundle, b: Bundle, s: Rbac, svc: string, other: seq<RouteRule>)
    requires IsSnapshot(snap, s) && svc in s.routeMaps && svc !in s.services && s.routeMaps[svc] != other
    requires svc !in b.services && b.roles == map[] && b.routeMaps == map[svc := other] && b.orgs == map[]
    ensures AddsNoKey(snap, b, [], s) && !RestoresAll(snap, b, [], s)
  {
    LeavesNothing(b, s);
    CompensationExactly(snap, b, [], s);
    assert !StrayRouteMapKept(b, [], s, svc);
    StrayDoesNotComeBack(snap, b, [], s, svc);
  }

  /** No roles, no orgs, and route maps for names only that have one. */
  lemma LeavesNothing(b: Bundle, s: Rbac)
    requires b.roles == map[] && b.routeMaps.Keys <= s.routeMaps.Keys && b.orgs == map[]
    ensures forall name :: !Leaves(b, [], s, name)
  {
    assert OrgsWritten(b) == map[];
  }

  // ── Fail-closed rule validation ───────────────────────────────────────────

  datatype RuleFailure = BadSchema(id: string) | DisabledHandler(id: string, kind: string, name: string)

  const AUTHENTICATORS: set<string> := {
    "noop", "cookie_session", "bearer_token", "jwt", "oauth2_introspection", "oauth2_client_credentials", "anonymous",
    "unauthorized"}
  const AUTHORIZERS: set<string> := {"allow", "deny", "remote_json", "keto_engine_acp_ory"}
  const MUTATORS: set<string> := {"noop", "header", "cookie", "id_token", "hydrator"}
  const METHODS: set<string> := {"GET", "POST", "PUT", "PATCH", "DELETE", "OPTIONS", "HEAD"}

  /** The structural schema of a rule; what counts as a URL is a parameter. */
  predicate SchemaOk(rule: Rule, isUrl: string -> bool) {
    && rule.id != "" && isUrl(rule.upstream.url) && rule.matchUrl != ""
    && (forall m :: m in rule.methods ==> m in METHODS)
    && (forall h :: h in rule.authenticators ==> h.name in AUTHENTICATORS)
    && rule.authorizer.name in AUTHORIZERS
    && (forall h :: h in rule.mutators ==> h.name in MUTATORS)
  }

  predicate HandlersEnabled(gw: Gateway, rule: Rule) {
    && (forall h :: h in rule.authenticators ==> h.name in gw.authenticators)
    && rule.authorizer.name in gw.authorizers
    && (forall h :: h in rule.mutators ==> h.name in gw.mutators)
    && (forall h :: h in rule.errors ==> h.name in gw.errorHandlers)
  }

  predicate RuleOk(gw: Gateway, isUrl: string -> bool, rule: Rule) {
    SchemaOk(rule, isUrl) && HandlersEnabled(gw, rule)
  }

  predicate RulesOk(gw: Gateway, isUrl: string -> bool, rules: seq<Rule>) {
    forall r :: r in rules ==> RuleOk(gw, isUrl, r)
  }

  /** One failure per disabled handler of one stage. */
  method StageFailures(id: string, kind: string, stage: seq<Handler>,
      enabled: seq<string>) returns (fs: seq<RuleFailure>)
    ensures fs == [] <==> forall h :: h in stage ==> h.name in enabled
    ensures forall f :: f in fs ==> f.DisabledHandler? && f.id == id && f.name !in enabled
  {
    fs := [];
    for i := 0 to |stage|
      invariant fs == [] <==> forall j :: 0 <= j < i ==> stage[j].name in enabled
      invariant forall f :: f in fs ==> f.DisabledHandler? && f.id == id && f.name !in enabled
    {
      if stage[i].name !in enabled {
        fs := fs + [DisabledHandler(id, kind, stage[i].name)];
      }
    }
  }

  /** How a rule is named in a report: by its id, or by its place when it has none. */
  function Label(rule: Rule, at: nat): string {
    if rule.id != "" then rule.id else "(rule #" + Decimal(at) + ")"
  }

  function Decimal(n: nat): string {
    if n < 10 then [('0' as int + n) as char] else Decimal(n / 10) + [('0' as int + n % 10) as char]
  }

  /** What is wrong with one rule: its shape, or else every disabled handler it names. */
  method RuleFailures(gw: Gateway, isUrl: string -> bool, rule: Rule, id: string) returns (fs: seq<RuleFailure>)
    ensures fs == [] <==> RuleOk(gw, isUrl, rule)
    ensures forall f :: f in fs ==> f.id == id
  {
    if !SchemaOk(rule, isUrl) {
      return [BadSchema(id)];
    }
    var a := StageFailures(id, "authenticator", rule.authenticators, gw.authenticators);
    var z := StageFailures(id, "authorizer", [rule.authorizer], gw.authorizers);
    var m := StageFailures(id, "mutator", rule.mutators, gw.mutators);
    var e := StageFailures(id, "error", rule.errors, gw.errorHandlers);
    assert rule.authorizer in [rule.authorizer];
    return a + z + m + e;
  }

  /** Every rule is examined, not just up to the first bad one, and every bad one is named. */
  method ValidateOathkeeperRules(gw: Gateway, isUrl: string -> bool,
      rules: seq<Rule>) returns (failures: seq<RuleFailure>)
    ensures failures == [] <==> RulesOk(gw, isUrl, rules)
    ensures forall i :: 0 <= i < |rules| && !RuleOk(gw, isUrl, rules[i]) ==> Blames(failures, Label(rules[i], i))
  {
    failures := [];
    for i := 0 to |rules|
      invariant failures == [] <==> forall j :: 0 <= j < i ==> RuleOk(gw, isUrl, rules[j])
      invariant forall j :: 0 <= j < i && !RuleOk(gw, isUrl, rules[j]) ==> Blames(failures, Label(rules[j], j))
    {
      var found := RuleFailures(gw, isUrl, rules[i], Label(rules[i], i));
      MoreBlame(failures, found);
      failures := failures + found;
    }
  }

  ghost predicate Blames(failures: seq<RuleFailure>, id: string) {
    exists f :: f in failures && f.id == id
  }

  lemma MoreBlame(before: seq<RuleFailure>, found: seq<RuleFailure>)
    ensures forall id :: Blames(before, id) || Blames(found, id) ==> Blames(before + found, id)
    ensures found != [] ==> Blames(before + found, found[0].id)
  {
    assert forall f :: f in before || f in found ==> f in before + found;
    if found != [] {
      assert found[0] in found;
    }
  }

  // ── Import history ────────────────────────────────────────────────────────

  datatype Reason = PreImport | PreRestore | PreRollback

  datatype HistoryEntry = HistoryEntry(id: nat, reason: Reason, actor: Option<string>, bundle: Bundle)

  const IMPORT_HISTORY_CAP: nat := 10

  /** LPUSH then LTRIM: newest first, capped. */
  function Pushed(history: seq<HistoryEntry>, e: HistoryEntry): (r: seq<HistoryEntry>)
    ensures 0 < |r| <= IMPORT_HISTORY_CAP && r[0] == e
  {
    Newest([e] + history)
  }

  function Newest(history: seq<HistoryEntry>): (r: seq<HistoryEntry>)
    ensures r <= history && |r| == if |history| < IMPORT_HISTORY_CAP then |history| else IMPORT_HISTORY_CAP
  {
    if |history| <= IMPORT_HISTORY_CAP then history else history[..IMPORT_HISTORY_CAP]
  }

  function PushedAll(history: seq<HistoryEntry>, es: seq<HistoryEntry>): seq<HistoryEntry> {
    if es == [] then history else Pushed(PushedAll(history, es[..|es| - 1]), es[|es| - 1])
  }

  function Reversed<T>(s: seq<T>): seq<T> {
    if s == [] then [] else [s[|s| - 1]] + Reversed(s[..|s| - 1])
  }

  /** After any number n of imports the history is the newest min(10, n) snapshots, newest first. */
  lemma {:induction false} HistoryIsNewest(es: seq<HistoryEntry>)
    ensures PushedAll([], es) == Newest(Reversed(es))
    ensures |Reversed(es)| == |es| && |PushedAll([], es)| == if |es| < 10 then |es| else 10
  {
    if es != [] {
      HistoryIsNewest(es[..|es| - 1]);
    }
  }

  // ── The service ───────────────────────────────────────────────────────────

  datatype Outcome =
    | Rejected(failures: seq<RuleFailure>)
    | NotFound
    | HistoryUnavailable
    | Imported(pruned: set<string>)
    | Compensated(at: Stage)
    | Inconsistent

  /** A completed import: the state is the bundle's, and its pre-image heads the history. */
  ghost predicate ImportStep(s: Rbac, h: seq<HistoryEntry>, s': Rbac, h': seq<HistoryEntry>,
                             b: Bundle, sections: seq<Section>, reason: Reason)
  {
    SnapshotPushed(s, h, h', reason) && s' == Applied(b, sections, s)
  }

  ghost predicate SnapshotPushed(s: Rbac, h: seq<HistoryEntry>, h': seq<HistoryEntry>, reason: Reason) {
    h' != [] && h' == Pushed(h, h'[0]) && IsSnapshot(h'[0].bundle, s) && h'[0].reason == reason
  }

  /**
   A rollback followed by a rollback to the entry it made itself brings the state back: what a snapshot restores
   always, and all of it exactly under the condition a compensation needs.
   */
  lemma RollbackUndone(
    s0: Rbac, h0: seq<HistoryEntry>, s1: Rbac, h1: seq<HistoryEntry>, s2: Rbac, h2: seq<HistoryEntry>, b: Bundle)
    requires ImportStep(s0, h0, s1, h1, b, [], PreRollback)
    requires ImportStep(s1, h1, s2, h2, h1[0].bundle, [], PreRollback)
    ensures Restored(s0, s2)
    ensures AddedByRollback(b, s0, s2)
    ensures s2 == s0 <==> Restorable(b, [], s0)
    ensures |h0| + 2 <= IMPORT_HISTORY_CAP ==> h2[2..] == h0
  {
    SnapshotRestores(h1[0].bundle, s0, s1);
    RollbackAdds(h1[0].bundle, b, s0);
    RollbackBackExactly(h1[0].bundle, b, s0);
    HistoryAfterTwo(h0, h1, h2);
  }

  /** The keys a rollback brought in that the next one does not take back, exactly. */
  ghost predicate AddedByRollback(b: Bundle, s0: Rbac, s2: Rbac) {
    && (forall svc :: svc !in s0.routeMaps ==> (svc in s2.routeMaps <==> NewRouteMap(b, [], s0, svc)))
    && (forall svc :: svc !in s0.roles && svc !in s0.services ==> (svc in s2.roles <==> NewRoles(b, [], s0, svc)))
    && (forall org :: org !in s0.orgs ==> (org in s2.orgs <==> org in OrgsWritten(b)))
  }

  lemma RollbackAdds(snap: Bundle, b: Bundle, s0: Rbac)
    requires IsSnapshot(snap, s0)
    ensures AddedByRollback(b, s0, Applied(snap, [], Applied(b, [], s0)))
  {
    var s1 := Applied(b, [], s0);
    AddedByApply(snap, b, [], s0, s1);
    OrgsAfterSnapshot(snap, s0, s1);
    assert forall org :: org in Applied(snap, [], s1).orgs <==> At(Applied(snap, [], s1).orgs, org).Some?;
    assert forall org :: org in s1.orgs <==> At(s1.orgs, org).Some?;
  }

  lemma RollbackBackExactly(snap: Bundle, b: Bundle, s0: Rbac)
    requires IsSnapshot(snap, s0)
    ensures Applied(snap, [], Applied(b, [], s0)) == s0 <==> Restorable(b, [], s0)
  {
    var s1 := Applied(b, [], s0);
    if Restorable(b, [], s0) {
      LostInOrgs(b, [], s0);
      ComesBack(snap, b, [], s0, s1, AtOrgs);
    } else if !(HoldsDefaults(s0) && OrgsClean(s0)) {
      UnreadyStateStays(snap, s0, s1);
    } else if name :| Leaves(b, [], s0, name) {
      RollbackAdds(snap, b, s0);
    } else {
      var name :| !(StrayRouteMapKept(b, [], s0, name) && StrayRolesKept(b, [], s0, name));
      StrayNotBack(snap, b, s0, name);
    }
  }

  lemma StrayNotBack(snap: Bundle, b: Bundle, s0: Rbac, name: string)
    requires IsSnapshot(snap, s0) && !(StrayRouteMapKept(b, [], s0, name) && StrayRolesKept(b, [], s0, name))
    ensures Applied(snap, [], Applied(b, [], s0)) != s0
  {
    var s1 := Applied(b, [], s0);
    assert name in s1.services <==> name in b.services;
    if !StrayRouteMapKept(b, [], s0, name) {
      RouteMapsBack(snap, s0, s1, name);
    } else {
      RolesBack(snap, s0, s1, name);
      RolesAt(b, [], Orphans(b, [], s0.services), s0.roles, name);
    }
  }

  lemma HistoryAfterTwo(h0: seq<HistoryEntry>, h1: seq<HistoryEntry>, h2: seq<HistoryEntry>)
    requires h1 != [] && h1 == Pushed(h0, h1[0]) && h2 != [] && h2 == Pushed(h1, h2[0])
    ensures |h0| + 2 <= IMPORT_HISTORY_CAP ==> h2[2..] == h0
  {
  }

  /** Pruning before writing the roles comes to the same as dropping the orphans' roles. */
  lemma PrunedFirst(b: Bundle, sections: seq<Section>, orphans: set<string>, roles: map<string, RoleMap>,
      after: map<string, RoleMap>)
    requires forall svc :: At(after, svc) == AppliedRole(b, sections, {}, svc, At(roles - orphans, svc))
    ensures after == AppliedRoles(b, sections, orphans, roles)
  {
    forall svc ensures At(after, svc) == At(AppliedRoles(b, sections, orphans, roles), svc) {
      RolesAt(b, sections, orphans, roles, svc);
      assert At(roles - orphans, svc) == if svc in orphans then None else At(roles, svc);
    }
    SameEverywhere(after, AppliedRoles(b, sections, orphans, roles));
  }

  /** The bundle's groups over `base`, those in `todo` not yet written. */
  function GroupsUpTo(b: Bundle, base: map<string, GroupDef>, todo: set<string>): map<string, GroupDef> {
    base + (b.groups - todo)
  }

  lemma NoGroupsYet(b: Bundle, base: map<string, GroupDef>)
    ensures GroupsUpTo(b, base, b.groups.Keys) == base
  {
  }

  lemma OneGroupMore(b: Bundle, name: string, base: map<string, GroupDef>, todo: set<string>)
    requires name in b.groups && name in todo
    ensures GroupsUpTo(b, base, todo)[name := b.groups[name]] == GroupsUpTo(b, base, todo - {name})
  {
  }

  /** Some groups written, over what pruning has left. */
  lemma GroupsSoFar(b: Bundle, sections: seq<Section>, first: map<string, GroupDef>, base: map<string, GroupDef>,
      todo: set<string>)
    requires Wants(sections, Groups) && todo <= b.groups.Keys
    requires base == if IsFull(sections) then first - (first.Keys - b.groups.Keys) else first
    ensures GroupsPartly(b, sections, first, GroupsUpTo(b, base, todo))
    ensures todo == {} ==> GroupsUpTo(b, base, todo) == AppliedGroups(b, sections, first)
  {
    if todo == {} {
      SameEverywhere(GroupsUpTo(b, base, todo), AppliedGroups(b, sections, first));
    }
  }

  lemma RouteMapsSoFar(b: Bundle, sections: seq<Section>, before: map<string, seq<RouteRule>>, todo: set<string>)
    requires Wants(sections, RouteMaps) && todo <= b.routeMaps.Keys
    ensures var now := before + (b.routeMaps - todo);
            forall svc :: At(now, svc) == At(before, svc) || WrittenRouteMap(b, sections, svc, At(now, svc))
  {
  }

  lemma FailedInRoles(b: Bundle, sections: seq<Section>, s: Rbac, t: Rbac)
    requires t == RegistryApplied(b, sections, s).(groups := AppliedGroups(b, sections, s.groups), roles := t.roles)
    requires var pruned := s.roles - Orphans(b, sections, s.services);
             && Wants(sections, Roles)
             && forall svc :: At(t.roles, svc) == At(pruned, svc) || WrittenRole(b, sections, svc, At(t.roles, svc))
    ensures FailedApply(b, sections, s, t, AtRoles)
  {
    var orphans := Orphans(b, sections, s.services);
    assert forall svc :: At(s.roles - orphans, svc) == if svc in orphans then None else At(s.roles, svc);
    assert RolesPartly(b, sections, s.roles, t.roles, orphans);
  }

  lemma FailedInRouteMaps(b: Bundle, sections: seq<Section>, s: Rbac, t: Rbac)
    requires t == BeforeRules(b, sections, s).(routeMaps := t.routeMaps)
    requires var pruned := s.routeMaps - Orphans(b, sections, s.services);
             && Wants(sections, RouteMaps)
             && forall svc ::
                  At(t.routeMaps, svc) == At(pruned, svc) || WrittenRouteMap(b, sections, svc, At(t.routeMaps, svc))
    ensures FailedApply(b, sections, s, t, AtRouteMaps)
  {
    var orphans := Orphans(b, sections, s.services);
    assert forall svc :: At(s.routeMaps - orphans, svc) == if svc in orphans then None else At(s.routeMaps, svc);
    assert RouteMapsPartly(b, sections, s.routeMaps, t.routeMaps, orphans);
  }

  lemma OneOrgMore(b: Bundle, base: map<string, seq<string>>, before: map<string, seq<string>>,
      after: map<string, seq<string>>, written: set<string>, org: string)
    requires org in b.orgs && WrittenOrgs(b, base, before, written)
    requires var names := OrgServices(NamesOf(b.orgs[org]));
             after == if names == [] then before - {org} else before[org := names]
    ensures WrittenOrgs(b, base, after, written + {org})
  {
    assert At(OrgsWritten(b), org) == At(after, org);
    forall o ensures At(after, o) == if o in written + {org} then At(OrgsWritten(b), o) else At(base, o) {
      assert o != org ==> At(after, o) == At(before, o);
    }
  }

  lemma PartlyWritten(b: Bundle, base: map<string, seq<string>>, now: map<string, seq<string>>, written: set<string>)
    requires written <= b.orgs.Keys && WrittenOrgs(b, base, now, written)
    ensures OrgsPartly(b, base, now)
  {
  }

  lemma AllOrgsWritten(b: Bundle, sections: seq<Section>, base: map<string, seq<string>>,
      now: map<string, seq<string>>)
    requires Wants(sections, Orgs) && WrittenOrgs(b, base, now, b.orgs.Keys)
    ensures now == AppliedOrgs(b, sections, base)
  {
    forall o ensures At(now, o) == At(AppliedOrgs(b, sections, base), o) {
      assert At(now, o) == if o in b.orgs.Keys then At(OrgsWritten(b), o) else At(base, o);
    }
    SameEverywhere(now, AppliedOrgs(b, sections, base));
  }

  lemma WholeRouteMaps(b: Bundle, sections: seq<Section>, s: Rbac, t: Rbac)
    ensures var orphans := Orphans(b, sections, s.services);
            AppliedRouteMaps(b, sections, {}, s.routeMaps - orphans)
                == AppliedRouteMaps(b, sections, orphans, s.routeMaps)
  {
    assert s.routeMaps - Orphans(b, sections, s.services) - {} == s.routeMaps - Orphans(b, sections, s.services);
  }

  lemma AppliedByParts(b: Bundle, sections: seq<Section>, s: Rbac, after: Rbac)
    requires after.groupMeta == s.groupMeta && after.serviceMeta == s.serviceMeta
    requires after.services == AppliedServices(b, sections, s.services)
    requires after.groups == AppliedGroups(b, sections, s.groups)
    requires after.roles == AppliedRoles(b, sections, Orphans(b, sections, s.services), s.roles)
    requires after.routeMaps == AppliedRouteMaps(b, sections, Orphans(b, sections, s.services), s.routeMaps)
    requires after.rules == if Wants(sections, Rules) then b.rules else s.rules
    requires after.orgs == AppliedOrgs(b, sections, s.orgs)
    ensures after == Applied(b, sections, s)
  {
  }

  class RbacBundleService {
    const repo: RbacRepository
    const gw: Gateway
    const isUrl: string -> bool
    var history: seq<HistoryEntry>
    var nextId: nat
    /** How many commands went without a reply. */
    ghost var lost: nat

    constructor (repo: RbacRepository, gw: Gateway, isUrl: string -> bool)
      ensures this.repo == repo && this.gw == gw && this.isUrl == isUrl && history == []
    {
      this.repo, this.gw, this.isUrl := repo, gw, isUrl;
      history, nextId, lost := [], 0, 0;
    }

    /** One Redis command: it may not get through, and its reply may be lost after it took effect. */
    method Send() returns (done: bool, answered: bool)
      modifies `lost
      ensures answered ==> done
      ensures lost == old(lost) + if answered then 0 else 1
    {
      done := *;
      answered := *;
      answered := answered && done;
      lost := lost + if answered then 0 else 1;
    }

    /** A full export. */
    method Export() returns (b: Bundle)
      ensures IsSnapshot(b, repo.State())
    {
      var names := ListServices();
      var roles := Collect(names + ["global"], repo.roles);
      var routeMaps := Collect(names, repo.routeMaps);
      assert ToSet(names + ["global"]) == repo.services + {"global"};
      return Bundle(names, repo.groups, roles, routeMaps, repo.rules,
             map org | org in repo.orgs :: Names(repo.orgs[org]));
    }

    /** A download of chosen sections: the full export and the parts of it that are kept. */
    method ExportSections(sections: seq<Section>) returns (b: Bundle, kept: set<Section>)
      ensures IsSnapshot(b, repo.State())
      ensures forall x :: x in kept <==> IsFull(sections) || x in sections
    {
      b := Export();
      kept := if sections != [] && |sections| < |ALL_SECTIONS| then ToSet(sections) else SectionSet();
      forall x: Section ensures x in SectionSet() {
        match x case Services => case Groups => case Roles => case RouteMaps => case Rules => case Orgs =>
      }
    }

    /** SMEMBERS: each registered service once, in no particular order. */
    method ListServices() returns (names: seq<string>)
      ensures Distinct(names) && ToSet(names) == repo.services
    {
      names := [];
      var left := repo.services;
      while left != {}
        invariant left <= repo.services && Distinct(names) && ToSet(names) == repo.services - left
      {
        var svc :| svc in left;
        names, left := names + [svc], left - {svc};
      }
    }

    /** The value stored for each of `names` that has one. */
    method Collect<V>(names: seq<string>, stored: map<string, V>) returns (m: map<string, V>)
      ensures m == KeptFor(stored, ToSet(names))
    {
      m := map[];
      for i := 0 to |names|
        invariant forall svc :: At(m, svc) == if svc in names[..i] then At(stored, svc) else None
      {
        assert names[..i + 1] == names[..i] + [names[i]];
        if names[i] in stored {
          m := m[names[i] := stored[names[i]]];
        }
      }
      assert names[..|names|] == names;
      SameEverywhere(m, KeptFor(stored, ToSet(names)));
    }

    /**
     Registry section: add the bundle's services; on a full restore drop the others with their roles and route
     maps.
     */
    method ApplyServices(b: Bundle, sections: seq<Section>) returns (ok: bool, orphans: set<string>)
      modifies this`lost, repo`services, repo`roles, repo`routeMaps
      ensures lost >= old(lost) && (ok <==> lost == old(lost))
      ensures ok ==> orphans == Orphans(b, sections, old(repo.services))
      ensures ok ==> repo.State() == RegistryApplied(b, sections, old(repo.State()))
      ensures !ok ==> FailedApply(b, sections, old(repo.State()), repo.State(), AtServices)
    {
      var read;
      read, ok := Send();
      orphans := {};
      if !ok {
        return;
      }
      var existing := repo.services;
      if !Wants(sections, Services) {
        assert old(repo.roles) - {} == old(repo.roles) && old(repo.routeMaps) - {} == old(repo.routeMaps);
        return;
      }
      for i := 0 to |b.services|
        invariant lost >= old(lost) && (ok <==> lost == old(lost))
        invariant ok ==> repo.services == existing + ToSet(b.services[..i])
        invariant existing <= repo.services <= existing + ToSet(b.services)
        invariant repo.roles == old(repo.roles) && repo.routeMaps == old(repo.routeMaps)
      {
        var done, answered := Send();
        if done {
          repo.AddService(b.services[i]);
        }
        ok := ok && answered;
        assert b.services[..i + 1] == b.services[..i] + [b.services[i]];
      }
      assert b.services[..|b.services|] == b.services;
      if IsFull(sections) {
        orphans := existing - ToSet(b.services);
      }
      if !ok {
        return;
      }
      ok := Prune(orphans);
      assert existing + ToSet(b.services) - orphans == existing - orphans + ToSet(b.services);
    }

    method Prune(orphans: set<string>) returns (ok: bool)
      modifies this`lost, repo`services, repo`roles, repo`routeMaps
      ensures lost >= old(lost) && (ok <==> lost == old(lost))
      ensures ok ==> repo.services == old(repo.services) - orphans
      ensures old(repo.services) - orphans <= repo.services <= old(repo.services)
      ensures ok ==> repo.roles == old(repo.roles) - orphans && repo.routeMaps == old(repo.routeMaps) - orphans
      ensures PartlyPruned(old(repo.roles), repo.roles, orphans)
              && PartlyPruned(old(repo.routeMaps), repo.routeMaps, orphans)
    {
      ok := true;
      var left := orphans;
      while left != {}
        invariant lost >= old(lost) && (ok <==> lost == old(lost))
        invariant left <= orphans
        invariant ok ==> repo.services == old(repo.services) - (orphans - left)
        invariant old(repo.services) - orphans <= repo.services <= old(repo.services)
        invariant ok ==> repo.roles == old(repo.roles) - (orphans - left)
        invariant ok ==> repo.routeMaps == old(repo.routeMaps) - (orphans - left)
        invariant PartlyPruned(old(repo.roles), repo.roles, orphans)
        invariant PartlyPruned(old(repo.routeMaps), repo.routeMaps, orphans)
      {
        var svc :| svc in left;
        var gone := PruneOne(svc);
        ok := ok && gone;
        assert orphans - (left - {svc}) == (orphans - left) + {svc};
        left := left - {svc};
      }
    }

    method PruneOne(svc: string) returns (ok: bool)
      modifies this`lost, repo`services, repo`roles, repo`routeMaps
      ensures lost >= old(lost) && (ok <==> lost == old(lost))
      ensures ok ==> repo.services == old(repo.services) - {svc}
      ensures repo.services == old(repo.services) || repo.services == old(repo.services) - {svc}
      ensures ok ==> repo.roles == old(repo.roles) - {svc} && repo.routeMaps == old(repo.routeMaps) - {svc}
      ensures repo.roles == old(repo.roles) || repo.roles == old(repo.roles) - {svc}
      ensures repo.routeMaps == old(repo.routeMaps) || repo.routeMaps == old(repo.routeMaps) - {svc}
    {
      var done1, answered1 := Send();
      if done1 { repo.RemoveService(svc); }
      var done2, answered2 := Send();
      if done2 { repo.DeleteRoles(svc); }
      var done3, answered3 := Send();
      if done3 { repo.DeleteRouteMap(svc); }
      ok := answered1 && answered2 && answered3;
    }

    method PruneGroups(stale: set<string>) returns (ok: bool)
      modifies this`lost, repo`groups
      ensures lost >= old(lost) && (ok <==> lost == old(lost))
      ensures ok ==> repo.groups == old(repo.groups) - stale
      ensures forall g :: At(repo.groups, g) == At(old(repo.groups), g) || (g in stale && g !in repo.groups)
    {
      var left := stale;
      while left != {}
        invariant lost == old(lost)
        invariant left <= stale
        invariant forall g :: At(repo.groups, g) == if g in stale && g !in left then None else At(old(repo.groups), g)
      {
        var name :| name in left;
        var done, answered := Send();
        if done { repo.DeleteGroup(name); }
        if !answered { return false; }
        left := left - {name};
      }
      SameEverywhere(repo.groups, old(repo.groups) - stale);
      return true;
    }

    method ApplyGroups(b: Bundle, sections: seq<Section>) returns (ok: bool)
      modifies this`lost, repo`groups
      ensures lost >= old(lost) && (ok <==> lost == old(lost))
      ensures ok ==> repo.groups == AppliedGroups(b, sections, old(repo.groups))
      ensures !ok ==> Wants(sections, Groups) && GroupsPartly(b, sections, old(repo.groups), repo.groups)
    {
      if !Wants(sections, Groups) {
        return true;
      }
      if IsFull(sections) {
        var read;
        read, ok := Send();
        if !ok { return; }
        ok := PruneGroups(repo.groups.Keys - b.groups.Keys);
        if !ok { return; }
      }
      ok := WriteGroups(b, sections, old(repo.groups));
    }

    /** The bundle's own groups, over what pruning has left. */
    method WriteGroups(b: Bundle, sections: seq<Section>, ghost first: map<string, GroupDef>) returns (ok: bool)
      requires Wants(sections, Groups)
      requires repo.groups == if IsFull(sections) then first - (first.Keys - b.groups.Keys) else first
      modifies this`lost, repo`groups
      ensures lost >= old(lost) && (ok <==> lost == old(lost))
      ensures ok ==> repo.groups == AppliedGroups(b, sections, first)
      ensures GroupsPartly(b, sections, first, repo.groups)
    {
      ghost var base := repo.groups;
      var todo := b.groups.Keys;
      NoGroupsYet(b, base);
      while todo != {}
        invariant lost == old(lost)
        invariant todo <= b.groups.Keys && repo.groups == GroupsUpTo(b, base, todo)
      {
        var name :| name in todo;
        ghost var before := todo;
        var done, answered := WriteGroup(b, name, base, todo);
        todo := todo - {name};
        if !answered {
          GroupsSoFar(b, sections, first, base, if done then todo else before);
          return false;
        }
      }
      GroupsSoFar(b, sections, first, base, {});
      return true;
    }

    method WriteGroup(b: Bundle, name: string, ghost base: map<string, GroupDef>, ghost todo: set<string>)
      returns (done: bool, answered: bool)
      requires name in todo && todo <= b.groups.Keys && repo.groups == GroupsUpTo(b, base, todo)
      modifies this`lost, repo`groups
      ensures lost >= old(lost) && (answered <==> lost == old(lost))
      ensures repo.groups == GroupsUpTo(b, base, if done then todo - {name} else todo)
      ensures answered ==> done
    {
      done, answered := Send();
      if done {
        OneGroupMore(b, name, base, todo);
        repo.SetGroup(name, b.groups[name]);
      }
    }

    method ApplyRoles(b: Bundle, sections: seq<Section>) returns (ok: bool)
      modifies this`lost, repo`roles
      ensures lost >= old(lost) && (ok <==> lost == old(lost))
      ensures ok ==> forall svc :: At(repo.roles, svc) == AppliedRole(b, sections, {}, svc, At(old(repo.roles), svc))
      ensures forall svc ::
              At(repo.roles, svc) == At(old(repo.roles), svc) || WrittenRole(b, sections, svc, At(repo.roles, svc))
      ensures !ok ==> Wants(sections, Roles)
    {
      if !Wants(sections, Roles) {
        return true;
      }
      ok := ApplyOwnRoles(b);
      if ok && Wants(sections, Services) {
        ok := ApplyDefaultRoles(b);
      }
    }

    /** The bundle's own entries, over the defaults. */
    method ApplyOwnRoles(b: Bundle) returns (ok: bool)
      modifies this`lost, repo`roles
      ensures lost >= old(lost) && (ok <==> lost == old(lost))
      ensures ok ==> forall svc ::
                At(repo.roles, svc) == if svc in b.roles then Some(Overlay(svc, b.roles[svc]))
                    else At(old(repo.roles), svc)
      ensures forall svc :: At(repo.roles, svc) == At(old(repo.roles), svc)
                            || (svc in b.roles && At(repo.roles, svc) == Some(Overlay(svc, b.roles[svc])))
    {
      var todo := b.roles.Keys;
      while todo != {}
        invariant lost == old(lost)
        invariant todo <= b.roles.Keys
        invariant forall svc :: At(repo.roles, svc) ==
                                if svc in b.roles && svc !in todo then Some(Overlay(svc, b.roles[svc]))
                                    else At(old(repo.roles), svc)
      {
        var svc :| svc in todo;
        var done, answered := Send();
        if done { repo.SetRoles(svc, Overlay(svc, b.roles[svc])); }
        if !answered { return false; }
        todo := todo - {svc};
      }
      return true;
    }

    /** A service without an entry gets the defaults. */
    method ApplyDefaultRoles(b: Bundle) returns (ok: bool)
      modifies this`lost, repo`roles
      ensures lost >= old(lost) && (ok <==> lost == old(lost))
      ensures ok ==> forall svc ::
                At(repo.roles, svc)
                == if svc !in b.roles && svc in b.services then Some(DefaultServiceRoles(svc))
                    else At(old(repo.roles), svc)
      ensures forall svc :: At(repo.roles, svc) == At(old(repo.roles), svc)
                            || (svc in b.services && At(repo.roles, svc) == Some(DefaultServiceRoles(svc)))
    {
      for i := 0 to |b.services|
        invariant lost == old(lost)
        invariant forall svc ::
                    At(repo.roles, svc)
                    == if svc !in b.roles && svc in b.services[..i] then Some(DefaultServiceRoles(svc))
                       else At(old(repo.roles), svc)
      {
        var svc := b.services[i];
        assert b.services[..i + 1] == b.services[..i] + [svc];
        if svc !in b.roles {
          var done, answered := Send();
          if done { repo.SetRoles(svc, DefaultServiceRoles(svc)); }
          if !answered { return false; }
        }
      }
      assert b.services[..|b.services|] == b.services;
      return true;
    }

    method ApplyRouteMaps(b: Bundle, sections: seq<Section>) returns (ok: bool)
      modifies this`lost, repo`routeMaps
      ensures lost >= old(lost) && (ok <==> lost == old(lost))
      ensures ok ==> repo.routeMaps == AppliedRouteMaps(b, sections, {}, old(repo.routeMaps))
      ensures !ok ==> forall svc :: At(repo.routeMaps, svc) == At(old(repo.routeMaps), svc)
                                    || WrittenRouteMap(b, sections, svc, At(repo.routeMaps, svc))
      ensures !ok ==> Wants(sections, RouteMaps)
    {
      assert old(repo.routeMaps) - {} == old(repo.routeMaps);
      if !Wants(sections, RouteMaps) {
        return true;
      }
      var todo := b.routeMaps.Keys;
      assert repo.routeMaps + (b.routeMaps - todo) == repo.routeMaps;
      while todo != {}
        invariant lost == old(lost)
        invariant todo <= b.routeMaps.Keys && repo.routeMaps == old(repo.routeMaps) + (b.routeMaps - todo)
      {
        var svc :| svc in todo;
        var done, answered := Send();
        if done { repo.SetRouteMap(svc, b.routeMaps[svc]); }
        if !answered {
          RouteMapsSoFar(b, sections, old(repo.routeMaps), if done then todo - {svc} else todo);
          return false;
        }
        todo := todo - {svc};
      }
      assert b.routeMaps - {} == b.routeMaps;
      return true;
    }

    method ApplyOrgs(b: Bundle, sections: seq<Section>) returns (ok: bool)
      modifies this`lost, repo`orgs
      ensures lost >= old(lost) && (ok <==> lost == old(lost))
      ensures ok ==> repo.orgs == AppliedOrgs(b, sections, old(repo.orgs))
      ensures !ok ==> Wants(sections, Orgs) && OrgsPartly(b, old(repo.orgs), repo.orgs)
    {
      if !Wants(sections, Orgs) {
        return true;
      }
      var todo := b.orgs.Keys;
      while todo != {}
        invariant lost == old(lost)
        invariant todo <= b.orgs.Keys && WrittenOrgs(b, old(repo.orgs), repo.orgs, b.orgs.Keys - todo)
      {
        var org :| org in todo;
        ghost var written := b.orgs.Keys - todo;
        var done, answered := WriteOrg(b, org, old(repo.orgs), written);
        todo := todo - {org};
        assert b.orgs.Keys - todo == written + {org};
        if !answered {
          PartlyWritten(b, old(repo.orgs), repo.orgs, if done then written + {org} else written);
          return false;
        }
      }
      AllOrgsWritten(b, sections, old(repo.orgs), repo.orgs);
      return true;
    }

    /** One more org. */
    method WriteOrg(b: Bundle, org: string, ghost base: map<string, seq<string>>, ghost written: set<string>)
      returns (done: bool, answered: bool)
      requires org in b.orgs && WrittenOrgs(b, base, repo.orgs, written)
      modifies this`lost, repo`orgs
      ensures lost >= old(lost) && (answered <==> lost == old(lost))
      ensures WrittenOrgs(b, base, repo.orgs, if done then written + {org} else written)
      ensures answered ==> done
    {
      done, answered := Send();
      if done {
        repo.SetOrgServiceMapping(org, NamesOf(b.orgs[org]));
        OneOrgMore(b, base, old(repo.orgs), repo.orgs, written, org);
      }
    }

    /** The first half of the write sequence: registry, groups, roles. */
    method ApplyTables(b: Bundle, sections: seq<Section>) returns (r: Result<set<string>, Stage>)
      modifies this`lost, repo`services, repo`groups, repo`roles, repo`routeMaps
      ensures lost >= old(lost) && (r.Ok? <==> lost == old(lost))
      ensures r.Ok? ==>
                && r.value == Orphans(b, sections, old(repo.services))
                && repo.services == AppliedServices(b, sections, old(repo.services))
                && repo.groups == AppliedGroups(b, sections, old(repo.groups))
                && repo.roles == AppliedRoles(b, sections, r.value, old(repo.roles))
                && repo.routeMaps == old(repo.routeMaps) - r.value
      ensures r.Err? ==> FailedApply(b, sections, old(repo.State()), repo.State(), r.error)
      ensures r.Err? ==> r.error.AtServices? || r.error.AtGroups? || r.error.AtRoles?
    {
      var ok, orphans := ApplyServices(b, sections);
      if !ok { return Err(AtServices); }
      ok := ApplyGroups(b, sections);
      if !ok { return Err(AtGroups); }
      ok := ApplyRoles(b, sections);
      if !ok {
        FailedInRoles(b, sections, old(repo.State()), repo.State());
        return Err(AtRoles);
      }
      PrunedFirst(b, sections, orphans, old(repo.roles), repo.roles);
      return Ok(orphans);
    }

    /** The raw write sequence, and the write that failed if one did. */
    method ApplyBundle(b: Bundle, sections: seq<Section>) returns (r: Result<set<string>, Stage>)
      modifies this`lost, repo`services, repo`groups, repo`roles, repo`routeMaps, repo`rules, repo`orgs
      ensures lost >= old(lost) && (r.Ok? <==> lost == old(lost))
      ensures r.Ok? ==> repo.State() == Applied(b, sections, old(repo.State()))
      ensures r.Ok? ==> r.value == Orphans(b, sections, old(repo.services))
      ensures r.Err? ==> FailedApply(b, sections, old(repo.State()), repo.State(), r.error)
    {
      r := ApplyTables(b, sections);
      if r.Err? { return; }
      ghost var s := old(repo.State());
      var ok := ApplyRouteMaps(b, sections);
      if !ok {
        FailedInRouteMaps(b, sections, s, repo.State());
        return Err(AtRouteMaps);
      }
      WholeRouteMaps(b, sections, s, repo.State());
      if Wants(sections, Rules) {
        var done, answered := Send();
        if done { repo.SetAccessRules(b.rules); }
        if !answered { return Err(AtRules); }
      }
      ok := ApplyOrgs(b, sections);
      if !ok { return Err(AtOrgs); }
    }

    /** LPUSH then LTRIM, either of which may fail. */
    method PushImportHistory(e: HistoryEntry) returns (ok: bool)
      modifies this`lost, this`history
      ensures lost >= old(lost) && (ok <==> lost == old(lost))
      ensures ok ==> history == Pushed(old(history), e)
      ensures !ok ==> history == old(history) || history == [e] + old(history) || history == Pushed(old(history), e)
    {
      var pushed, trimmed;
      pushed, ok := Send();
      if pushed { history := [e] + history; }
      if !ok { return; }
      trimmed, ok := Send();
      if trimmed { history := Newest(history); }
    }

    /**
     Rejected bundles leave no trace. An accepted one is snapshotted first and then either fully
     applied, or undone by re-applying the snapshot, or (both writes failing) left inconsistent.
     */
    method Import(b: Bundle, sections: seq<Section>, actor: Option<string>, reason: Reason) returns (r: Outcome)
      modifies this`lost, this`history, this`nextId
      modifies repo`services, repo`groups, repo`roles, repo`routeMaps, repo`rules, repo`orgs
      ensures !r.NotFound?
      ensures r.Rejected? <==> Wants(sections, Rules) && !RulesOk(gw, isUrl, b.rules)
      ensures r.Rejected? ==> r.failures != [] && repo.State() == old(repo.State()) && history == old(history)
      ensures r.HistoryUnavailable? ==> repo.State() == old(repo.State())
      ensures r.Imported? ==> lost == old(lost)
      ensures r.HistoryUnavailable? || r.Compensated? ==> lost > old(lost)
      ensures r.Inconsistent? ==> lost >= old(lost) + 2
      ensures r.Imported? ==> r.pruned == Orphans(b, sections, old(repo.services))
      ensures r.Imported? ==> ImportStep(old(repo.State()), old(history), repo.State(), history, b, sections, reason)
      ensures r.Compensated? || r.Inconsistent? ==> SnapshotPushed(old(repo.State()), old(history), history, reason)
      ensures r.Compensated? ==> Restored(old(repo.State()), repo.State())
      ensures r.Compensated? ==> OnlyLeft(b, sections, old(repo.State()), repo.State())
      ensures r.Compensated? && Restorable(b, sections, old(repo.State())) ==> repo.State() == old(repo.State())
      ensures r == Compensated(AtRules) || r == Compensated(AtOrgs) ==>
                TablesLeft(b, sections, old(repo.State()), repo.State())
    {
      if Wants(sections, Rules) {
        var failures := ValidateOathkeeperRules(gw, isUrl, b.rules);
        if failures != [] {
          return Rejected(failures);
        }
      }
      var snapshot := Export();
      var entry := HistoryEntry(nextId, reason, actor, snapshot);
      nextId := nextId + 1;
      var ok := PushImportHistory(entry);
      if !ok {
        return HistoryUnavailable;
      }
      ghost var before := repo.State();
      var applied := ApplyBundle(b, sections);
      if applied.Ok? {
        return Imported(applied.value);
      }
      r := Compensate(snapshot, b, sections, before, applied.error);
    }

    /** The snapshot applied in full over whatever a failed import left. */
    method Compensate(snapshot: Bundle, ghost b: Bundle, ghost sections: seq<Section>, ghost before: Rbac, at: Stage)
      returns (r: Outcome)
      requires IsSnapshot(snapshot, before) && FailedApply(b, sections, before, repo.State(), at)
      modifies this`lost, repo`services, repo`groups, repo`roles, repo`routeMaps, repo`rules, repo`orgs
      ensures lost >= old(lost) && r == if lost == old(lost) then Compensated(at) else Inconsistent
      ensures r.Compensated? ==> Restored(before, repo.State()) && OnlyLeft(b, sections, before, repo.State())
      ensures r.Compensated? && Restorable(b, sections, before) ==> repo.State() == before
      ensures r == Compensated(AtRules) || r == Compensated(AtOrgs) ==> TablesLeft(b, sections, before, repo.State())
    {
      ghost var broken := repo.State();
      var restored := ApplyBundle(snapshot, []);
      if restored.Err? {
        return Inconsistent;
      }
      SnapshotRestores(snapshot, before, broken);
      CompensationLeavesOnly(snapshot, b, sections, before, broken, at);
      if Restorable(b, sections, before) {
        ComesBack(snapshot, b, sections, before, broken, at);
      }
      if at.AtRules? || at.AtOrgs? {
        AddedKeysSurvive(snapshot, b, sections, before, broken, at);
      }
      return Compensated(at);
    }

    method GetImportHistoryEntry(id: nat) returns (e: Option<HistoryEntry>)
      ensures e.Some? ==> e.value in history && e.value.id == id
      ensures e.None? ==> forall x :: x in history ==> x.id != id
    {
      for i := 0 to |history|
        invariant forall j :: 0 <= j < i ==> history[j].id != id
      {
        if history[i].id == id {
          return Some(history[i]);
        }
      }
      return None;
    }

    /**
     A full import of an entry's snapshot, itself reversible: rejected only when that snapshot's own rules no
     longer pass.
     */
    method Rollback(id: nat, actor: Option<string>) returns (r: Outcome, ghost target: Option<HistoryEntry>)
      modifies this`lost, this`history, this`nextId
      modifies repo`services, repo`groups, repo`roles, repo`routeMaps, repo`rules, repo`orgs
      ensures r.NotFound? <==> forall x :: x in old(history) ==> x.id != id
      ensures r.NotFound? || r.Rejected? ==> repo.State() == old(repo.State()) && history == old(history)
      ensures !r.NotFound? ==> target.Some? && target.value in old(history) && target.value.id == id
      ensures !r.NotFound? ==> (r.Rejected? <==> !RulesOk(gw, isUrl, target.value.bundle.rules))
      ensures r.Imported? ==>
                ImportStep(old(repo.State()), old(history), repo.State(), history, target.value.bundle, [], PreRollback)
      ensures r.Compensated? ==> Restored(old(repo.State()), repo.State())
      ensures r.Compensated? ==> OnlyLeft(target.value.bundle, [], old(repo.State()), repo.State())
      ensures r.Imported? ==> lost == old(lost)
      ensures r.HistoryUnavailable? || r.Compensated? ==> lost > old(lost)
      ensures r.Inconsistent? ==> lost >= old(lost) + 2
    {
      var entry := GetImportHistoryEntry(id);
      target := entry;
      if entry.None? {
        return NotFound, target;
      }
      r := Import(entry.value.bundle, [], actor, PreRollback);
    }
  }
}
