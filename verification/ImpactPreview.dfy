/**
 Impact preview of a proposed configuration change: which users and services it may touch, which request
 tuples are sampled, and which decisions flip. The blast radius is measured against the resolver.
 */
module ImpactPreview {
  import opened Prelude
  import opened Text
  import opened GroupList
  import opened RbacStore
  import opened Power
  import opened Resolver

  datatype Dataset = Dataset(
    membership: map<string, seq<string>>, groups: map<string, GroupDef>,
    roles: map<string, RoleMap>, routeMaps: map<string, seq<RouteRule>>)

  /** The parts of the configuration that replace their current counterparts, entry by entry. */
  datatype Proposed = Proposed(
    groups: map<string, GroupDef>, roles: map<string, RoleMap>,
    routeMaps: map<string, seq<RouteRule>>, membership: map<string, seq<string>>)

  function Merged(cur: Dataset, p: Proposed): Dataset {
    Dataset(cur.membership + p.membership, cur.groups + p.groups, cur.roles + p.roles, cur.routeMaps + p.routeMaps)
  }

  /** The groups a dataset lists for an address. */
  function Listed(m: map<string, seq<string>>, email: string): seq<string> {
    if email in m then m[email] else []
  }

  /** The groups that count for it: the base group for an address that is not listed. */
  function GroupsOf(m: map<string, seq<string>>, email: string): seq<string> {
    if email in m then m[email] else [BASE_GROUP]
  }

  function ServicesOf(groups: map<string, GroupDef>, g: string): set<string> {
    if g in groups then groups[g].Keys else {}
  }

  // ── Blast radius ──────────────────────────────────────────────────────────

  predicate Changed(cur: Dataset, p: Proposed, g: string) {
    g in p.groups && !(g in cur.groups && cur.groups[g] == p.groups[g])
  }

  predicate Renamed(p: Proposed, svc: string) {
    svc in p.roles || svc in p.routeMaps
  }

  /** An edited user, a member of a changed group, or somebody whose groups bind a service with new roles or routes. */
  ghost predicate UserAffected(cur: Dataset, p: Proposed, email: string) {
    || email in p.membership
    || (email in cur.membership && exists g :: g in cur.membership[email] && Changed(cur, p, g))
    || (email in cur.membership && (p.roles != map[] || p.routeMaps != map[])
        && exists g :: g in cur.membership[email] && BindsRenamed(cur, p, g))
  }

  predicate BindsRenamed(cur: Dataset, p: Proposed, g: string) {
    exists svc :: svc in ServicesOf(cur.groups, g) && (svc == GLOBAL || Renamed(p, svc))
  }

  /**
   A service named by a changed group before or after, one with new roles or routes, or one reached by an edited
   user.
   */
  ghost predicate ServiceAffected(cur: Dataset, p: Proposed, svc: string) {
    && svc != GLOBAL
    && (|| Renamed(p, svc)
        || (exists g :: Changed(cur, p, g) && (svc in ServicesOf(cur.groups, g) || svc in p.groups[g]))
        || (exists email :: email in p.membership && EditReaches(cur, p, email, svc)))
  }

  ghost predicate EditReaches(cur: Dataset, p: Proposed, email: string, svc: string)
    requires email in p.membership
  {
    exists g :: (g in p.membership[email] || g in Listed(cur.membership, email)) && svc in ServicesOf(cur.groups, g)
  }

  method AffectedBy(cur: Dataset, p: Proposed) returns (users: set<string>, services: set<string>)
    ensures forall email :: email in users <==> UserAffected(cur, p, email)
    ensures forall svc :: svc in services <==> ServiceAffected(cur, p, svc)
  {
    var changed;
    changed, services := ChangedGroups(cur, p);
    services := services + p.roles.Keys + p.routeMaps.Keys;
    users := p.membership.Keys;
    var members := MembersWhere(cur, (g: string) => g in changed);
    users := users + members;
    var edited := EditedServices(cur, p);
    services := services + edited;
    if p.roles != map[] || p.routeMaps != map[] {
      var reaching := MembersWhere(cur, (g: string) => BindsRenamed(cur, p, g));
      users := users + reaching;
    }
    services := services - {GLOBAL};
  }

  method ChangedGroups(cur: Dataset, p: Proposed) returns (changed: set<string>, services: set<string>)
    ensures forall g :: g in changed <==> Changed(cur, p, g)
    ensures forall svc :: svc in services <==>
              exists g :: Changed(cur, p, g) && (svc in ServicesOf(cur.groups, g) || svc in p.groups[g])
  {
    changed, services := {}, {};
    var todo := p.groups.Keys;
    while todo != {}
      invariant todo <= p.groups.Keys
      invariant forall g :: g in changed <==> Changed(cur, p, g) && g !in todo
      invariant forall svc :: svc in services <==>
                  exists g :: Changed(cur, p, g) && g !in todo
                      && (svc in ServicesOf(cur.groups, g) || svc in p.groups[g])
    {
      var g :| g in todo;
      todo := todo - {g};
      if g in cur.groups && cur.groups[g] == p.groups[g] {
        continue;
      }
      changed := changed + {g};
      services := services + p.groups[g].Keys + ServicesOf(cur.groups, g);
    }
  }

  method MembersWhere(cur: Dataset, hit: string -> bool) returns (users: set<string>)
    ensures forall email :: email in users <==>
            email in cur.membership && exists g :: g in cur.membership[email] && hit(g)
  {
    users := {};
    var todo := cur.membership.Keys;
    while todo != {}
      invariant todo <= cur.membership.Keys
      invariant forall email :: email in users <==>
                  email in cur.membership && email !in todo && exists g :: g in cur.membership[email] && hit(g)
    {
      var email :| email in todo;
      if exists g :: g in cur.membership[email] && hit(g) {
        users := users + {email};
      }
      todo := todo - {email};
    }
  }

  method EditedServices(cur: Dataset, p: Proposed) returns (services: set<string>)
    ensures forall svc :: svc in services <==> exists email :: email in p.membership && EditReaches(cur, p, email, svc)
  {
    services := {};
    var todo := p.membership.Keys;
    while todo != {}
      invariant todo <= p.membership.Keys
      invariant forall svc :: svc in services <==>
                  exists email :: email in p.membership && email !in todo && EditReaches(cur, p, email, svc)
    {
      var email :| email in todo;
      var both := ToSet(p.membership[email]) + ToSet(Listed(cur.membership, email));
      var reached := set g, svc | g in both && svc in ServicesOf(cur.groups, g) :: svc;
      assert forall svc :: svc in reached <==> EditReaches(cur, p, email, svc);
      services := services + reached;
      todo := todo - {email};
    }
  }

  // ── The user side of the blast radius is complete ─────────────────────────

  ghost predicate SamePermissions(a: Dataset, b: Dataset, email: string, app: string) {
    forall perm :: May(GroupsOf(a.membership, email), a.groups, a.roles, app, perm)
              <==> May(GroupsOf(b.membership, email), b.groups, b.roles, app, perm)
  }

  /** An unaffected user keeps its groups and what they bind. */
  lemma SameBindings(cur: Dataset, p: Proposed, email: string)
    requires email in cur.membership && !UserAffected(cur, p, email)
    ensures var next := Merged(cur, p);
            && GroupsOf(next.membership, email) == GroupsOf(cur.membership, email)
            && forall g, svc :: g in GroupsOf(cur.membership, email) ==>
                 Bound(next.groups, g, svc) == Bound(cur.groups, g, svc)
  {
    forall g | g in cur.membership[email] ensures g in p.groups ==> g in cur.groups && cur.groups[g] == p.groups[g] {
      assert !Changed(cur, p, g);
    }
  }

  /**
   A listed user outside the affected users has the same permissions in every application before and
   after, provided the global role map is not among the proposed ones.
   */
  lemma UnaffectedUserKeepsPermissions(cur: Dataset, p: Proposed, email: string, app: string)
    requires email in cur.membership && !UserAffected(cur, p, email)
    requires GLOBAL !in p.roles
    ensures SamePermissions(cur, Merged(cur, p), email, app)
  {
    var next, gs := Merged(cur, p), GroupsOf(cur.membership, email);
    SameBindings(cur, p, email);
    forall role ensures HasRole(gs, next.groups, app, role) <==> HasRole(gs, cur.groups, app, role) {
    }
    if app in p.roles {
      HoldsNothingRenamed(cur, p, email, app);
    } else {
      MapsUntouched(cur, p, app);
    }
  }

  /** An unaffected user holds no role in an application with new roles, before or after. */
  lemma HoldsNothingRenamed(cur: Dataset, p: Proposed, email: string, app: string)
    requires email in cur.membership && !UserAffected(cur, p, email) && app in p.roles
    ensures forall role :: !HasRole(GroupsOf(cur.membership, email), cur.groups, app, role)
  {
    forall g | g in cur.membership[email]
      ensures Bound(cur.groups, g, GLOBAL) == [] && Bound(cur.groups, g, app) == []
    {
      assert !BindsRenamed(cur, p, g);
      assert Renamed(p, app);
    }
  }

  /** Where neither the global nor the application's role map is proposed, roles keep their meaning. */
  lemma MapsUntouched(cur: Dataset, p: Proposed, app: string)
    requires GLOBAL !in p.roles && app !in p.roles
    ensures forall role, perm ::
              RoleGives(Merged(cur, p).roles, app, role, perm) <==> RoleGives(cur.roles, app, role, perm)
  {
    assert forall role :: Perms(Merged(cur, p).roles, GLOBAL, role) == Perms(cur.roles, GLOBAL, role);
    assert forall role :: Perms(Merged(cur, p).roles, app, role) == Perms(cur.roles, app, role);
  }

  /** The user side fails for some configuration whenever the global role map is proposed, and only then. */
  lemma UserSideExactly(p: Proposed)
    ensures (forall cur: Dataset, email, app :: email in cur.membership && !UserAffected(cur, p, email) ==>
               SamePermissions(cur, Merged(cur, p), email, app))
            <==> GLOBAL !in p.roles
  {
    if GLOBAL !in p.roles {
      forall cur: Dataset, email, app | email in cur.membership && !UserAffected(cur, p, email)
        ensures SamePermissions(cur, Merged(cur, p), email, app)
      {
        UnaffectedUserKeepsPermissions(cur, p, email, app);
      }
    } else {
      var cur, email, app, perm := GlobalRolesSlipThrough(p);
      assert !SamePermissions(cur, Merged(cur, p), email, app);
    }
  }

  /**
   A user whose only role name is defined in the global map alone: proposing that map without it takes its
   permission away unseen.
   */
  lemma GlobalRolesSlipThrough(p: Proposed) returns (cur: Dataset, email: string, app: string, perm: string)
    requires GLOBAL in p.roles
    ensures email in cur.membership && !UserAffected(cur, p, email)
    ensures May(GroupsOf(cur.membership, email), cur.groups, cur.roles, app, perm)
    ensures var next := Merged(cur, p); !May(GroupsOf(next.membership, email), next.groups, next.roles, app, perm)
  {
    var g, role := Longer(p.groups.Keys), Longer(p.roles[GLOBAL].Keys);
    app := Longer(p.roles.Keys + p.routeMaps.Keys + {GLOBAL});
    email, perm := Longer(p.membership.Keys), "read";
    cur := OneBinding(email, g, app, role, perm);
    OneBindingUnaffected(p, email, g, app, role, perm);
    OneBindingBefore(email, g, app, role, perm);
    OneBindingAfter(p, email, g, app, role, perm);
  }

  /** One user, one group, one application role, defined in the global map only. */
  function OneBinding(email: string, g: string, app: string, role: string, perm: string): Dataset {
    Dataset(map[email := [g]], map[g := map[app := [role]]], map[GLOBAL := map[role := [perm]]], map[])
  }

  lemma OneBindingUnaffected(p: Proposed, email: string, g: string, app: string, role: string, perm: string)
    requires email !in p.membership && g !in p.groups && app != GLOBAL && !Renamed(p, app)
    ensures !UserAffected(OneBinding(email, g, app, role, perm), p, email)
  {
    var cur := OneBinding(email, g, app, role, perm);
    assert ServicesOf(cur.groups, g) == {app};
    assert !Changed(cur, p, g) && !BindsRenamed(cur, p, g);
  }

  lemma OneBindingBefore(email: string, g: string, app: string, role: string, perm: string)
    ensures var cur := OneBinding(email, g, app, role, perm);
            May(GroupsOf(cur.membership, email), cur.groups, cur.roles, app, perm)
  {
    var cur := OneBinding(email, g, app, role, perm);
    assert role in Bound(cur.groups, g, app);
    assert HasRole([g], cur.groups, app, role) && RoleGives(cur.roles, app, role, perm);
  }

  lemma OneBindingAfter(p: Proposed, email: string, g: string, app: string, role: string, perm: string)
    requires GLOBAL in p.roles && role !in p.roles[GLOBAL]
    requires email !in p.membership && g !in p.groups && app != GLOBAL && !Renamed(p, app)
    ensures var next := Merged(OneBinding(email, g, app, role, perm), p);
            !May(GroupsOf(next.membership, email), next.groups, next.roles, app, perm)
  {
    var next := Merged(OneBinding(email, g, app, role, perm), p);
    assert GroupsOf(next.membership, email) == [g];
    assert Bound(next.groups, g, app) == [role] && Bound(next.groups, g, GLOBAL) == [];
    assert Perms(next.roles, GLOBAL, role) == [] && Perms(next.roles, app, role) == [];
    assert forall r :: HasRole([g], next.groups, app, r) ==> r == role;
  }

  // ── The service side ──────────────────────────────────────────────────────

  /** A member of these groups holds `role` on one service. */
  predicate HoldsOn(gs: seq<string>, groups: map<string, GroupDef>, svc: string, role: string) {
    exists g :: g in gs && role in Bound(groups, g, svc)
  }

  /** The roles a user holds on one service are the same before and after. */
  ghost predicate SameRolesOn(cur: Dataset, p: Proposed, email: string, svc: string) {
    var next := Merged(cur, p);
    forall role ::
      HoldsOn(GroupsOf(cur.membership, email), cur.groups, svc, role)
      <==> HoldsOn(GroupsOf(next.membership, email), next.groups, svc, role)
  }

  lemma RolesSplit(gs: seq<string>, groups: map<string, GroupDef>, app: string, role: string)
    ensures HasRole(gs, groups, app, role) <==> HoldsOn(gs, groups, GLOBAL, role) || HoldsOn(gs, groups, app, role)
  {
  }

  /** A group of an edited user binds nothing in an unaffected application, before or after. */
  lemma EditedGroupsBindNothing(cur: Dataset, p: Proposed, email: string, app: string, g: string)
    requires app != GLOBAL && !ServiceAffected(cur, p, app) && email in p.membership
    requires g in p.membership[email] || g in Listed(cur.membership, email)
    ensures Bound(cur.groups, g, app) == [] && Bound(Merged(cur, p).groups, g, app) == []
  {
    assert !EditReaches(cur, p, email, app);
    assert app !in ServicesOf(cur.groups, g);
    if g in p.groups && app in p.groups[g] {
      assert Changed(cur, p, g);
    }
  }

  /** Any group binds the same in an unaffected application. */
  lemma GroupsBindTheSame(cur: Dataset, p: Proposed, app: string, g: string)
    requires app != GLOBAL && !ServiceAffected(cur, p, app)
    ensures Bound(cur.groups, g, app) == Bound(Merged(cur, p).groups, g, app)
  {
    if Changed(cur, p, g) {
      assert app !in ServicesOf(cur.groups, g) && app !in p.groups[g];
    }
  }

  /** An address the edit lists for the first time: until now it counted as a member of the base group. */
  predicate Newcomer(cur: Dataset, p: Proposed, email: string) {
    email in p.membership && email !in cur.membership
  }

  /** On an unaffected application itself nobody's roles change, save for newcomers. */
  lemma SameRolesOnUnaffected(cur: Dataset, p: Proposed, email: string, app: string)
    requires app != GLOBAL && !ServiceAffected(cur, p, app) && !Newcomer(cur, p, email)
    ensures SameRolesOn(cur, p, email, app)
  {
    if email in p.membership {
      forall g | g in GroupsOf(cur.membership, email) || g in GroupsOf(Merged(cur, p).membership, email)
        ensures Bound(cur.groups, g, app) == [] && Bound(Merged(cur, p).groups, g, app) == []
      {
        EditedGroupsBindNothing(cur, p, email, app, g);
      }
    } else {
      forall g ensures Bound(cur.groups, g, app) == Bound(Merged(cur, p).groups, g, app) {
        GroupsBindTheSame(cur, p, app, g);
      }
    }
  }

  /** A newcomer loses there what the base group binds, and gains nothing. */
  lemma NewcomerOnUnaffected(cur: Dataset, p: Proposed, email: string, app: string, role: string)
    requires app != GLOBAL && !ServiceAffected(cur, p, app) && Newcomer(cur, p, email)
    ensures !HoldsOn(GroupsOf(Merged(cur, p).membership, email), Merged(cur, p).groups, app, role)
    ensures HoldsOn(GroupsOf(cur.membership, email), cur.groups, app, role)
            <==> role in Bound(cur.groups, BASE_GROUP, app)
  {
    forall g | g in p.membership[email] ensures Bound(Merged(cur, p).groups, g, app) == [] {
      EditedGroupsBindNothing(cur, p, email, app, g);
    }
    assert BASE_GROUP in GroupsOf(cur.membership, email);
  }

  /** What a newcomer loses there it still holds globally. */
  ghost predicate BaseCovered(cur: Dataset, p: Proposed, email: string, app: string) {
    forall role :: role in Bound(cur.groups, BASE_GROUP, app) ==>
      HoldsOn(GroupsOf(Merged(cur, p).membership, email), Merged(cur, p).groups, GLOBAL, role)
  }

  /** A role of an unaffected application gives the same permissions before and after. */
  lemma SameRoleMeaning(cur: Dataset, p: Proposed, app: string)
    requires app != GLOBAL && !ServiceAffected(cur, p, app) && GLOBAL !in p.roles
    ensures forall role, perm ::
              RoleGives(Merged(cur, p).roles, app, role, perm) <==> RoleGives(cur.roles, app, role, perm)
  {
    assert !Renamed(p, app);
    MapsUntouched(cur, p, app);
  }

  /**
   An application outside the affected services is unchanged for every user, edited ones included, whose
   global roles stay the same and cover what a newcomer loses, provided the global role map is not proposed.
   */
  lemma UnaffectedServiceUnchanged(cur: Dataset, p: Proposed, email: string, app: string)
    requires app != GLOBAL && !ServiceAffected(cur, p, app)
    requires GLOBAL !in p.roles && SameRolesOn(cur, p, email, GLOBAL)
    requires Newcomer(cur, p, email) ==> BaseCovered(cur, p, email, app)
    ensures SamePermissions(cur, Merged(cur, p), email, app)
  {
    var next := Merged(cur, p);
    var old', new' := GroupsOf(cur.membership, email), GroupsOf(next.membership, email);
    SameRoleMeaning(cur, p, app);
    forall role ensures HasRole(old', cur.groups, app, role) <==> HasRole(new', next.groups, app, role) {
      RolesSplit(old', cur.groups, app, role);
      RolesSplit(new', next.groups, app, role);
      assert HoldsOn(old', cur.groups, GLOBAL, role) <==> HoldsOn(new', next.groups, GLOBAL, role);
      if Newcomer(cur, p, email) {
        NewcomerOnUnaffected(cur, p, email, app, role);
      } else {
        SameRolesOnUnaffected(cur, p, email, app);
      }
    }
  }

  /** No application outside the affected services changes for anybody, whatever the role maps say. */
  ghost predicate ServiceSideComplete(cur: Dataset, p: Proposed) {
    forall roles, email, app :: app != GLOBAL && !ServiceAffected(cur.(roles := roles), p, app) ==>
      SamePermissions(cur.(roles := roles), Merged(cur.(roles := roles), p), email, app)
  }

  /** Every newcomer holds globally what the base group gives on applications that are not listed. */
  ghost predicate NewcomersCovered(cur: Dataset, p: Proposed) {
    forall email, app :: Newcomer(cur, p, email) && app != GLOBAL && !ServiceAffected(cur, p, app) ==>
      BaseCovered(cur, p, email, app)
  }

  /**
   Exactly when the service side is complete: with no global role map proposed, nobody's global roles
   may change, and newcomers may lose nothing by leaving the base group.
   */
  lemma ServiceSideExactly(cur: Dataset, p: Proposed)
    requires GLOBAL !in p.roles
    ensures ServiceSideComplete(cur, p) <==>
              (forall email :: SameRolesOn(cur, p, email, GLOBAL)) && NewcomersCovered(cur, p)
  {
    if (forall email :: SameRolesOn(cur, p, email, GLOBAL)) && NewcomersCovered(cur, p) {
      forall roles, email, app | app != GLOBAL && !ServiceAffected(cur.(roles := roles), p, app)
        ensures SamePermissions(cur.(roles := roles), Merged(cur.(roles := roles), p), email, app)
      {
        AnyRolesUnchanged(cur, p, roles, email, app);
      }
    } else if email :| !SameRolesOn(cur, p, email, GLOBAL) {
      var roles, app := GlobalRolesReachUnlisted(cur, p, email);
    } else {
      var email, app :| Newcomer(cur, p, email) && app != GLOBAL && !ServiceAffected(cur, p, app)
                        && !BaseCovered(cur, p, email, app);
      var roles := NewcomerLoses(cur, p, email, app);
    }
  }

  /** The role maps play no part in who is affected, and in who holds what. */
  lemma RolesAside(cur: Dataset, p: Proposed, roles: map<string, RoleMap>, email: string, app: string)
    ensures var c := cur.(roles := roles);
            && (ServiceAffected(c, p, app) <==> ServiceAffected(cur, p, app))
            && (SameRolesOn(c, p, email, GLOBAL) <==> SameRolesOn(cur, p, email, GLOBAL))
            && (BaseCovered(c, p, email, app) <==> BaseCovered(cur, p, email, app))
  {
    var c := cur.(roles := roles);
    assert forall g :: Changed(c, p, g) <==> Changed(cur, p, g);
    assert forall e :: e in p.membership ==> (EditReaches(c, p, e, app) <==> EditReaches(cur, p, e, app));
  }

  lemma AnyRolesUnchanged(cur: Dataset, p: Proposed, roles: map<string, RoleMap>, email: string, app: string)
    requires GLOBAL !in p.roles && SameRolesOn(cur, p, email, GLOBAL) && NewcomersCovered(cur, p)
    requires app != GLOBAL && !ServiceAffected(cur.(roles := roles), p, app)
    ensures SamePermissions(cur.(roles := roles), Merged(cur.(roles := roles), p), email, app)
  {
    RolesAside(cur, p, roles, email, app);
    UnaffectedServiceUnchanged(cur.(roles := roles), p, email, app);
  }

  /** A role only the base group gave, on an application nobody lists, matters as soon as the map defines it. */
  lemma NewcomerLoses(cur: Dataset, p: Proposed, email: string, app: string) returns (roles: map<string, RoleMap>)
    requires GLOBAL !in p.roles && Newcomer(cur, p, email) && app != GLOBAL && !ServiceAffected(cur, p, app)
    requires !BaseCovered(cur, p, email, app)
    ensures !ServiceAffected(cur.(roles := roles), p, app)
    ensures !SamePermissions(cur.(roles := roles), Merged(cur.(roles := roles), p), email, app)
  {
    var role :| role in Bound(cur.groups, BASE_GROUP, app)
      && !HoldsOn(GroupsOf(Merged(cur, p).membership, email), Merged(cur, p).groups, GLOBAL, role);
    roles := map[app := map[role := ["read"]]];
    RolesAside(cur, p, roles, email, app);
    var c := cur.(roles := roles);
    NewcomerOnUnaffected(c, p, email, app, role);
    assert !Renamed(p, app);
    OwnRoleDecides(GroupsOf(c.membership, email), c.groups, c.roles, app, role);
    OwnRoleDecides(GroupsOf(Merged(c, p).membership, email), Merged(c, p).groups, Merged(c, p).roles, app, role);
  }

  /** Where only the application's own map gives `read`, through one role, it is held exactly through that role. */
  lemma OwnRoleDecides(gs: seq<string>, groups: map<string, GroupDef>, roles: map<string, RoleMap>, app: string,
      role: string)
    requires GLOBAL !in roles && app in roles && roles[app] == map[role := ["read"]]
    ensures May(gs, groups, roles, app, "read") <==> HoldsOn(gs, groups, GLOBAL, role) || HoldsOn(gs, groups, app, role)
  {
    assert forall r :: RoleGives(roles, app, r, "read") <==> r == role;
    RolesSplit(gs, groups, app, role);
  }

  /** Every service some group of either configuration names. */
  function AllNamed(groups: map<string, GroupDef>): set<string> {
    set g, svc | g in groups && svc in groups[g] :: svc
  }

  /** Somebody's global roles change: an application nobody has heard of changes with them. */
  lemma GlobalRolesReachUnlisted(cur: Dataset, p: Proposed, email: string)
    returns (roles: map<string, RoleMap>, app: string)
    requires GLOBAL !in p.roles && !SameRolesOn(cur, p, email, GLOBAL)
    ensures app != GLOBAL && !ServiceAffected(cur.(roles := roles), p, app)
    ensures !SamePermissions(cur.(roles := roles), Merged(cur.(roles := roles), p), email, app)
  {
    var next := Merged(cur, p);
    var role :| HoldsOn(GroupsOf(cur.membership, email), cur.groups, GLOBAL, role)
             != HoldsOn(GroupsOf(next.membership, email), next.groups, GLOBAL, role);
    app := Longer(AllNamed(cur.groups) + AllNamed(p.groups) + p.roles.Keys + p.routeMaps.Keys + {GLOBAL});
    roles := map[GLOBAL := map[role := ["read"]]];
    NobodyNames(cur.(roles := roles), p, app);
    MovedRoleMoves(cur.(roles := roles), p, email, app, role);
  }

  lemma NobodyNames(cur: Dataset, p: Proposed, app: string)
    requires app !in AllNamed(cur.groups) + AllNamed(p.groups) + p.roles.Keys + p.routeMaps.Keys
    ensures !ServiceAffected(cur, p, app) && app !in AllNamed(Merged(cur, p).groups)
  {
    assert forall g :: app !in ServicesOf(cur.groups, g);
    assert AllNamed(Merged(cur, p).groups) <= AllNamed(cur.groups) + AllNamed(p.groups);
  }

  lemma MovedRoleMoves(cur: Dataset, p: Proposed, email: string, app: string, role: string)
    requires GLOBAL !in p.roles && app !in p.roles && app != GLOBAL
    requires cur.roles == map[GLOBAL := map[role := ["read"]]]
    requires app !in AllNamed(cur.groups) && app !in AllNamed(Merged(cur, p).groups)
    requires var next := Merged(cur, p);
             HoldsOn(GroupsOf(cur.membership, email), cur.groups, GLOBAL, role)
             != HoldsOn(GroupsOf(next.membership, email), next.groups, GLOBAL, role)
    ensures !SamePermissions(cur, Merged(cur, p), email, app)
  {
    var next := Merged(cur, p);
    UnheardOf(GroupsOf(cur.membership, email), cur.groups, cur.roles, app, role);
    UnheardOf(GroupsOf(next.membership, email), next.groups, next.roles, app, role);
  }

  /** On an application no group names, `read` is held exactly through the one global role that gives it. */
  lemma UnheardOf(gs: seq<string>, groups: map<string, GroupDef>, roles: map<string, RoleMap>, app: string,
      role: string)
    requires app !in AllNamed(groups) && app !in roles
    requires GLOBAL in roles && roles[GLOBAL] == map[role := ["read"]]
    ensures May(gs, groups, roles, app, "read") <==> HoldsOn(gs, groups, GLOBAL, role)
  {
    assert forall g :: Bound(groups, g, app) == [];
    assert forall r :: RoleGives(roles, app, r, "read") <==> r == role;
    RolesSplit(gs, groups, app, role);
  }

  /**
   The guard on the changed entries alone: what no changed group and no edited membership binds globally cannot
   move, nor can what a newcomer leaves with the base group.
   */
  lemma NoGlobalBindingNoGlobalMove(cur: Dataset, p: Proposed, email: string)
    requires forall g :: Changed(cur, p, g) ==> GLOBAL !in ServicesOf(cur.groups, g) && GLOBAL !in p.groups[g]
    requires email in p.membership ==> !EditReaches(cur, p, email, GLOBAL)
    requires Newcomer(cur, p, email) ==> GLOBAL !in ServicesOf(cur.groups, BASE_GROUP)
    ensures SameRolesOn(cur, p, email, GLOBAL)
  {
    var next := Merged(cur, p);
    forall g ensures Bound(cur.groups, g, GLOBAL) == Bound(next.groups, g, GLOBAL) {
      if Changed(cur, p, g) {
        assert GLOBAL !in ServicesOf(cur.groups, g);
      }
    }
    if email in p.membership {
      assert forall g :: g in p.membership[email] || g in Listed(cur.membership, email) ==>
        GLOBAL !in ServicesOf(cur.groups, g);
    }
  }

  /**
   Why the condition: giving a group a global role changes every application, and none but the named services is
   listed.
   */
  lemma GlobalEditReachesUnlistedApps(email: string, g: string, role: string, perm: string, app: string)
    requires app != GLOBAL
    ensures var cur := Dataset(map[email := [g]], map[g := map[]], map[GLOBAL := map[role := [perm]]], map[]);
            var p := Proposed(map[g := map[GLOBAL := [role]]], map[], map[], map[]);
            && !ServiceAffected(cur, p, app) && GLOBAL !in p.roles
            && !SamePermissions(cur, Merged(cur, p), email, app)
  {
    var cur := Dataset(map[email := [g]], map[g := map[]], map[GLOBAL := map[role := [perm]]], map[]);
    var p := Proposed(map[g := map[GLOBAL := [role]]], map[], map[], map[]);
    var next := Merged(cur, p);
    assert Bound(cur.groups, g, GLOBAL) == [] && Bound(cur.groups, g, app) == [];
    assert forall r :: !HasRole([g], cur.groups, app, r);
    assert role in Bound(next.groups, g, GLOBAL) && HasRole([g], next.groups, app, role);
    assert RoleGives(next.roles, app, role, perm);
    assert May(GroupsOf(next.membership, email), next.groups, next.roles, app, perm);
    assert !May(GroupsOf(cur.membership, email), cur.groups, cur.roles, app, perm);
  }

  // ── Sampling ──────────────────────────────────────────────────────────────

  const AUDIT_SAMPLE_LIMIT := 300
  const TOTAL_SAMPLE_LIMIT := 600

  datatype Tuple = Tuple(email: string, action: string, path: string)

  function Key(t: Tuple): string {
    t.email + "|" + t.action + "|" + t.path
  }

  ghost predicate DistinctKeys(list: seq<Tuple>) {
    forall i, j :: 0 <= i < j < |list| ==> Key(list[i]) != Key(list[j])
  }

  ghost predicate HasKey(list: seq<Tuple>, key: string) {
    exists i :: 0 <= i < |list| && Key(list[i]) == key
  }

  class Sampler {
    var seen: set<string>
    var list: seq<Tuple>

    ghost predicate Valid()
      reads this
    {
      && DistinctKeys(list) && |list| <= TOTAL_SAMPLE_LIMIT
      && forall key :: key in seen <==> HasKey(list, key)
    }

    constructor ()
      ensures Valid() && list == []
    {
      seen, list := {}, [];
    }

    method Push(t: Tuple)
      requires Valid()
      modifies this
      ensures Valid()
      ensures list == if HasKey(old(list), Key(t)) || |old(list)| >= TOTAL_SAMPLE_LIMIT then old(list)
              else old(list) + [t]
    {
      if Key(t) in seen || |list| >= TOTAL_SAMPLE_LIMIT {
        return;
      }
      seen := seen + {Key(t)};
      list := list + [t];
      assert list[|list| - 1] == t;
      assert forall key :: HasKey(list, key) <==> HasKey(old(list), key) || key == Key(t) by {
        forall key | HasKey(old(list), key) ensures HasKey(list, key) {
          var i :| 0 <= i < |old(list)| && Key(old(list)[i]) == key;
          assert list[i] == old(list)[i];
        }
      }
    }

    /** Push, and say whether the list grew. */
    method Offer(t: Tuple) returns (grew: bool)
      requires Valid()
      modifies this
      ensures Valid() && old(list) <= list
      ensures |list| == |old(list)| + if grew then 1 else 0
      ensures HasKey(list, Key(t)) || |list| == TOTAL_SAMPLE_LIMIT
      ensures forall key :: HasKey(old(list), key) ==> HasKey(list, key)
      ensures forall u :: u in list ==> u in old(list) || u == t
    {
      var before := |list|;
      Push(t);
      grew := |list| > before;
      if grew {
        assert list[|list| - 1] == t;
      }
      forall key | HasKey(old(list), key) ensures HasKey(list, key) {
        var i :| 0 <= i < |old(list)| && Key(old(list)[i]) == key;
        assert list[i] == old(list)[i];
      }
    }
  }

  /** The probe a declared route stands for; how a pattern becomes a concrete path does not matter here. */
  datatype Route = Route(service: string, verb: string, path: string)

  function ProbeOf(r: Route, email: string): Tuple {
    Tuple(email, r.verb, r.path)
  }

  /**
   Real traffic first, then every declared route of an affected service for every affected user. The
   sample never holds a key twice, stays within its limits, contains nothing else, and misses no probe
   unless it is full. Unusable audit events arrive as None.
   */
  method SampleTuples(audit: seq<Option<Tuple>>, routes: seq<Route>, users: seq<string>)
    returns (list: seq<Tuple>, auditCount: nat, syntheticCount: nat)
    ensures DistinctKeys(list) && |list| <= TOTAL_SAMPLE_LIMIT
    ensures auditCount <= AUDIT_SAMPLE_LIMIT && |list| == auditCount + syntheticCount
    ensures auditCount <= 300 && |list| <= 600
    ensures forall t :: t in list ==> Some(t) in audit || exists r, u :: r in routes && u in users && t == ProbeOf(r, u)
    ensures |list| < TOTAL_SAMPLE_LIMIT ==> forall r, u :: r in routes && u in users ==>
            HasKey(list, Key(ProbeOf(r, u)))
    ensures |list| < TOTAL_SAMPLE_LIMIT && auditCount < AUDIT_SAMPLE_LIMIT ==>
              forall t :: Some(t) in audit ==> HasKey(list, Key(t))
  {
    var sampler := new Sampler();
    auditCount, syntheticCount := 0, 0;
    var i := 0;
    while i < |audit|
      invariant 0 <= i <= |audit| && sampler.Valid() && fresh(sampler)
      invariant |sampler.list| == auditCount <= AUDIT_SAMPLE_LIMIT
      invariant forall t :: t in sampler.list ==> Some(t) in audit
      invariant auditCount < AUDIT_SAMPLE_LIMIT ==> forall k :: 0 <= k < i && audit[k].Some? ==>
                HasKey(sampler.list, Key(audit[k].value))
    {
      if audit[i].None? {
        i := i + 1;
        continue;
      }
      if auditCount >= AUDIT_SAMPLE_LIMIT {
        break;
      }
      var grew := sampler.Offer(audit[i].value);
      if grew { auditCount := auditCount + 1; }
      i := i + 1;
    }
    ghost var traffic := sampler.list;
    for r := 0 to |routes|
      invariant sampler.Valid() && fresh(sampler) && |sampler.list| == auditCount + syntheticCount
      invariant forall key :: HasKey(traffic, key) ==> HasKey(sampler.list, key)
      invariant forall t :: t in sampler.list ==>
                Some(t) in audit || exists r, u :: r in routes && u in users && t == ProbeOf(r, u)
      invariant |sampler.list| < TOTAL_SAMPLE_LIMIT ==>
                  forall k, u :: 0 <= k < r && u in users ==> HasKey(sampler.list, Key(ProbeOf(routes[k], u)))
    {
      for u := 0 to |users|
        invariant sampler.Valid() && fresh(sampler) && |sampler.list| == auditCount + syntheticCount
        invariant forall key :: HasKey(traffic, key) ==> HasKey(sampler.list, key)
        invariant forall t :: t in sampler.list ==>
                  Some(t) in audit || exists r, u :: r in routes && u in users && t == ProbeOf(r, u)
        invariant |sampler.list| < TOTAL_SAMPLE_LIMIT ==>
                    forall k, v :: 0 <= k < r && v in users ==> HasKey(sampler.list, Key(ProbeOf(routes[k], v)))
        invariant |sampler.list| < TOTAL_SAMPLE_LIMIT ==>
                    forall v :: 0 <= v < u ==> HasKey(sampler.list, Key(ProbeOf(routes[r], users[v])))
      {
        assert routes[r] in routes && users[u] in users;
        var grew := sampler.Offer(ProbeOf(routes[r], users[u]));
        if grew { syntheticCount := syntheticCount + 1; }
      }
    }
    list := sampler.list;
  }

  function RulesOf(d: Dataset, svc: string): seq<RouteRule> {
    if svc in d.routeMaps then d.routeMaps[svc] else []
  }

  function RoutesOf(rules: seq<RouteRule>, svc: string, probe: string -> string): (routes: seq<Route>)
    ensures |routes| == |rules| && forall i :: 0 <= i < |rules| ==>
            routes[i] == Route(svc, rules[i].verb, probe(rules[i].path))
  {
    seq(|rules|, i requires 0 <= i < |rules| => Route(svc, rules[i].verb, probe(rules[i].path)))
  }

  predicate Declares(cur: Dataset, next: Dataset, svc: string, rule: RouteRule) {
    rule in RulesOf(cur, svc) || rule in RulesOf(next, svc)
  }

  /** What the affected services declare now or would declare, each pattern turned into one probe path. */
  method DeclaredRoutes(cur: Dataset, next: Dataset, services: seq<string>,
      probe: string -> string) returns (routes: seq<Route>)
    ensures forall svc, rule :: svc in services && Declares(cur, next, svc, rule) ==>
            Route(svc, rule.verb, probe(rule.path)) in routes
    ensures forall r :: r in routes ==> r.service in services
  {
    routes := [];
    for i := 0 to |services|
      invariant forall k, rule :: 0 <= k < i && Declares(cur, next, services[k], rule) ==>
                  Route(services[k], rule.verb, probe(rule.path)) in routes
      invariant forall r :: r in routes ==> r.service in services
    {
      var rules := RulesOf(cur, services[i]) + RulesOf(next, services[i]);
      var more := RoutesOf(rules, services[i], probe);
      forall rule | Declares(cur, next, services[i], rule) ensures Route(services[i], rule.verb,
          probe(rule.path)) in more {
        assert rule in rules;
        var k :| 0 <= k < |rules| && rules[k] == rule;
        assert more[k] in more;
      }
      routes := routes + more;
    }
  }

  /**
   Unless the sample is full, every affected user is probed on everything the affected services declare, before and
   after.
   */
  method SampleFor(cur: Dataset, next: Dataset, audit: seq<Option<Tuple>>, users: seq<string>, services: seq<string>,
                   probe: string -> string)
    returns (list: seq<Tuple>, auditCount: nat, syntheticCount: nat)
    ensures DistinctKeys(list) && |list| == auditCount + syntheticCount <= TOTAL_SAMPLE_LIMIT
    ensures |list| < TOTAL_SAMPLE_LIMIT ==>
              forall svc, rule, u :: svc in services && Declares(cur, next, svc, rule) && u in users ==>
                HasKey(list, Key(Tuple(u, rule.verb, probe(rule.path))))
  {
    var routes := DeclaredRoutes(cur, next, services, probe);
    list, auditCount, syntheticCount := SampleTuples(audit, routes, users);
    forall svc, rule, u | |list| < TOTAL_SAMPLE_LIMIT && svc in services && Declares(cur, next, svc, rule) && u in users
      ensures HasKey(list, Key(Tuple(u, rule.verb, probe(rule.path))))
    {
      var r := Route(svc, rule.verb, probe(rule.path));
      assert r in routes && ProbeOf(r, u) == Tuple(u, rule.verb, probe(rule.path));
    }
  }

  // ── Flips ─────────────────────────────────────────────────────────────────

  datatype Verdict = Verdict(key: string, allow: bool)
  datatype Flip = Flip(tuple: Tuple, before: bool, after: bool)

  /** The verdicts come back keyed; a later one for the same key wins, a missing one means deny. */
  function VerdictFor(rs: seq<Verdict>, key: string): bool {
    if rs == [] then false
    else if rs[|rs| - 1].key == key then rs[|rs| - 1].allow
    else VerdictFor(rs[..|rs| - 1], key)
  }

  /** Matching answers to questions by key: None when their number is wrong. */
  function Evaluate(list: seq<Tuple>, rs: seq<Verdict>): Option<seq<bool>> {
    if |rs| != |list| then None
    else Some(seq(|list|, i requires 0 <= i < |list| => VerdictFor(rs, Key(list[i]))))
  }

  lemma {:induction false} VerdictFound(rs: seq<Verdict>, i: nat)
    requires i < |rs| && forall j, k :: 0 <= j < k < |rs| ==> rs[j].key != rs[k].key
    ensures VerdictFor(rs, rs[i].key) == rs[i].allow
  {
    if i < |rs| - 1 {
      VerdictFound(rs[..|rs| - 1], i);
    }
  }

  /** In whatever order the policy engine answers, every tuple gets its own verdict, because keys are distinct. */
  lemma VerdictsLandOnTheirTuples(list: seq<Tuple>, rs: seq<Verdict>, allow: Tuple -> bool, order: seq<nat>)
    requires DistinctKeys(list) && |rs| == |list| == |order|
    requires forall i :: 0 <= i < |order| ==> order[i] < |list| && rs[order[i]] == Verdict(Key(list[i]), allow(list[i]))
    requires forall i, j :: 0 <= i < j < |order| ==> order[i] != order[j]
    requires forall j :: 0 <= j < |rs| ==> j in order
    ensures Evaluate(list, rs).Some?
    ensures forall i :: 0 <= i < |list| ==> Evaluate(list, rs).value[i] == allow(list[i])
  {
    forall j, k | 0 <= j < k < |rs| ensures rs[j].key != rs[k].key {
      assert (j as nat) in order && (k as nat) in order;
      var a :| 0 <= a < |order| && order[a] == j;
      var b :| 0 <= b < |order| && order[b] == k;
      assert a != b;
    }
    forall i | 0 <= i < |list| ensures Evaluate(list, rs).value[i] == allow(list[i]) {
      VerdictFound(rs, order[i]);
    }
  }

  predicate Lost(f: Flip) { f.before && !f.after }
  predicate Gained(f: Flip) { !f.before && f.after }
  predicate Same(f: Flip) { f.before == f.after }

  function Flips(list: seq<Tuple>, before: seq<bool>, after: seq<bool>): (fs: seq<Flip>)
    requires |before| == |after| == |list|
    ensures |fs| == |list|
  {
    seq(|list|, i requires 0 <= i < |list| => Flip(list[i], before[i], after[i]))
  }

  /** The flips so far, sorted into those that fell, those that rose, and the rest. */
  ghost predicate Partition(flips: seq<Flip>, losses: seq<Flip>, gains: seq<Flip>, steady: nat) {
    && losses == Filter(flips, Lost) && gains == Filter(flips, Gained) && steady == Count(flips, Same)
    && |losses| + |gains| + steady == |flips|
  }

  lemma OneMoreFlip(all: seq<Flip>, i: nat, losses: seq<Flip>, gains: seq<Flip>, steady: nat)
    requires i < |all| && Partition(all[..i], losses, gains, steady)
    ensures Same(all[i]) ==> Partition(all[..i + 1], losses, gains, steady + 1)
    ensures Lost(all[i]) ==> Partition(all[..i + 1], losses + [all[i]], gains, steady)
    ensures Gained(all[i]) ==> Partition(all[..i + 1], losses, gains + [all[i]], steady)
  {
    FilterSnoc(all, i, Lost);
    FilterSnoc(all, i, Gained);
    CountSnoc(all, i, Same);
  }

  /** Losses and gains are the tuples whose verdict fell or rose, in order; nothing is counted twice or dropped. */
  method Compare(list: seq<Tuple>, before: seq<bool>, after: seq<bool>)
    returns (losses: seq<Flip>, gains: seq<Flip>, steady: nat)
    requires |before| == |after| == |list|
    ensures Partition(Flips(list, before, after), losses, gains, steady)
  {
    var all := Flips(list, before, after);
    losses, gains, steady := [], [], 0;
    for i := 0 to |list|
      invariant Partition(all[..i], losses, gains, steady)
    {
      OneMoreFlip(all, i, losses, gains, steady);
      var flip := all[i];
      if flip.before == flip.after {
        steady := steady + 1;
      } else if flip.before && !flip.after {
        losses := losses + [flip];
      } else {
        gains := gains + [flip];
      }
    }
    assert all[..|list|] == all;
  }
}
