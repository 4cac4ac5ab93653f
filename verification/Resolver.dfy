/**
 The permission resolver: groups to roles to permissions, for one application. Role names collected for
 the application are looked up in the global role map as well as in the application's own.
 */
module Resolver {
  import opened Prelude
  import opened RbacStore
  import opened Power

  /** Roles a group definition binds on one service. */
  function Bound(groups: map<string, GroupDef>, g: string, svc: string): seq<string> {
    if g in groups && svc in groups[g] then groups[g][svc] else []
  }

  predicate HasRole(gs: seq<string>, groups: map<string, GroupDef>, app: string, role: string) {
    exists g :: g in gs && (role in Bound(groups, g, GLOBAL) || role in Bound(groups, g, app))
  }

  predicate RoleGives(roles: map<string, RoleMap>, app: string, role: string, perm: string) {
    perm in Perms(roles, GLOBAL, role) || perm in Perms(roles, app, role)
  }

  /** A member of these groups may do `perm` in `app`. */
  ghost predicate May(gs: seq<string>, groups: map<string, GroupDef>, roles: map<string, RoleMap>, app: string,
      perm: string) {
    exists role :: HasRole(gs, groups, app, role) && RoleGives(roles, app, role, perm)
  }

  method ResolveRoles(gs: seq<string>, groups: map<string, GroupDef>, app: string) returns (roles: set<string>)
    ensures forall role :: role in roles <==> HasRole(gs, groups, app, role)
  {
    roles := {};
    for i := 0 to |gs|
      invariant forall role :: role in roles <==> HasRole(gs[..i], groups, app, role)
    {
      var g := gs[i];
      ghost var before := roles;
      if g in groups {
        if GLOBAL in groups[g] {
          roles := roles + ToSet(groups[g][GLOBAL]);
        }
        if app in groups[g] {
          roles := roles + ToSet(groups[g][app]);
        }
      }
      assert gs[..i + 1] == gs[..i] + [g];
      forall role ensures role in roles <==> HasRole(gs[..i + 1], groups, app, role) {
        assert role in roles <==> role in before || role in Bound(groups, g, GLOBAL) || role in Bound(groups, g, app);
      }
    }
    assert gs[..|gs|] == gs;
  }

  method ResolvePermissions(roleNames: set<string>, own: Option<RoleMap>,
      global: Option<RoleMap>) returns (perms: set<string>)
    ensures forall p :: p in perms <==>
              exists role :: role in roleNames
                && ((global.Some? && role in global.value && p in global.value[role])
                    || (own.Some? && role in own.value && p in own.value[role]))
  {
    perms := {};
    var todo := roleNames;
    while todo != {}
      invariant todo <= roleNames
      invariant forall p :: p in perms <==>
                  exists role :: role in roleNames && role !in todo
                    && ((global.Some? && role in global.value && p in global.value[role])
                        || (own.Some? && role in own.value && p in own.value[role]))
    {
      var role :| role in todo;
      if global.Some? && role in global.value {
        perms := perms + ToSet(global.value[role]);
      }
      if own.Some? && role in own.value {
        perms := perms + ToSet(own.value[role]);
      }
      todo := todo - {role};
    }
  }

  function Lookup(roles: map<string, RoleMap>, svc: string): Option<RoleMap> {
    if svc in roles then Some(roles[svc]) else None
  }

  /** Both loops together compute exactly the permissions the chain of definitions grants. */
  method Resolve(gs: seq<string>, groups: map<string, GroupDef>, roles: map<string, RoleMap>, app: string)
    returns (perms: set<string>)
    ensures forall p :: p in perms <==> May(gs, groups, roles, app, p)
  {
    var names := ResolveRoles(gs, groups, app);
    perms := ResolvePermissions(names, Lookup(roles, app), Lookup(roles, GLOBAL));
    forall p ensures p in perms <==> May(gs, groups, roles, app, p) {
      if p in perms {
        var role :| role in names && (p in Perms(roles, GLOBAL, role) || p in Perms(roles, app, role));
        assert RoleGives(roles, app, role, p) && HasRole(gs, groups, app, role);
      }
      if May(gs, groups, roles, app, p) {
        var role :| HasRole(gs, groups, app, role) && RoleGives(roles, app, role, p);
        assert role in names;
      }
    }
  }

  // ── The resolver against the access review ────────────────────────────────

  /** A role bound on one of the two maps is unlimited only in the other. */
  ghost predicate CrossedStar(gs: seq<string>, groups: map<string, GroupDef>, roles: map<string, RoleMap>,
      app: string) {
    exists g, role :: g in gs
      && ((role in Bound(groups, g, app) && STAR in Perms(roles, GLOBAL, role))
          || (role in Bound(groups, g, GLOBAL) && STAR in Perms(roles, app, role)))
  }

  /**
   For an identity the review does not count as able to do anything, the resolver nevertheless grants
   everything in an application exactly when a role name crosses between the application's role map and
   the global one.
   */
  lemma ReviewMissesCrossedRoles(b: Binding, c: Config, app: string)
    requires !CanDoAnything(b, c)
    ensures May(b.groups, c.groups, c.roles, app, STAR) <==> CrossedStar(b.groups, c.groups, c.roles, app)
  {
    FullAccessIsTopTier(b, c);
    if May(b.groups, c.groups, c.roles, app, STAR) {
      var role :| HasRole(b.groups, c.groups, app, role) && RoleGives(c.roles, app, role, STAR);
      var g :| g in b.groups && (role in Bound(c.groups, g, GLOBAL) || role in Bound(c.groups, g, app));
      assert g !in PowerfulGroups(c.groups, c.roles);
      assert !BindsUnlimited(c.groups[g], c.roles, GLOBAL) && !BindsUnlimited(c.groups[g], c.roles, app);
      assert (role in Bound(c.groups, g, app) && STAR in Perms(c.roles, GLOBAL, role))
             || (role in Bound(c.groups, g, GLOBAL) && STAR in Perms(c.roles, app, role)) by {
        if role in Bound(c.groups, g, GLOBAL) {
          assert !Unlimited(c.roles, GLOBAL, role);
        } else {
          assert !Unlimited(c.roles, app, role);
        }
      }
    }
    if CrossedStar(b.groups, c.groups, c.roles, app) {
      var g, role :| g in b.groups
        && ((role in Bound(c.groups, g, app) && STAR in Perms(c.roles, GLOBAL, role))
            || (role in Bound(c.groups, g, GLOBAL) && STAR in Perms(c.roles, app, role)));
      assert HasRole(b.groups, c.groups, app, role) && RoleGives(c.roles, app, role, STAR);
    }
  }

  /** And it does happen: an ordinary-looking role name that the global map makes unlimited. */
  lemma CrossedRoleExample(email: string, app: string, role: string)
    requires app != GLOBAL && role != SUPER_ADMIN
    ensures var c := Config(map["team" := map[app := [role]]], map[GLOBAL := map[role := [STAR]]], {app}, map[]);
            var b := Binding(email, ["team"], [], None, true);
            !CanDoAnything(b, c) && May(b.groups, c.groups, c.roles, app, STAR)
  {
    CrossedRoleFor(email, "team", app, role);
  }

  lemma CrossedRoleFor(email: string, team: string, app: string, role: string)
    requires app != GLOBAL && role != SUPER_ADMIN
    ensures var c := Config(map[team := map[app := [role]]], map[GLOBAL := map[role := [STAR]]], {app}, map[]);
            var b := Binding(email, [team], [], None, true);
            !CanDoAnything(b, c) && May(b.groups, c.groups, c.roles, app, STAR)
  {
    var c := Config(map[team := map[app := [role]]], map[GLOBAL := map[role := [STAR]]], {app}, map[]);
    CrossedRoleUncounted(email, team, app, role, c);
    assert role in Bound(c.groups, team, app) && Perms(c.roles, GLOBAL, role) == [STAR];
    assert HasRole([team], c.groups, app, role) && RoleGives(c.roles, app, role, STAR);
  }

  lemma CrossedRoleUncounted(email: string, team: string, app: string, role: string, c: Config)
    requires app != GLOBAL && role != SUPER_ADMIN
    requires c == Config(map[team := map[app := [role]]], map[GLOBAL := map[role := [STAR]]], {app}, map[])
    ensures !CanDoAnything(Binding(email, [team], [], None, true), c)
  {
    FullAccessIsTopTier(Binding(email, [team], [], None, true), c);
    assert Perms(c.roles, app, role) == [];
    assert !BindsUnlimited(c.groups[team], c.roles, app);
    assert !Powerful(c.groups[team], c.roles);
  }

  /** One of the role names held is unlimited in a map the resolver looks it up in for some application. */
  ghost predicate HoldsStar(gs: seq<string>, groups: map<string, GroupDef>, roles: map<string, RoleMap>) {
    exists g, svc, role, m :: g in gs && StarAt(groups, roles, g, svc, role, m)
  }

  predicate StarAt(groups: map<string, GroupDef>, roles: map<string, RoleMap>, g: string, svc: string, role: string,
      m: string) {
    role in Bound(groups, g, svc) && STAR in Perms(roles, m, role) && (m == svc || m == GLOBAL || svc == GLOBAL)
  }

  /** The resolver grants everything in some application. */
  ghost predicate GetsEverything(gs: seq<string>, groups: map<string, GroupDef>, roles: map<string, RoleMap>) {
    exists app :: May(gs, groups, roles, app, STAR)
  }

  lemma StarReaches(gs: seq<string>, groups: map<string, GroupDef>, roles: map<string, RoleMap>)
    ensures GetsEverything(gs, groups, roles) <==> HoldsStar(gs, groups, roles)
  {
    if GetsEverything(gs, groups, roles) {
      var app :| May(gs, groups, roles, app, STAR);
      var role :| HasRole(gs, groups, app, role) && RoleGives(roles, app, role, STAR);
      var g :| g in gs && (role in Bound(groups, g, GLOBAL) || role in Bound(groups, g, app));
      var svc := if role in Bound(groups, g, GLOBAL) then GLOBAL else app;
      var m := if STAR in Perms(roles, GLOBAL, role) then GLOBAL else app;
      assert StarAt(groups, roles, g, svc, role, m);
    }
    if HoldsStar(gs, groups, roles) {
      var g, svc, role, m :| g in gs && StarAt(groups, roles, g, svc, role, m);
      var app := if svc == GLOBAL then m else svc;
      assert HasRole(gs, groups, app, role) && RoleGives(roles, app, role, STAR);
      assert May(gs, groups, roles, app, STAR);
    }
  }

  /**
   In the other direction: an identity the review counts as able to do anything is granted everything somewhere
   exactly when one of its role names is starred in a map the resolver consults. If none is, what the review
   counted is the bare super_admin name, bound globally.
   */
  lemma PowerReachesResolver(b: Binding, c: Config)
    requires CanDoAnything(b, c)
    ensures GetsEverything(b.groups, c.groups, c.roles) <==> HoldsStar(b.groups, c.groups, c.roles)
    ensures !HoldsStar(b.groups, c.groups, c.roles) ==>
              exists g :: g in b.groups && SUPER_ADMIN in Bound(c.groups, g, GLOBAL)
    ensures exists g, svc, role :: g in b.groups && role in Bound(c.groups, g, svc)
              && ((svc == GLOBAL && role == SUPER_ADMIN) || May(b.groups, c.groups, c.roles, svc, STAR))
  {
    StarReaches(b.groups, c.groups, c.roles);
    FullAccessIsTopTier(b, c);
    var g :| g in b.groups && g in PowerfulGroups(c.groups, c.roles);
    var svc :| svc in c.groups[g] && BindsUnlimited(c.groups[g], c.roles, svc);
    var role :| role in c.groups[g][svc] && Unlimited(c.roles, svc, role);
    assert role in Bound(c.groups, g, svc);
    if STAR in Perms(c.roles, svc, role) {
      assert StarAt(c.groups, c.roles, g, svc, role, svc);
      assert HasRole(b.groups, c.groups, svc, role) && RoleGives(c.roles, svc, role, STAR);
    }
  }

  /** And that happens: the review counts a bare super_admin, the resolver grants nothing. */
  lemma BareSuperAdmin(email: string, team: string, app: string, perm: string)
    ensures var c := Config(map[team := map[GLOBAL := [SUPER_ADMIN]]], map[], {app}, map[]);
            var b := Binding(email, [team], [], None, true);
            CanDoAnything(b, c) && !May(b.groups, c.groups, c.roles, app, perm)
  {
    var c := Config(map[team := map[GLOBAL := [SUPER_ADMIN]]], map[], {app}, map[]);
    FullAccessIsTopTier(Binding(email, [team], [], None, true), c);
    assert SUPER_ADMIN in c.groups[team][GLOBAL] && Unlimited(c.roles, GLOBAL, SUPER_ADMIN);
    assert Powerful(c.groups[team], c.roles);
    assert forall role :: !RoleGives(c.roles, app, role, perm);
  }
}
