/**
 Who can do what, derived four times over: the wildcard groups behind the directory counts, the
 admin-power gate of group assignment, the access review's classification of groups and identities, and
 the permission resolver. The first three agree on every configuration; where the fourth parts from
 them is stated exactly.
 */
module Power {
  import opened Prelude
  import opened Ranking
  import opened Counters
  import opened GroupList
  import opened Text
  import opened RbacStore

  const GLOBAL: string := "global"
  const SUPER_ADMIN: string := "super_admin"
  const STAR: string := "*"
  const BROAD_REACH_MIN := 3

  /** One identity of the directory walk. */
  datatype Binding = Binding(
    email: string, groups: seq<string>, organizations: seq<string>, primary: Option<string>, active: bool)

  /** `rosters`: organisation to the emails rostered as its admins. */
  datatype Config = Config(
    groups: map<string, GroupDef>, roles: map<string, RoleMap>, services: set<string>, rosters: map<string,
        seq<string>>)

  /** `roles[svc]?.[role] ?? []` */
  function Perms(roles: map<string, RoleMap>, svc: string, role: string): seq<string> {
    if svc in roles && role in roles[svc] then roles[svc][role] else []
  }

  // ── What power means ──────────────────────────────────────────────────────

  /** Binding `role` on `svc` is unlimited power there. */
  predicate Unlimited(roles: map<string, RoleMap>, svc: string, role: string) {
    (svc == GLOBAL && role == SUPER_ADMIN) || STAR in Perms(roles, svc, role)
  }

  predicate BindsUnlimited(def: GroupDef, roles: map<string, RoleMap>, svc: string) {
    svc in def && exists role :: role in def[svc] && Unlimited(roles, svc, role)
  }

  predicate GlobalPower(def: GroupDef, roles: map<string, RoleMap>) {
    BindsUnlimited(def, roles, GLOBAL)
  }

  /** Some binding of the group is unlimited. */
  predicate Powerful(def: GroupDef, roles: map<string, RoleMap>) {
    exists svc :: svc in def && BindsUnlimited(def, roles, svc)
  }

  function PowerfulGroups(groups: map<string, GroupDef>, roles: map<string, RoleMap>): set<string> {
    set g | g in groups && Powerful(groups[g], roles)
  }

  // ── First derivation: the groups behind the full-access count ─────────────

  method WildcardGroupNames(groups: map<string, GroupDef>, roles: map<string, RoleMap>) returns (wild: set<string>)
    ensures wild == PowerfulGroups(groups, roles)
  {
    var services := set g, svc | g in groups && svc in groups[g] :: svc;
    var rolesByService: map<string, RoleMap> := map svc | svc in services :: if svc in roles then roles[svc] else map[];
    wild := {};
    var todo := groups.Keys;
    while todo != {}
      invariant todo <= groups.Keys
      invariant wild == set g | g in groups && g !in todo && Powerful(groups[g], roles)
    {
      var name :| name in todo;
      assert forall svc, role :: svc in groups[name] ==> Perms(rolesByService, svc, role) == Perms(roles, svc, role);
      assert forall svc :: BindsUnlimited(groups[name], rolesByService, svc) <==>
             BindsUnlimited(groups[name], roles, svc);
      var isWild := exists svc :: svc in groups[name] && BindsUnlimited(groups[name], rolesByService, svc);
      if isWild {
        wild := wild + {name};
      }
      todo := todo - {name};
    }
  }

  // ── Second derivation: the assignment gate ────────────────────────────────

  method DefGrantsGlobalPower(def: GroupDef, roles: map<string, RoleMap>) returns (power: bool)
    ensures power <==> GlobalPower(def, roles)
  {
    var globalRoles := if GLOBAL in def then def[GLOBAL] else [];
    if |globalRoles| == 0 {
      return false;
    }
    if SUPER_ADMIN in globalRoles {
      assert Unlimited(roles, GLOBAL, SUPER_ADMIN);
      return true;
    }
    if GLOBAL !in roles {
      return false;
    }
    for i := 0 to |globalRoles|
      invariant forall k :: 0 <= k < i ==> !Unlimited(roles, GLOBAL, globalRoles[k])
    {
      if STAR in Perms(roles, GLOBAL, globalRoles[i]) {
        assert Unlimited(roles, GLOBAL, globalRoles[i]);
        return true;
      }
    }
    return false;
  }

  method GroupGrantsAdminPower(name: string, groups: map<string, GroupDef>, roles: map<string,
      RoleMap>) returns (power: bool)
    ensures power <==> name in PowerfulGroups(groups, roles)
  {
    if name !in groups {
      return false;
    }
    var def := groups[name];
    power := DefGrantsGlobalPower(def, roles);
    if power {
      return;
    }
    var todo := def.Keys;
    while todo != {}
      invariant todo <= def.Keys && !GlobalPower(def, roles) && !power
      invariant forall svc :: svc in def && svc !in todo ==> !BindsUnlimited(def, roles, svc)
    {
      var svc :| svc in todo;
      todo := todo - {svc};
      if svc == GLOBAL || |def[svc]| == 0 || svc !in roles {
        continue;
      }
      for i := 0 to |def[svc]|
        invariant forall k :: 0 <= k < i ==> !Unlimited(roles, svc, def[svc][k])
      {
        if STAR in Perms(roles, svc, def[svc][i]) {
          assert Unlimited(roles, svc, def[svc][i]) && BindsUnlimited(def, roles, svc);
          return true;
        }
      }
    }
  }

  // ── Third derivation: the access review ───────────────────────────────────

  datatype GroupPower = GroupPower(globalPower: bool, wildcardServices: set<string>, services: set<string>)

  method ClassifyGroup(def: GroupDef, roles: map<string, RoleMap>) returns (gp: GroupPower)
    ensures gp == Classified(def, roles)
  {
    gp := GroupPower(false, {}, {});
    var todo := def.Keys;
    while todo != {}
      invariant todo <= def.Keys
      invariant gp.globalPower <==> GLOBAL !in todo && GlobalPower(def, roles)
      invariant gp.wildcardServices == set svc | svc in def && svc !in todo && svc != GLOBAL
                && BindsUnlimited(def, roles, svc)
      invariant gp.services == set svc | svc in def && svc !in todo && svc != GLOBAL && def[svc] != []
    {
      var svc :| svc in todo;
      var before := gp;
      for i := 0 to |def[svc]|
        invariant gp.globalPower <==>
                  before.globalPower || (svc == GLOBAL && exists k :: 0 <= k < i && Unlimited(roles, svc, def[svc][k]))
        invariant gp.wildcardServices == before.wildcardServices + if svc != GLOBAL &&
                  exists k :: 0 <= k < i && Unlimited(roles, svc, def[svc][k]) then {svc} else {}
        invariant gp.services == before.services + if svc != GLOBAL && i > 0 then {svc} else {}
      {
        var isWild := STAR in Perms(roles, svc, def[svc][i]);
        if svc == GLOBAL {
          if def[svc][i] == SUPER_ADMIN || isWild {
            gp := gp.(globalPower := true);
          }
        } else {
          gp := gp.(services := gp.services + {svc});
          if isWild {
            gp := gp.(wildcardServices := gp.wildcardServices + {svc});
          }
        }
      }
      assert BindsUnlimited(def, roles, svc) <==> exists k :: 0 <= k < |def[svc]| && Unlimited(roles, svc, def[svc][k]);
      todo := todo - {svc};
    }
  }

  /** A group as the review sees it. */
  function Classified(def: GroupDef, roles: map<string, RoleMap>): GroupPower {
    GroupPower(GlobalPower(def, roles),
               set svc | svc in def && svc != GLOBAL && BindsUnlimited(def, roles, svc),
               set svc | svc in def && svc != GLOBAL && def[svc] != [])
  }

  /**
   The review gives a group global power or a wildcard service exactly when the other two derivations call it
   powerful.
   */
  lemma ReviewAgreesOnGroups(def: GroupDef, roles: map<string, RoleMap>)
    ensures Powerful(def, roles) <==>
            Classified(def, roles).globalPower || Classified(def, roles).wildcardServices != {}
  {
    if Powerful(def, roles) && !GlobalPower(def, roles) {
      var svc :| svc in def && BindsUnlimited(def, roles, svc);
      assert svc in Classified(def, roles).wildcardServices;
    }
    if Classified(def, roles).wildcardServices != {} {
      var svc :| svc in Classified(def, roles).wildcardServices;
      assert BindsUnlimited(def, roles, svc);
    }
  }

  // ── Identities ────────────────────────────────────────────────────────────

  predicate HasGlobalPower(gs: seq<string>, c: Config) {
    exists g :: g in gs && g in c.groups && GlobalPower(c.groups[g], c.roles)
  }

  function WildcardServices(gs: seq<string>, c: Config): set<string> {
    set g, svc | g in gs && g in c.groups && svc in Classified(c.groups[g], c.roles).wildcardServices :: svc
  }

  function BoundServices(gs: seq<string>, c: Config): set<string> {
    set g, svc | g in gs && g in c.groups && svc in Classified(c.groups[g], c.roles).services :: svc
  }

  /** A group the identity carries that no definition knows. */
  predicate Orphaned(gs: seq<string>, c: Config) {
    exists g :: g in gs && g !in c.groups && g != BASE_GROUP
  }

  /** Services an identity can reach; somebody with global power reaches every registered one. */
  function Reached(b: Binding, c: Config): set<string> {
    BoundServices(b.groups, c) + if HasGlobalPower(b.groups, c) then c.services else {}
  }

  /** Organisations whose roster names this address, compared without case. */
  function RosteredFor(rosters: map<string, seq<string>>, key: string): set<string> {
    set org | org in rosters && Names(rosters[org], key)
  }

  predicate Names(roster: seq<string>, key: string) {
    exists e :: e in roster && Lower(e) == key
  }

  /** Administering an organisation takes both a roster entry and membership. */
  function AdminOrgs(b: Binding, c: Config): set<string> {
    set org | org in RosteredFor(c.rosters, Lower(b.email)) && (org in b.organizations || b.primary == Some(org))
  }

  /** The highest rung the identity stands on, if any. */
  function TierOf(b: Binding, c: Config): Option<nat> {
    Rung(HasGlobalPower(b.groups, c), WildcardServices(b.groups, c) != {}, AdminOrgs(b, c) != {}, |Reached(b, c)|)
  }

  function Rung(globalPower: bool, wildcard: bool, orgAdmin: bool, reach: nat): Option<nat> {
    if globalPower then Some(0)
    else if wildcard then Some(1)
    else if orgAdmin then Some(2)
    else if reach >= BROAD_REACH_MIN then Some(3)
    else None
  }

  datatype Entry = Entry(
    email: string, tier: nat, wildcardServices: set<string>, reached: set<string>, adminOrgs: set<string>,
    orphaned: bool)

  function EntryOf(b: Binding, c: Config): Entry
    requires TierOf(b, c).Some?
  {
    Entry(b.email, TierOf(b, c).value, WildcardServices(b.groups, c), Reached(b, c), AdminOrgs(b, c),
          Orphaned(b.groups, c))
  }

  /** Everybody on a rung, in directory order. */
  function Privileged(bs: seq<Binding>, c: Config): seq<Entry> {
    if bs == [] then []
    else
      var last := bs[|bs| - 1];
      Privileged(bs[..|bs| - 1], c) + Entries(last, c)
  }

  function Entries(b: Binding, c: Config): seq<Entry> {
    if TierOf(b, c).Some? then [EntryOf(b, c)] else []
  }

  function AtLeastOne(n: nat): nat {
    if n == 0 then 1 else n
  }

  /** The power score: by rung, by what is held on it, and by reach. */
  function Score(e: Entry): nat {
    var reach := |e.reached|;
    reach + if e.tier == 0 then 100
            else if e.tier == 1 then 60 * AtLeastOne(|e.wildcardServices|)
            else if e.tier == 2 then 40 * AtLeastOne(|e.adminOrgs|)
            else 15 + 3 * reach
  }

  /** Higher score first, then the higher rung, then the longer reach. */
  predicate NotAfter(a: Entry, b: Entry) {
    Score(a) > Score(b)
    || (Score(a) == Score(b) && (a.tier < b.tier || (a.tier == b.tier && |a.reached| >= |b.reached|)))
  }

  function StrongestFirst(): (Entry, Entry) -> bool {
    (a: Entry, b: Entry) => NotAfter(a, b)
  }

  lemma StrongestFirstIsPreorder()
    ensures Preorder(StrongestFirst())
  {
  }

  /**
   The review's order: everybody on a rung exactly once, strongest first, ties in directory order.
   */
  lemma ReviewOrder(bs: seq<Binding>, c: Config)
    ensures var entries := Ranked(Privileged(bs, c), StrongestFirst());
            && multiset(entries) == multiset(Privileged(bs, c))
            && (forall i, j :: 0 <= i < j < |entries| ==> NotAfter(entries[i], entries[j]))
            && (forall e: Entry :: Filter(entries, Ties(StrongestFirst(), e))
                                     == Filter(Privileged(bs, c), Ties(StrongestFirst(), e)))
  {
    StrongestFirstIsPreorder();
    RankedElements(Privileged(bs, c), StrongestFirst());
    RankedInOrder(Privileged(bs, c), StrongestFirst());
    var entries := Ranked(Privileged(bs, c), StrongestFirst());
    forall i, j | 0 <= i < j < |entries| ensures NotAfter(entries[i], entries[j]) {
      assert StrongestFirst()(entries[i], entries[j]);
    }
    forall e: Entry
      ensures Filter(entries, Ties(StrongestFirst(), e)) == Filter(Privileged(bs, c), Ties(StrongestFirst(), e))
    {
      RankedStable(Privileged(bs, c), StrongestFirst(), e);
    }
  }

  predicate CanDoAnything(b: Binding, c: Config) {
    TierOf(b, c) == Some(0) || TierOf(b, c) == Some(1)
  }

  function TopTier(c: Config): Binding -> bool {
    (b: Binding) => CanDoAnything(b, c)
  }

  /** The review's roster index: lower-cased address to organisations. */
  method InvertRosters(rosters: map<string, seq<string>>) returns (byEmail: map<string, set<string>>)
    ensures forall key :: RosteredFor(rosters, key) == Orgs(byEmail, key)
  {
    byEmail := map[];
    var todo := rosters.Keys;
    ghost var done: set<string> := {};
    while todo != {}
      invariant todo == rosters.Keys - done && done <= rosters.Keys
      invariant forall key :: Orgs(byEmail, key) == RosteredAmong(rosters, done, key)
    {
      var org :| org in todo;
      byEmail := IndexRoster(byEmail, org, rosters[org]);
      todo, done := todo - {org}, done + {org};
    }
    assert done == rosters.Keys;
  }

  function RosteredAmong(rosters: map<string, seq<string>>, done: set<string>, key: string): set<string> {
    set org | org in done && org in rosters && Names(rosters[org], key)
  }

  lemma OneMoreName(roster: seq<string>, i: nat)
    requires i < |roster|
    ensures forall key :: Names(roster[..i + 1], key) <==> Names(roster[..i], key) || Lower(roster[i]) == key
  {
    assert roster[..i + 1] == roster[..i] + [roster[i]];
    forall key ensures Names(roster[..i + 1], key) <==> Names(roster[..i], key) || Lower(roster[i]) == key {
      assert roster[i] in roster[..i + 1];
      assert forall e :: e in roster[..i + 1] <==> e in roster[..i] || e == roster[i];
    }
  }

  /** One roster: every address on it, lower-cased, points to the organisation too. */
  method IndexRoster(before: map<string, set<string>>, org: string, roster: seq<string>)
    returns (byEmail: map<string, set<string>>)
    ensures forall key :: Orgs(byEmail, key) == Orgs(before, key) + if Names(roster, key) then {org} else {}
  {
    byEmail := before;
    for i := 0 to |roster|
      invariant forall key :: Orgs(byEmail, key) == Orgs(before, key) + if Names(roster[..i], key) then {org} else {}
    {
      OneMoreName(roster, i);
      byEmail := byEmail[Lower(roster[i]) := Orgs(byEmail, Lower(roster[i])) + {org}];
    }
    assert roster[..|roster|] == roster;
  }

  function Orgs(byEmail: map<string, set<string>>, key: string): set<string> {
    if key in byEmail then byEmail[key] else {}
  }

  method WalkGroups(gs: seq<string>, c: Config, power: map<string, GroupPower>)
    returns (globalPower: bool, wildcardServices: set<string>, reached: set<string>, orphaned: bool)
    requires power == map g | g in c.groups :: Classified(c.groups[g], c.roles)
    ensures globalPower == HasGlobalPower(gs, c) && wildcardServices == WildcardServices(gs, c)
    ensures reached == BoundServices(gs, c) && orphaned == Orphaned(gs, c)
  {
    globalPower, wildcardServices, reached, orphaned := false, {}, {}, false;
    for i := 0 to |gs|
      invariant globalPower == HasGlobalPower(gs[..i], c) && wildcardServices == WildcardServices(gs[..i], c)
      invariant reached == BoundServices(gs[..i], c) && orphaned == Orphaned(gs[..i], c)
    {
      var g := gs[i];
      OneMoreGroup(gs, i, c);
      if g !in power {
        orphaned := orphaned || g != BASE_GROUP;
        continue;
      }
      globalPower := globalPower || power[g].globalPower;
      wildcardServices := wildcardServices + power[g].wildcardServices;
      reached := reached + power[g].services;
    }
    assert gs[..|gs|] == gs;
  }

  lemma OneMoreGroup(gs: seq<string>, i: nat, c: Config)
    requires i < |gs|
    ensures var g, before, after := gs[i], gs[..i], gs[..i + 1];
            var gp := if g in c.groups then Classified(c.groups[g], c.roles) else GroupPower(false, {}, {});
            && (HasGlobalPower(after, c) <==> HasGlobalPower(before, c) || gp.globalPower)
            && WildcardServices(after, c) == WildcardServices(before, c) + gp.wildcardServices
            && BoundServices(after, c) == BoundServices(before, c) + gp.services
            && (Orphaned(after, c) <==> Orphaned(before, c) || (g !in c.groups && g != BASE_GROUP))
  {
    assert gs[..i + 1] == gs[..i] + [gs[i]];
  }

  /** The review of one identity, over groups classified beforehand. */
  method ReviewIdentity(b: Binding, c: Config, power: map<string, GroupPower>, byEmail: map<string, set<string>>)
    returns (entry: Option<Entry>)
    requires power == map g | g in c.groups :: Classified(c.groups[g], c.roles)
    requires forall key :: RosteredFor(c.rosters, key) == Orgs(byEmail, key)
    ensures entry == if TierOf(b, c).Some? then Some(EntryOf(b, c)) else None
  {
    var globalPower, wildcardServices, reached, orphaned := WalkGroups(b.groups, c, power);
    entry := Climb(b, c, byEmail, globalPower, wildcardServices, reached, orphaned);
  }

  method Climb(b: Binding, c: Config, byEmail: map<string, set<string>>, globalPower: bool,
               wildcardServices: set<string>, bound: set<string>, orphaned: bool)
    returns (entry: Option<Entry>)
    requires forall key :: RosteredFor(c.rosters, key) == Orgs(byEmail, key)
    requires globalPower == HasGlobalPower(b.groups, c) && wildcardServices == WildcardServices(b.groups, c)
    requires bound == BoundServices(b.groups, c) && orphaned == Orphaned(b.groups, c)
    ensures entry == if TierOf(b, c).Some? then Some(EntryOf(b, c)) else None
  {
    var rostered := Orgs(byEmail, Lower(b.email));
    var adminOrgs := set o | o in rostered && (o in b.organizations || b.primary == Some(o));
    assert adminOrgs == AdminOrgs(b, c);
    var reached := if globalPower then bound + c.services else bound;
    assert reached == Reached(b, c);
    var tier := Ladder(globalPower, wildcardServices != {}, adminOrgs != {}, |reached|);
    if tier.None? {
      return None;
    }
    return Some(Entry(b.email, tier.value, wildcardServices, reached, adminOrgs, orphaned));
  }

  /** Highest power wins. */
  method Ladder(globalPower: bool, wildcard: bool, orgAdmin: bool, reach: nat) returns (tier: Option<nat>)
    ensures tier == Rung(globalPower, wildcard, orgAdmin, reach)
  {
    tier := None;
    if globalPower {
      tier := Some(0);
    } else if wildcard {
      tier := Some(1);
    } else if orgAdmin {
      tier := Some(2);
    } else if reach >= BROAD_REACH_MIN {
      tier := Some(3);
    }
  }

  method ClassifyGroups(c: Config) returns (power: map<string, GroupPower>)
    ensures power == map g | g in c.groups :: Classified(c.groups[g], c.roles)
  {
    power := map[];
    var todo := c.groups.Keys;
    while todo != {}
      invariant todo <= c.groups.Keys
      invariant power == map g | g in c.groups && g !in todo :: Classified(c.groups[g], c.roles)
    {
      var g :| g in todo;
      var gp := ClassifyGroup(c.groups[g], c.roles);
      power := power[g := gp];
      todo := todo - {g};
    }
  }

  /** The walk: classify every group once, then every identity, and sort what was found. */
  method ComputeReview(bs: seq<Binding>, c: Config) returns (entries: seq<Entry>, canDoAnything: nat)
    ensures entries == Ranked(Privileged(bs, c), StrongestFirst())
    ensures canDoAnything == Count(bs, TopTier(c))
  {
    var power := ClassifyGroups(c);
    var byEmail := InvertRosters(c.rosters);
    entries := [];
    for i := 0 to |bs|
      invariant entries == Privileged(bs[..i], c)
    {
      var entry := ReviewIdentity(bs[i], c, power, byEmail);
      assert bs[..i + 1][..i] == bs[..i];
      if entry.Some? {
        entries := entries + [entry.value];
      }
    }
    assert bs[..|bs|] == bs;
    entries := Ranked(entries, StrongestFirst());
    canDoAnything := Count(entries, IsTopTier);
    RankedCount(Privileged(bs, c), StrongestFirst(), IsTopTier);
    TopTiers(bs, c);
  }

  predicate IsTopTier(e: Entry) { e.tier == 0 || e.tier == 1 }

  lemma TopEntries(b: Binding, c: Config)
    ensures Count(Entries(b, c), IsTopTier) == if CanDoAnything(b, c) then 1 else 0
  {
    if TierOf(b, c).Some? {
      assert Entries(b, c) == [EntryOf(b, c)] && EntryOf(b, c).tier == TierOf(b, c).value;
      assert Entries(b, c)[1..] == [];
    }
  }

  lemma {:induction false} TopTiers(bs: seq<Binding>, c: Config)
    ensures Count(Privileged(bs, c), IsTopTier) == Count(bs, TopTier(c))
  {
    if bs != [] {
      var n := |bs| - 1;
      TopTiers(bs[..n], c);
      assert bs[..n + 1] == bs;
      CountSnoc(bs, n, TopTier(c));
      TopEntries(bs[n], c);
      CountAppend(Privileged(bs[..n], c), Entries(bs[n], c), IsTopTier);
    }
  }

  // ── The directory counts ──────────────────────────────────────────────────

  datatype Stats = Stats(
    total: nat, active: nat, fullAccess: nat, unassigned: nat,
    perService: map<string, nat>, perGroup: map<string, nat>, perOrg: map<string, nat>)

  predicate HoldsAny(b: Binding, groups: set<string>) {
    exists g :: g in b.groups && g in groups
  }

  function HoldsOneOf(groups: set<string>): Binding -> bool {
    (b: Binding) => HoldsAny(b, groups)
  }

  predicate Unassigned(b: Binding) {
    forall g :: g in b.groups ==> g == BASE_GROUP
  }

  predicate IsActive(b: Binding) { b.active }

  /** Services named by the definitions of the identity's groups, the global pseudo-service included. */
  function NamedServices(b: Binding, groups: map<string, GroupDef>): set<string> {
    set g, svc | g in b.groups && g in groups && svc in groups[g] :: svc
  }

  /** Identities of the walk that reach a service. */
  function Reaching(bs: seq<Binding>, groups: map<string, GroupDef>, svc: string): nat {
    if bs == [] then 0
    else Reaching(bs[..|bs| - 1], groups, svc) + if svc in NamedServices(bs[|bs| - 1], groups) then 1 else 0
  }

  method DirectoryStats(bs: seq<Binding>, groups: map<string, GroupDef>, roles: map<string,
      RoleMap>) returns (st: Stats)
    ensures st.total == |bs| && st.active == Count(bs, IsActive) && st.unassigned == Count(bs, Unassigned)
    ensures st.fullAccess == Count(bs, HoldsOneOf(PowerfulGroups(groups, roles)))
    ensures forall svc :: Get(st.perService, svc) == Reaching(bs, groups, svc)
    ensures forall g :: Get(st.perGroup, g) == Mentions(bs, g)
    ensures forall org :: Get(st.perOrg, org) == Members(bs, org)
  {
    var wild := WildcardGroupNames(groups, roles);
    st := Stats(|bs|, 0, 0, 0, map[], map[], map[]);
    for i := 0 to |bs|
      invariant st.total == |bs| && AllCounted(bs[..i], wild, groups, st)
    {
      st := CountIdentity(bs, i, wild, groups, st);
    }
    assert bs[..|bs|] == bs;
  }

  ghost predicate AllCounted(bs: seq<Binding>, wild: set<string>, groups: map<string, GroupDef>, st: Stats) {
    && Counted(bs, wild, st.active, st.fullAccess, st.unassigned)
    && ReachCounted(bs, groups, st.perService)
    && HomesCounted(bs, st.perGroup, st.perOrg)
  }

  /** The body of the walk: one identity moves every counter it belongs to. */
  method CountIdentity(bs: seq<Binding>, i: nat, wild: set<string>, groups: map<string, GroupDef>, st: Stats)
    returns (next: Stats)
    requires i < |bs| && AllCounted(bs[..i], wild, groups, st)
    ensures AllCounted(bs[..i + 1], wild, groups, next) && next.total == st.total
  {
    var b := bs[i];
    CountedMore(bs, i, wild, st.active, st.fullAccess, st.unassigned);
    next := st;
    if b.active { next := next.(active := next.active + 1); }
    if forall g :: g in b.groups ==> g == BASE_GROUP { next := next.(unassigned := next.unassigned + 1); }
    if exists g :: g in b.groups && g in wild { next := next.(fullAccess := next.fullAccess + 1); }
    var perService, perGroup, perOrg := CountPlaces(bs, i, groups, st);
    next := next.(perService := perService, perGroup := perGroup, perOrg := perOrg);
  }

  method CountPlaces(bs: seq<Binding>, i: nat, groups: map<string, GroupDef>, st: Stats)
    returns (perService: map<string, nat>, perGroup: map<string, nat>, perOrg: map<string, nat>)
    requires i < |bs| && ReachCounted(bs[..i], groups, st.perService) && HomesCounted(bs[..i], st.perGroup, st.perOrg)
    ensures ReachCounted(bs[..i + 1], groups, perService) && HomesCounted(bs[..i + 1], perGroup, perOrg)
  {
    var b := bs[i];
    perGroup := BumpAll(st.perGroup, b.groups);
    perOrg := if b.primary.GetOr("") != "" then Bump(st.perOrg, b.primary.value) else st.perOrg;
    HomesCountedMore(bs, i, st.perGroup, st.perOrg, perGroup, perOrg);
    perService := BumpEach(st.perService, NamedServices(b, groups));
    ReachCountedMore(bs, i, groups, st.perService, perService);
  }

  /** How often a group name stands in the group lists, repetitions included. */
  function Mentions(bs: seq<Binding>, g: string): nat {
    if bs == [] then 0 else Mentions(bs[..|bs| - 1], g) + multiset(bs[|bs| - 1].groups)[g]
  }

  /** Identities whose primary organisation is `org`; the empty name is none. */
  function Members(bs: seq<Binding>, org: string): nat {
    if bs == [] then 0
    else Members(bs[..|bs| - 1], org) + if org != "" && bs[|bs| - 1].primary == Some(org) then 1 else 0
  }

  ghost predicate HomesCounted(bs: seq<Binding>, perGroup: map<string, nat>, perOrg: map<string, nat>) {
    && (forall g :: Get(perGroup, g) == Mentions(bs, g))
    && (forall org :: Get(perOrg, org) == Members(bs, org))
  }

  lemma HomesCountedMore(
    bs: seq<Binding>, i: nat, groups: map<string, nat>, orgs: map<string, nat>, groups': map<string, nat>,
    orgs': map<string, nat>)
    requires i < |bs| && HomesCounted(bs[..i], groups, orgs)
    requires forall g :: Get(groups', g) == Get(groups, g) + multiset(bs[i].groups)[g]
    requires orgs' == if bs[i].primary.GetOr("") != "" then Bump(orgs, bs[i].primary.value) else orgs
    ensures HomesCounted(bs[..i + 1], groups', orgs')
  {
    forall g ensures Get(groups', g) == Mentions(bs[..i + 1], g) {
      MentionsMore(bs, i, g);
    }
    forall org ensures Get(orgs', org) == Members(bs[..i + 1], org) {
      MembersMore(bs, i, org);
    }
  }

  lemma MentionsMore(bs: seq<Binding>, i: nat, g: string)
    requires i < |bs|
    ensures Mentions(bs[..i + 1], g) == Mentions(bs[..i], g) + multiset(bs[i].groups)[g]
  {
    assert bs[..i + 1][..i] == bs[..i];
  }

  lemma MembersMore(bs: seq<Binding>, i: nat, org: string)
    requires i < |bs|
    ensures Members(bs[..i + 1], org)
            == Members(bs[..i], org) + if org != "" && bs[i].primary == Some(org) then 1 else 0
  {
    assert bs[..i + 1][..i] == bs[..i];
  }

  method BumpAll(counts: map<string, nat>, names: seq<string>) returns (r: map<string, nat>)
    ensures forall k :: Get(r, k) == Get(counts, k) + multiset(names)[k]
  {
    r := counts;
    for i := 0 to |names|
      invariant forall k :: Get(r, k) == Get(counts, k) + multiset(names[..i])[k]
    {
      assert names[..i + 1] == names[..i] + [names[i]];
      r := Bump(r, names[i]);
    }
    assert names[..|names|] == names;
  }

  ghost predicate Counted(bs: seq<Binding>, wild: set<string>, active: nat, fullAccess: nat, unassigned: nat) {
    active == Count(bs, IsActive) && fullAccess == Count(bs, HoldsOneOf(wild)) && unassigned == Count(bs, Unassigned)
  }

  lemma CountedMore(bs: seq<Binding>, i: nat, wild: set<string>, active: nat, fullAccess: nat, unassigned: nat)
    requires i < |bs| && Counted(bs[..i], wild, active, fullAccess, unassigned)
    ensures Counted(bs[..i + 1], wild, active + (if bs[i].active then 1 else 0),
                    fullAccess + (if HoldsAny(bs[i], wild) then 1 else 0), unassigned + if Unassigned(bs[i]) then 1
                        else 0)
  {
    CountSnoc(bs, i, IsActive);
    CountSnoc(bs, i, Unassigned);
    CountSnoc(bs, i, HoldsOneOf(wild));
  }

  ghost predicate ReachCounted(bs: seq<Binding>, groups: map<string, GroupDef>, perService: map<string, nat>) {
    forall svc :: Get(perService, svc) == Reaching(bs, groups, svc)
  }

  lemma ReachCountedMore(bs: seq<Binding>, i: nat, groups: map<string, GroupDef>, before: map<string, nat>,
      after: map<string, nat>)
    requires i < |bs| && ReachCounted(bs[..i], groups, before)
    requires forall k :: Get(after, k) == Get(before, k) + if k in NamedServices(bs[i], groups) then 1 else 0
    ensures ReachCounted(bs[..i + 1], groups, after)
  {
    assert bs[..i + 1][..i] == bs[..i];
  }

  method BumpEach(counts: map<string, nat>, keys: set<string>) returns (r: map<string, nat>)
    ensures forall k :: Get(r, k) == Get(counts, k) + if k in keys then 1 else 0
  {
    r := counts;
    var todo := keys;
    while todo != {}
      invariant todo <= keys
      invariant forall k :: Get(r, k) == Get(counts, k) + if k in keys && k !in todo then 1 else 0
    {
      var k :| k in todo;
      r := Bump(r, k);
      todo := todo - {k};
    }
  }

  /** Holding a wildcard group and standing on one of the two highest rungs are the same thing. */
  lemma FullAccessIsTopTier(b: Binding, c: Config)
    ensures HoldsAny(b, PowerfulGroups(c.groups, c.roles)) <==> CanDoAnything(b, c)
  {
    if HoldsAny(b, PowerfulGroups(c.groups, c.roles)) {
      var g :| g in b.groups && g in PowerfulGroups(c.groups, c.roles);
      ReviewAgreesOnGroups(c.groups[g], c.roles);
      if !GlobalPower(c.groups[g], c.roles) {
        var svc :| svc in Classified(c.groups[g], c.roles).wildcardServices;
        assert svc in WildcardServices(b.groups, c);
      }
    }
    if CanDoAnything(b, c) {
      if HasGlobalPower(b.groups, c) {
        var g :| g in b.groups && g in c.groups && GlobalPower(c.groups[g], c.roles);
        ReviewAgreesOnGroups(c.groups[g], c.roles);
      } else {
        var svc :| svc in WildcardServices(b.groups, c);
        var g :| g in b.groups && g in c.groups && svc in Classified(c.groups[g], c.roles).wildcardServices;
        ReviewAgreesOnGroups(c.groups[g], c.roles);
      }
    }
  }

  /** So the dashboard's full-access count and the review's can-do-anything count agree on every directory. */
  lemma CountsAgree(bs: seq<Binding>, c: Config)
    ensures Count(bs, HoldsOneOf(PowerfulGroups(c.groups, c.roles)))
            == Count(bs, TopTier(c))
  {
    forall b | b in bs ensures HoldsAny(b, PowerfulGroups(c.groups, c.roles)) <==> CanDoAnything(b, c) {
      FullAccessIsTopTier(b, c);
    }
    CountSame(bs, HoldsOneOf(PowerfulGroups(c.groups, c.roles)), TopTier(c));
  }
}
