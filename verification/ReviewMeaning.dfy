/**
 What an entry of the access review says about the configuration, and who is listed before whom, in terms of what
 the entries hold.
 */
module ReviewMeaning {
  import opened Prelude
  import opened Ranking
  import opened Text
  import opened RbacStore
  import opened Power

  // ── What an entry says ────────────────────────────────────────────────────

  /** The role may do anything by the map of this service. */
  predicate Starred(c: Config, svc: string, role: string) {
    svc in c.roles && role in c.roles[svc] && "*" in c.roles[svc][role]
  }

  /** One of the identity's groups binds this role on this service. */
  predicate BindsRole(b: Binding, c: Config, g: string, svc: string, role: string) {
    g in b.groups && g in c.groups && svc in c.groups[g] && role in c.groups[g][svc]
  }

  ghost predicate Almighty(b: Binding, c: Config) {
    exists g, role :: BindsRole(b, c, g, "global", role) && (role == "super_admin" || Starred(c, "global", role))
  }

  ghost predicate AlmightyOn(b: Binding, c: Config, svc: string) {
    svc != "global" && exists g, role :: BindsRole(b, c, g, svc, role) && Starred(c, svc, role)
  }

  ghost predicate Reaches(b: Binding, c: Config, svc: string) {
    || (svc != "global" && exists g, role :: BindsRole(b, c, g, svc, role))
    || (svc in c.services && Almighty(b, c))
  }

  /** On the roster of the organisation, whatever the case, and a member of it. */
  ghost predicate Administers(b: Binding, c: Config, org: string) {
    && org in c.rosters && (exists e :: e in c.rosters[org] && Lower(e) == Lower(b.email))
    && (org in b.organizations || b.primary == Some(org))
  }

  lemma GlobalPowerMeans(b: Binding, c: Config)
    ensures HasGlobalPower(b.groups, c) <==> Almighty(b, c)
  {
    if HasGlobalPower(b.groups, c) {
      var g :| g in b.groups && g in c.groups && GlobalPower(c.groups[g], c.roles);
      var role :| role in c.groups[g][GLOBAL] && Unlimited(c.roles, GLOBAL, role);
      assert BindsRole(b, c, g, "global", role);
    }
    if Almighty(b, c) {
      var g, role :| BindsRole(b, c, g, "global", role) && (role == "super_admin" || Starred(c, "global", role));
      assert Unlimited(c.roles, GLOBAL, role) && GlobalPower(c.groups[g], c.roles);
    }
  }

  lemma WildcardMeans(b: Binding, c: Config, svc: string)
    ensures svc in WildcardServices(b.groups, c) <==> AlmightyOn(b, c, svc)
  {
    if svc in WildcardServices(b.groups, c) {
      var g :| g in b.groups && g in c.groups && svc in Classified(c.groups[g], c.roles).wildcardServices;
      var role :| role in c.groups[g][svc] && Unlimited(c.roles, svc, role);
      assert BindsRole(b, c, g, svc, role) && Starred(c, svc, role);
    }
    if AlmightyOn(b, c, svc) {
      var g, role :| BindsRole(b, c, g, svc, role) && Starred(c, svc, role);
      assert Unlimited(c.roles, svc, role) && BindsUnlimited(c.groups[g], c.roles, svc);
      assert svc in Classified(c.groups[g], c.roles).wildcardServices;
    }
  }

  lemma ReachMeans(b: Binding, c: Config, svc: string)
    ensures svc in Reached(b, c) <==> Reaches(b, c, svc)
  {
    GlobalPowerMeans(b, c);
    if svc in BoundServices(b.groups, c) {
      var g :| g in b.groups && g in c.groups && svc in Classified(c.groups[g], c.roles).services;
      assert BindsRole(b, c, g, svc, c.groups[g][svc][0]);
    }
    if g, role :| svc != "global" && BindsRole(b, c, g, svc, role) {
      assert svc in Classified(c.groups[g], c.roles).services;
    }
  }

  lemma AdminMeans(b: Binding, c: Config, org: string)
    ensures org in AdminOrgs(b, c) <==> Administers(b, c, org)
  {
  }

  /**
   An identity is listed for the strongest it holds: a global role that may do anything, such a role on one
   service, an organisation it administers, or reach over at least three services; otherwise not at all.
   */
  lemma ListedFor(b: Binding, c: Config)
    ensures var tier := TierOf(b, c);
            && (tier == Some(0) <==> Almighty(b, c))
            && (tier == Some(1) <==> !Almighty(b, c) && exists svc :: AlmightyOn(b, c, svc))
            && (tier == Some(2) <==> !Almighty(b, c) && (forall svc :: !AlmightyOn(b, c, svc))
                                     && exists org :: Administers(b, c, org))
            && (tier == Some(3) <==> !Almighty(b, c) && (forall svc :: !AlmightyOn(b, c, svc))
                                     && (forall org :: !Administers(b, c, org)) && |Reached(b, c)| >= 3)
            && (tier.Some? ==> tier.value <= 3)
  {
    GlobalPowerMeans(b, c);
    SomeWildcard(b, c);
    SomeOrg(b, c);
  }

  lemma SomeWildcard(b: Binding, c: Config)
    ensures WildcardServices(b.groups, c) != {} <==> exists svc :: AlmightyOn(b, c, svc)
  {
    forall svc ensures svc in WildcardServices(b.groups, c) <==> AlmightyOn(b, c, svc) {
      WildcardMeans(b, c, svc);
    }
  }

  lemma SomeOrg(b: Binding, c: Config)
    ensures AdminOrgs(b, c) != {} <==> exists org :: Administers(b, c, org)
  {
    forall org ensures org in AdminOrgs(b, c) <==> Administers(b, c, org) {
      AdminMeans(b, c, org);
    }
  }

  /** What is reported beside the rung. */
  lemma EntrySays(b: Binding, c: Config)
    requires TierOf(b, c).Some?
    ensures var e := EntryOf(b, c);
            && e.email == b.email && e.tier == TierOf(b, c).value
            && (forall svc :: svc in e.wildcardServices <==> AlmightyOn(b, c, svc))
            && (forall svc :: svc in e.reached <==> Reaches(b, c, svc))
            && (forall org :: org in e.adminOrgs <==> Administers(b, c, org))
            && (e.orphaned <==> exists g :: g in b.groups && g !in c.groups && g != "users")
  {
    forall svc ensures svc in WildcardServices(b.groups, c) <==> AlmightyOn(b, c, svc) {
      WildcardMeans(b, c, svc);
    }
    forall svc ensures svc in Reached(b, c) <==> Reaches(b, c, svc) {
      ReachMeans(b, c, svc);
    }
    forall org ensures org in AdminOrgs(b, c) <==> Administers(b, c, org) {
      AdminMeans(b, c, org);
    }
  }

  // ── Who comes first ───────────────────────────────────────────────────────

  /** `a` is listed before `b`, wherever both stand in the directory. */
  predicate Before(a: Entry, b: Entry) {
    NotAfter(a, b) && !NotAfter(b, a)
  }

  /** Global power against wildcard services: each further one is worth 60 reached services. */
  lemma GlobalAgainstWildcard(a: Entry, b: Entry)
    requires a.tier == 0 && b.tier == 1
    ensures Before(a, b) || Before(b, a)
    ensures b.wildcardServices != {} ==>
              (Before(a, b) <==> |b.reached| - |a.reached| <= 40 - 60 * (|b.wildcardServices| - 1))
    ensures |a.reached| == |b.reached| ==> (Before(a, b) <==> |b.wildcardServices| <= 1)
  {
  }

  /** One wildcard service against administered organisations: each further one is worth 40. */
  lemma WildcardAgainstOrgs(a: Entry, b: Entry)
    requires a.tier == 1 && |a.wildcardServices| == 1 && b.tier == 2
    ensures Before(a, b) || Before(b, a)
    ensures b.adminOrgs != {} ==> (Before(a, b) <==> |b.reached| - |a.reached| <= 20 - 40 * (|b.adminOrgs| - 1))
    ensures |a.reached| == |b.reached| ==> (Before(a, b) <==> |b.adminOrgs| <= 1)
  {
  }

  /** One organisation against broad reach, which counts fourfold on its own rung. */
  lemma OrgAgainstReach(a: Entry, b: Entry)
    requires a.tier == 2 && |a.adminOrgs| == 1 && b.tier == 3
    ensures Before(a, b) || Before(b, a)
    ensures Before(a, b) <==> 4 * |b.reached| - |a.reached| <= 25
    ensures |a.reached| == |b.reached| ==> (Before(a, b) <==> |a.reached| <= 8)
  {
  }

  /** On one rung nobody falls behind by holding more, and more reach alone puts one in front. */
  lemma MoreNeverLowers(a: Entry, b: Entry)
    requires a.tier == b.tier
    requires |a.reached| >= |b.reached| && |a.wildcardServices| >= |b.wildcardServices|
    requires |a.adminOrgs| >= |b.adminOrgs|
    ensures NotAfter(a, b)
    ensures |a.reached| > |b.reached| ==> Before(a, b)
    ensures a.tier == 1 && |a.wildcardServices| > |b.wildcardServices| >= 1 ==> Before(a, b)
    ensures a.tier == 2 && |a.adminOrgs| > |b.adminOrgs| >= 1 ==> Before(a, b)
  {
  }

  /** On the highest rung, and on the lowest, the reach alone decides. */
  lemma ReachDecides(a: Entry, b: Entry)
    requires a.tier == b.tier && (a.tier == 0 || a.tier == 3)
    ensures Before(a, b) <==> |a.reached| > |b.reached|
  {
  }

  /** The list follows: whoever comes before stands before. */
  lemma ListFollows(bs: seq<Binding>, c: Config, i: nat, j: nat)
    requires var entries := Ranked(Privileged(bs, c), StrongestFirst());
             i < |entries| && j < |entries| && Before(entries[i], entries[j])
    ensures i < j
  {
    ReviewOrder(bs, c);
  }

  /**
   So in the finished list, at equal reach: global power stands before a wildcard holder exactly if that one holds
   one such service, a holder of one before an organisation's administrator exactly if they administer one, and
   an administrator of one before broad reach exactly up to eight services.
   */
  lemma PlacesInTheList(bs: seq<Binding>, c: Config, i: nat, j: nat)
    requires var entries := Ranked(Privileged(bs, c), StrongestFirst());
             i < |entries| && j < |entries| && |entries[i].reached| == |entries[j].reached|
    ensures var entries := Ranked(Privileged(bs, c), StrongestFirst());
            var a, b := entries[i], entries[j];
            && (a.tier == 0 && b.tier == 1 ==> (i < j <==> |b.wildcardServices| <= 1))
            && (a.tier == 1 && |a.wildcardServices| == 1 && b.tier == 2 ==> (i < j <==> |b.adminOrgs| <= 1))
            && (a.tier == 2 && |a.adminOrgs| == 1 && b.tier == 3 ==> (i < j <==> |a.reached| <= 8))
  {
    var entries := Ranked(Privileged(bs, c), StrongestFirst());
    var a, b := entries[i], entries[j];
    if a.tier == 0 && b.tier == 1 {
      GlobalAgainstWildcard(a, b);
    } else if a.tier == 1 && |a.wildcardServices| == 1 && b.tier == 2 {
      WildcardAgainstOrgs(a, b);
    } else if a.tier == 2 && |a.adminOrgs| == 1 && b.tier == 3 {
      OrgAgainstReach(a, b);
    }
    if Before(a, b) {
      ListFollows(bs, c, i, j);
    }
    if Before(b, a) {
      ListFollows(bs, c, j, i);
    }
  }

  /** Everybody on a rung is listed, as often as the directory lists them, and nobody else. */
  lemma {:induction false} WhoIsListed(bs: seq<Binding>, c: Config, e: Entry)
    ensures e in Privileged(bs, c) <==> exists b :: b in bs && TierOf(b, c).Some? && e == EntryOf(b, c)
  {
    if bs != [] {
      var front, last := bs[..|bs| - 1], bs[|bs| - 1];
      assert bs == front + [last];
      WhoIsListed(front, c, e);
    }
  }

  // ── The directory counts ──────────────────────────────────────────────────

  /** The places of the identities that satisfy `p`. */
  function Places(bs: seq<Binding>, p: Binding -> bool): set<nat> {
    set i: nat | i < |bs| && p(bs[i])
  }

  /** Counted as reaching a service: one of the groups' definitions names it, whatever roles it binds. */
  predicate NamesService(b: Binding, groups: map<string, GroupDef>, svc: string) {
    exists g :: g in b.groups && g in groups && svc in groups[g]
  }

  lemma {:induction false} ReachingCounts(bs: seq<Binding>, groups: map<string, GroupDef>, svc: string)
    ensures Reaching(bs, groups, svc) == |Places(bs, (b: Binding) => NamesService(b, groups, svc))|
  {
    var p := (b: Binding) => NamesService(b, groups, svc);
    if bs == [] {
      assert Places(bs, p) == {};
    } else {
      var n := |bs| - 1;
      ReachingCounts(bs[..n], groups, svc);
      assert Places(bs, p) == Places(bs[..n], p) + if p(bs[n]) then {n as nat} else {};
      assert svc in NamedServices(bs[n], groups) <==> p(bs[n]);
    }
  }

  /**
   The dashboard's numbers over the identities themselves: active ones, those without any group but the base
   group, those the review says may do anything, and those naming each service.
   */
  lemma CountsOfIdentities(bs: seq<Binding>, c: Config, svc: string)
    ensures Count(bs, IsActive) == |Places(bs, (b: Binding) => b.active)|
    ensures Count(bs, Unassigned) == |Places(bs, (b: Binding) => forall g :: g in b.groups ==> g == "users")|
    ensures Count(bs, HoldsOneOf(PowerfulGroups(c.groups, c.roles)))
            == |Places(bs, (b: Binding) => TierOf(b, c) == Some(0) || TierOf(b, c) == Some(1))|
    ensures Reaching(bs, c.groups, svc) == |Places(bs, (b: Binding) => NamesService(b, c.groups, svc))|
  {
    CountByPlace(bs, IsActive, Places(bs, (b: Binding) => b.active));
    CountByPlace(bs, Unassigned, Places(bs, (b: Binding) => forall g :: g in b.groups ==> g == "users"));
    CountsAgree(bs, c);
    CountByPlace(bs, TopTier(c), Places(bs, (b: Binding) => TierOf(b, c) == Some(0) || TierOf(b, c) == Some(1)));
    ReachingCounts(bs, c.groups, svc);
  }
}
