/** The bootstrap as it runs: reads and writes of the store, one after the other. */
module BootstrapService {
  import opened Prelude
  import opened AccessRules
  import opened RbacStore
  import RouteMapMerge
  import opened Bootstrap
  import Effects = BootstrapEffects

  class Bootstrapper {
    const repo: RbacRepository
    var marker: Option<Marker>

    constructor (repo: RbacRepository, marker: Option<Marker>)
      ensures this.repo == repo && this.marker == marker
    {
      this.repo, this.marker := repo, marker;
    }

    method SeedRbacDefaults() returns (seeded: bool)
      modifies repo
      ensures repo.State() == SeededDefaults(old(repo.State()))
      ensures seeded <==> old(repo.groups) == map[]
    {
      if repo.groups != map[] {
        return false;
      }
      repo.SetGroup("super_admins", map["global" := ["super_admin"]]);
      repo.SetGroup("users", map[]);
      repo.SetRoles("global", map["super_admin" := ["*"], "admin" := ["*"]]);
      repo.SetRoles("jinbe", JINBE_ROLES);
      repo.AddService("jinbe");
      repo.AddService("global");
      assert repo.services == old(repo.services) + {"jinbe", "global"};
      assert repo.groups == map["super_admins" := map["global" := ["super_admin"]], "users" := map[]];
      return true;
    }

    /** A group that exists gets the role on kuma, in the copy read at the start, and is written back. */
    method PropagateKuma(name: string, role: string)
      modifies repo`groups
      ensures repo.groups == WithKuma(old(repo.groups), name, role)
    {
      if name in repo.groups {
        repo.SetGroup(name, repo.groups[name]["kuma" := [role]]);
      }
    }

    method SeedKumaService() returns (seeded: bool, routeMapSeeded: bool)
      modifies repo
      ensures repo.State() == SeededKuma(old(repo.State()))
      ensures seeded <==> "kuma" !in old(repo.services)
      ensures routeMapSeeded <==> "kuma" !in old(repo.routeMaps)
    {
      seeded := "kuma" !in repo.services;
      if seeded {
        repo.AddService("kuma");
        repo.SetRoles("kuma", map["admin" := ["*"], "viewer" := ["read"]]);
        PropagateKuma("super_admins", "admin");
        PropagateKuma("admins", "admin");
        PropagateKuma("viewers", "viewer");
      }
      routeMapSeeded := "kuma" !in repo.routeMaps;
      if routeMapSeeded {
        repo.SetRouteMap("kuma", []);
      }
    }

    method UpsertBuiltInRules(builtIn: seq<Rule>)
      modifies repo`rules
      ensures repo.rules == UpsertedRules(old(repo.rules), builtIn)
    {
      var custom := Filter(repo.rules, Custom(Ids(builtIn)));
      repo.SetAccessRules(builtIn + custom);
    }

    method ApplySystemMetadataMigration(now: int) returns (groupsMarked: nat, servicesMarked: nat)
      modifies repo`groupMeta, repo`serviceMeta
      ensures repo.State() == Tagged(old(repo.State()), now)
      ensures groupsMarked == 0 && servicesMarked == 0 ==> repo.State() == old(repo.State())
    {
      groupsMarked := TagGroups(now);
      servicesMarked := TagServices(now);
    }

    method TagGroups(now: int) returns (marked: nat)
      modifies repo`groupMeta
      ensures repo.groupMeta == TagAll(old(repo.groupMeta), SYSTEM_GROUPS, repo.groups.Keys, Description, now)
      ensures marked == 0 ==> repo.groupMeta == old(repo.groupMeta)
    {
      marked := 0;
      var names := SYSTEM_GROUPS;
      for i := 0 to |names|
        invariant repo.groupMeta == TagAll(old(repo.groupMeta), names[..i], repo.groups.Keys, Description, now)
        invariant marked == 0 ==> repo.groupMeta == old(repo.groupMeta)
      {
        assert names[..i + 1][..i] == names[..i];
        var name := names[i];
        if name !in repo.groups {
          continue;
        }
        var existing := if name in repo.groupMeta then Some(repo.groupMeta[name]) else None;
        if existing.Some? && existing.value.system {
          continue;
        }
        repo.SetGroupMetadata(name, TaggedMeta(existing, Description(name), now));
        marked := marked + 1;
      }
      assert names[..|names|] == names;
    }

    method TagServices(now: int) returns (marked: nat)
      modifies repo`serviceMeta
      ensures repo.serviceMeta == TagAll(old(repo.serviceMeta), SYSTEM_SERVICES, repo.services, Description, now)
      ensures marked == 0 ==> repo.serviceMeta == old(repo.serviceMeta)
    {
      marked := 0;
      var names := SYSTEM_SERVICES;
      for i := 0 to |names|
        invariant repo.serviceMeta == TagAll(old(repo.serviceMeta), names[..i], repo.services, Description, now)
        invariant marked == 0 ==> repo.serviceMeta == old(repo.serviceMeta)
      {
        assert names[..i + 1][..i] == names[..i];
        var name := names[i];
        if name !in repo.services {
          continue;
        }
        var existing := if name in repo.serviceMeta then Some(repo.serviceMeta[name]) else None;
        if existing.Some? && existing.value.system {
          continue;
        }
        repo.SetServiceMetadata(name, TaggedMeta(existing, Description(name), now));
        marked := marked + 1;
      }
      assert names[..|names|] == names;
    }

    method SeedDelegation() returns (seeded: nat)
      modifies repo`roles, repo`groups, repo`groupMeta
      ensures repo.State() == SeededDelegation(old(repo.State()))
      ensures seeded == 0 ==> repo.State() == old(repo.State())
    {
      seeded := DelegateServices(DELEGATED_SERVICES);
      var added := EnsurePlatformAdmins();
      seeded := seeded + added;
    }

    method DelegateServices(svcs: seq<string>) returns (seeded: nat)
      modifies repo`roles, repo`groups
      ensures repo.State() == DelegatedAll(old(repo.State()), svcs)
      ensures seeded == 0 ==> repo.State() == old(repo.State())
    {
      seeded := 0;
      for i := 0 to |svcs|
        invariant repo.State() == DelegatedAll(old(repo.State()), svcs[..i])
        invariant seeded == 0 ==> repo.State() == old(repo.State())
      {
        assert svcs[..i + 1][..i] == svcs[..i];
        var added := DelegateService(svcs[i]);
        seeded := seeded + added;
      }
      assert svcs[..|svcs|] == svcs;
    }

    method EnsurePlatformAdmins() returns (added: nat)
      modifies repo`groups, repo`groupMeta
      ensures repo.State() == WithPlatformAdmins(old(repo.State()))
      ensures added == 0 ==> repo.State() == old(repo.State())
    {
      if PLATFORM_ADMINS in repo.groups {
        return 0;
      }
      repo.SetGroup(PLATFORM_ADMINS, map["global" := ["admin"]]);
      repo.SetGroupMetadata(PLATFORM_ADMINS,
        Meta(true, Some("Global admin (all services). Assigned by super_admins only."), None, None, None));
      return 1;
    }

    /** Missing role and groups of one service; how many were missing. */
    method DelegateService(svc: string) returns (seeded: nat)
      modifies repo`roles, repo`groups
      ensures repo.State() == Delegated(old(repo.State()), svc)
      ensures seeded == 0 ==> repo.State() == old(repo.State())
    {
      seeded := 0;
      if svc !in repo.services {
        return;
      }
      var roles := if svc in repo.roles then repo.roles[svc] else map[];
      if ORG_ADMIN !in roles {
        repo.SetRoles(svc, roles[ORG_ADMIN := OrgAdminPerms(roles)]);
        seeded := seeded + 1;
      }
      var viewers := EnsureGroup(svc + "-viewer", map[svc := ["viewer"]]);
      var admins := EnsureGroup(svc + "-admin", map[svc := ["admin"]]);
      seeded := seeded + viewers + admins;
    }

    method EnsureGroup(name: string, def: GroupDef) returns (added: nat)
      modifies repo`groups
      ensures repo.groups == Ensured(old(repo.groups), name, def)
      ensures added == 0 ==> repo.groups == old(repo.groups)
    {
      if name in repo.groups {
        return 0;
      }
      repo.SetGroup(name, def);
      return 1;
    }

    method RunUpsertOnly(b: Build, now: int)
      modifies repo
      ensures repo.State() == Upserted(old(repo.State()), b, now)
    {
      UpsertBuiltInRules(b.rules);
      var added, total := RouteMapMerge.MergeJinbeRouteMap(repo, b.routes);
      assert repo.State() == WithBuiltInRoutes(WithBuiltInRules(old(repo.State()), b), b);
      var groupsMarked, servicesMarked := ApplySystemMetadataMigration(now);
      var seeded := SeedDelegation();
    }

    method RunFullBootstrap(b: Build, now: int)
      modifies repo
      ensures repo.State() == FullySeeded(old(repo.State()), b, now)
    {
      var seeded := SeedRbacDefaults();
      if b.hasApp {
        var s, r := SeedKumaService();
      }
      RunUpsertOnly(b, now);
    }

    method BuildMarker(previous: Option<Marker>, b: Build, now: int) returns (m: Marker)
      ensures m == BuiltMarker(previous, b, now)
    {
      var from := if previous.Some? then Some(previous.value.schemaVersion) else None;
      var migrations := if previous.Some? then previous.value.migrations else [];
      if previous.None? || (from.Some? && from.value < b.schemaVersion) {
        migrations := migrations + [Migration(from, b.schemaVersion, now, b.gitSha)];
      }
      return Marker(b.version, b.schemaVersion, b.gitSha, if previous.Some? then previous.value.bootstrappedAt
             else now, now,
                    from, migrations, b.rulesHash, b.routesHash);
    }

    /** Somebody else's lock ends the run at once; a forced one forgets the marker first. */
    method RunBootstrap(b: Build, now: int, locked: bool, force: bool) returns (outcome: Outcome)
      modifies this, repo
      ensures locked ==> outcome == LockHeld && marker == old(marker) && repo.State() == old(repo.State())
      ensures !locked ==>
                var before := if force then None else old(marker);
                && outcome == OutcomeOf(before, b)
                && Install(marker, repo.State()) == Run(Install(before, old(repo.State())), b, now)
                && (Effects.HasWork(before, b) ==>
                     Effects.RulesBroughtIn(old(repo.rules), repo.rules, b.rules) && Effects.Protected(repo.State()))
                && (before.None? && old(repo.groups) == map[] ==> Effects.DoorOpen(repo.State()))
    {
      if locked {
        return LockHeld;
      }
      if force {
        marker := None;
      }
      ghost var before := Install(marker, repo.State());
      outcome := DecideAndRun(b, now);
      if Effects.HasWork(before.marker, b) {
        Effects.BuiltInRulesStored(before, b, now);
        Effects.TagsInPlace(before, b, now);
      }
      if before.marker.None? && old(repo.groups) == map[] {
        Effects.FirstRunOpensTheDoor(before, b, now);
      }
    }

    method DecideAndRun(b: Build, now: int) returns (outcome: Outcome)
      modifies this, repo
      ensures outcome == OutcomeOf(old(marker), b)
      ensures Install(marker, repo.State()) == Run(Install(old(marker), old(repo.State())), b, now)
    {
      outcome := Decide(b);
      Seed(outcome, b, now);
      if outcome.SchemaDowngrade? || outcome.NoOp? {
        return;
      }
      var built := BuildMarker(marker, b, now);
      marker := Some(built);
    }

    method Decide(b: Build) returns (outcome: Outcome)
      ensures outcome == OutcomeOf(marker, b)
    {
      if marker.Some? && marker.value.schemaVersion > b.schemaVersion {
        return SchemaDowngrade;
      }
      if marker.None? {
        return FirstRun;
      }
      if marker.value.schemaVersion < b.schemaVersion {
        return SchemaUpgrade;
      }
      if marker.value.rulesHash != b.rulesHash || marker.value.routesHash != b.routesHash {
        return BuiltinsDrift;
      }
      return NoOp;
    }

    method Seed(outcome: Outcome, b: Build, now: int)
      modifies repo
      ensures repo.State() == SeedsOf(outcome, old(repo.State()), b, now)
    {
      match outcome {
        case SchemaDowngrade =>
        case LockHeld =>
        case FirstRun =>
          RunFullBootstrap(b, now);
        case SchemaUpgrade =>
          RunUpsertOnly(b, now);
        case BuiltinsDrift =>
          RunUpsertOnly(b, now);
        case NoOp =>
          var groupsMarked, servicesMarked := ApplySystemMetadataMigration(now);
      }
    }
  }
}
