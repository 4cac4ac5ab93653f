/** The Redis keys that hold the RBAC configuration. JSON encoding is the identity. */
module RbacStore {
  import opened Prelude
  import opened AccessRules

  type GroupDef = map<string, seq<string>>   // service (or "global") -> roles
  type RoleMap = map<string, seq<string>>    // role -> permissions

  datatype RouteRule = RouteRule(verb: string, path: string, permission: Option<string>)

  datatype Meta = Meta(
    system: bool, description: Option<string>, createdBy: Option<string>, createdAt: Option<int>,
        updatedAt: Option<int>)

  /** `orgs` is the normalised view: a legacy scalar reads as a one-element list. */
  datatype Rbac = Rbac(
    services: set<string>,
    groups: map<string, GroupDef>,
    roles: map<string, RoleMap>,
    routeMaps: map<string, seq<RouteRule>>,
    rules: seq<Rule>,
    orgs: map<string, seq<string>>,
    groupMeta: map<string, Meta>,
    serviceMeta: map<string, Meta>)

  /** The roles every service gets. */
  function DefaultServiceRoles(name: string): RoleMap {
    map[
      "admin" := ["*"],
      "operator" := [name + ":list", name + ":read", name + ":create", name + ":update", name + ":delete", name
          + ":execute"],
      "editor" := [name + ":list", name + ":read", name + ":create", name + ":update"],
      "viewer" := [name + ":list", name + ":read"]
    ]
  }

  const DEFAULT_ROLE_NAMES: set<string> := {"admin", "operator", "editor", "viewer"}

  /** The list an org mapping is stored as: no empty names, no duplicates. */
  function OrgServices(names: seq<string>): seq<string> {
    Dedup(Filter(names, (s: string) => s != ""))
  }

  class RbacRepository {
    var services: set<string>
    var groups: map<string, GroupDef>
    var roles: map<string, RoleMap>
    var routeMaps: map<string, seq<RouteRule>>
    var rules: seq<Rule>
    var orgs: map<string, seq<string>>
    var groupMeta: map<string, Meta>
    var serviceMeta: map<string, Meta>

    constructor ()
      ensures State() == Rbac({}, map[], map[], map[], [], map[], map[], map[])
    {
      services, groups, roles, routeMaps, rules, orgs, groupMeta, serviceMeta :=
        {}, map[], map[], map[], [], map[], map[], map[];
    }

    ghost function State(): Rbac
      reads this
    {
      Rbac(services, groups, roles, routeMaps, rules, orgs, groupMeta, serviceMeta)
    }

    method AddService(name: string)
      modifies `services
      ensures services == old(services) + {name}
    {
      services := services + {name};
    }

    method RemoveService(name: string)
      modifies `services
      ensures services == old(services) - {name}
    {
      services := services - {name};
    }

    method SetGroup(name: string, def: GroupDef)
      modifies `groups
      ensures groups == old(groups)[name := def]
    {
      groups := groups[name := def];
    }

    method DeleteGroup(name: string)
      modifies `groups
      ensures groups == old(groups) - {name}
    {
      groups := groups - {name};
    }

    method SetRoles(service: string, r: RoleMap)
      modifies `roles
      ensures roles == old(roles)[service := r]
    {
      roles := roles[service := r];
    }

    method DeleteRoles(service: string)
      modifies `roles
      ensures roles == old(roles) - {service}
    {
      roles := roles - {service};
    }

    method SetRouteMap(service: string, rm: seq<RouteRule>)
      modifies `routeMaps
      ensures routeMaps == old(routeMaps)[service := rm]
    {
      routeMaps := routeMaps[service := rm];
    }

    method DeleteRouteMap(service: string)
      modifies `routeMaps
      ensures routeMaps == old(routeMaps) - {service}
    {
      routeMaps := routeMaps - {service};
    }

    method SetAccessRules(rs: seq<Rule>)
      modifies `rules
      ensures rules == rs
    {
      rules := rs;
    }

    /** Stores the cleaned list; an empty one removes the mapping. */
    method SetOrgServiceMapping(org: string, names: seq<string>)
      modifies `orgs
      ensures orgs == if OrgServices(names) == [] then old(orgs) - {org} else old(orgs)[org := OrgServices(names)]
    {
      var bundle := OrgServices(names);
      if bundle == [] {
        orgs := orgs - {org};
        return;
      }
      orgs := orgs[org := bundle];
    }

    method SetGroupMetadata(name: string, meta: Meta)
      modifies `groupMeta
      ensures groupMeta == old(groupMeta)[name := meta]
    {
      groupMeta := groupMeta[name := meta];
    }

    method SetServiceMetadata(name: string, meta: Meta)
      modifies `serviceMeta
      ensures serviceMeta == old(serviceMeta)[name := meta]
    {
      serviceMeta := serviceMeta[name := meta];
    }
  }
}
