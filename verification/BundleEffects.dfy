/**
 What an import of a bundle leaves under every key of the store, and what a service's default roles may do. Read
 off the stored tables alone.
 */
module BundleEffects {
  import opened Prelude
  import opened AccessRules
  import opened RbacStore
  import opened RbacBundle

  // ── The default roles of a service ────────────────────────────────────────

  /**
   The roles of a service that was given some: those, as they were given, and the default ones left out. Of these
   only `admin` holds the wildcard; the others stay within the service, and each of `viewer`, `editor` and `operator`
   adds two actions to the one before.
   */
  ghost predicate DefaultsFilledIn(svc: string, given: RoleMap, after: RoleMap) {
    && after.Keys == given.Keys + {"admin", "operator", "editor", "viewer"}
    && (forall role :: role in given ==> after[role] == given[role])
    && (forall role :: role in after && role !in given ==>
         ("*" in after[role] <==> role == "admin") && forall p :: p in after[role] ==> p == "*" || svc + ":" <= p)
    && ("viewer" !in given ==> after["viewer"] == [svc + ":list", svc + ":read"])
    && ("viewer" !in given && "editor" !in given ==>
         after["editor"] == after["viewer"] + [svc + ":create", svc + ":update"])
    && ("editor" !in given && "operator" !in given ==>
         after["operator"] == after["editor"] + [svc + ":delete", svc + ":execute"])
  }

  /** What an import leaves any service with that the bundle gives roles, or registers. */
  lemma RolesAfterImport(b: Bundle, sections: seq<Section>, s: Rbac, svc: string)
    requires Wants(sections, Roles) && svc != "global"
    requires svc in b.roles || (Wants(sections, Services) && svc in b.services)
    ensures svc in Applied(b, sections, s).roles
    ensures DefaultsFilledIn(svc, if svc in b.roles then b.roles[svc] else map[], Applied(b, sections, s).roles[svc])
  {
    RolesAt(b, sections, Orphans(b, sections, s.services), s.roles, svc);
    var given := if svc in b.roles then b.roles[svc] else map[];
    assert Applied(b, sections, s).roles[svc] == DefaultServiceRoles(svc) + given;
    Filled(svc, given);
  }

  lemma Filled(svc: string, given: RoleMap)
    ensures DefaultsFilledIn(svc, given, DefaultServiceRoles(svc) + given)
  {
    DefaultsAreScoped(svc);
    assert (DefaultServiceRoles(svc) + given).Keys == DefaultServiceRoles(svc).Keys + given.Keys;
  }

  lemma DefaultsAreScoped(svc: string)
    ensures var r := DefaultServiceRoles(svc);
            && r.Keys == {"admin", "operator", "editor", "viewer"}
            && (forall role :: role in r ==>
                 ("*" in r[role] <==> role == "admin") && forall p :: p in r[role] ==> p == "*" || svc + ":" <= p)
            && r["viewer"] == [svc + ":list", svc + ":read"]
            && r["editor"] == r["viewer"] + [svc + ":create", svc + ":update"]
            && r["operator"] == r["editor"] + [svc + ":delete", svc + ":execute"]
  {
    forall action: string | action in {"list", "read", "create", "update", "delete", "execute"}
      ensures svc + ":" <= svc + ":" + action && svc + ":" + action != "*"
    {
      assert |svc + ":" + action| > 1;
    }
  }

  /** `global` is not a service: what the bundle gives for it passes through. */
  lemma GlobalRolesPassThrough(b: Bundle, sections: seq<Section>, s: Rbac)
    requires Wants(sections, Roles) && "global" in b.roles
    ensures At(Applied(b, sections, s).roles, "global") == Some(b.roles["global"])
  {
    RolesAt(b, sections, Orphans(b, sections, s.services), s.roles, "global");
  }

  // ── Every other key ───────────────────────────────────────────────────────

  /** A full restore takes this registered service out. */
  predicate Pruned(b: Bundle, sections: seq<Section>, s: Rbac, svc: string) {
    svc in s.services && svc !in b.services && Wants(sections, Services) && IsFull(sections)
  }

  /**
   An import, whole or in part, key by key: a wanted section takes the bundle's value wherever the bundle has the
   key; any other key keeps its own, unless a full restore prunes it.
   */
  lemma ImportKeyByKey(b: Bundle, sections: seq<Section>, s: Rbac, key: string)
    ensures var after := Applied(b, sections, s);
            && (key in after.services <==>
                 if Wants(sections, Services) && key in b.services then true
                 else key in s.services && !Pruned(b, sections, s, key))
            && At(after.groups, key) == (
                 if !Wants(sections, Groups) then At(s.groups, key)
                 else if key in b.groups || IsFull(sections) then At(b.groups, key)
                 else At(s.groups, key))
            && At(after.routeMaps, key) == (
                 if Wants(sections, RouteMaps) && key in b.routeMaps then Some(b.routeMaps[key])
                 else if Pruned(b, sections, s, key) then None
                 else At(s.routeMaps, key))
            && after.rules == (if Wants(sections, Rules) then b.rules else s.rules)
            && after.groupMeta == s.groupMeta && after.serviceMeta == s.serviceMeta
  {
  }

  /** The same for the roles of whatever the import gives none. */
  lemma OtherRolesAfterImport(b: Bundle, sections: seq<Section>, s: Rbac, svc: string)
    requires !Wants(sections, Roles) || (svc !in b.roles && !(svc in b.services && Wants(sections, Services)))
    ensures At(Applied(b, sections, s).roles, svc) == if Pruned(b, sections, s, svc) then None else At(s.roles, svc)
  {
    RolesAt(b, sections, Orphans(b, sections, s.services), s.roles, svc);
  }

  /** The names an org mapping is given, whichever way the bundle writes them. */
  predicate Given(v: OrgValue, names: seq<string>) {
    match v case Scalar(n) => names == [n] case Names(ns) => names == ns
  }

  /**
   The org mappings after an import: a named org is stored with the non-empty names the bundle gives, each once and
   in the order of its first mention; without such a name its mapping goes. Other orgs keep theirs.
   */
  lemma OrgsAfterImport(b: Bundle, sections: seq<Section>, s: Rbac, org: string, names: seq<string>)
    requires org in b.orgs ==> Given(b.orgs[org], names)
    ensures var after := Applied(b, sections, s).orgs;
            if !Wants(sections, Orgs) || org !in b.orgs then At(after, org) == At(s.orgs, org)
            else if forall n :: n in names ==> n == "" then org !in after
            else
              && org in after && Distinct(after[org])
              && (forall n :: n in after[org] <==> n in names && n != "")
              && FirstMentions(after[org], names)
  {
    if Wants(sections, Orgs) && org in b.orgs {
      var kept := Filter(names, (n: string) => n != "");
      assert NamesOf(b.orgs[org]) == names;
      HasNone(kept);
      DedupOrder(kept);
      FilterOrder(Dedup(kept), names, (n: string) => n != "");
    }
  }

  /** The order of `r` is that of the first mentions in `s`. */
  ghost predicate FirstMentions(r: seq<string>, s: seq<string>) {
    forall i, j, k :: 0 <= i < j < |r| && 0 <= k < |s| && s[k] == r[j] ==> r[i] in s[..k]
  }

  lemma {:induction false} DedupOrder(s: seq<string>)
    ensures FirstMentions(Dedup(s), s)
  {
    if s != [] {
      var front, last := s[..|s| - 1], s[|s| - 1];
      DedupOrder(front);
      var r := Dedup(s);
      forall i, j, k | 0 <= i < j < |r| && 0 <= k < |s| && s[k] == r[j] ensures r[i] in s[..k] {
        assert r[i] in Dedup(front);
        if k < |front| {
          assert front[k] == s[k] && front[..k] == s[..k];
          assert s[k] in front;
        }
      }
    }
  }

  /** Dropping what is not wanted keeps the order of first mentions. */
  lemma {:induction false} FilterOrder(r: seq<string>, s: seq<string>, p: string -> bool)
    requires FirstMentions(r, Filter(s, p)) && forall x :: x in r ==> p(x)
    ensures FirstMentions(r, s)
  {
    forall i, j, k | 0 <= i < j < |r| && 0 <= k < |s| && s[k] == r[j] ensures r[i] in s[..k] {
      assert r[j] in r;
      FilterSnoc(s, k, p);
      var n := |Filter(s[..k], p)|;
      assert s == s[..k + 1] + s[k + 1..];
      FilterAppend(s[..k + 1], s[k + 1..], p);
      assert Filter(s, p)[n] == s[k];
      assert Filter(s, p)[..n] == Filter(s[..k], p);
    }
  }

  // ── The rules an import lets through ──────────────────────────────────────

  /**
   The main rule of a new service passes the import's own validation exactly when it has a name, a URL on both
   sides and known methods, and the gateway enables the handlers its posture takes; so an export can be imported
   again unless one of these has gone.
   */
  lemma BuiltRulePasses(gw: Gateway, isUrl: string -> bool, name: string, upstream: Upstream, matchUrl: string,
                        methods: seq<string>, signIn: seq<SignIn>)
    requires MainRule(gw, name, upstream, matchUrl, methods, signIn).Ok?
    ensures RuleOk(gw, isUrl, MainRule(gw, name, upstream, matchUrl, methods, signIn).value) <==>
            && name != "" && isUrl(upstream.url) && matchUrl != ""
            && (forall m :: m in methods ==> m in {"GET", "POST", "PUT", "PATCH", "DELETE", "OPTIONS", "HEAD"})
            && if signIn == [] then "noop" in gw.authenticators && "allow" in gw.authorizers && "noop" in gw.mutators
               else "remote_json" in gw.authorizers && "header" in gw.mutators
  {
    var rule := MainRule(gw, name, upstream, matchUrl, methods, signIn).value;
    assert rule.mutators[0] in rule.mutators;
    if signIn == [] {
      assert rule.authenticators[0] in rule.authenticators;
    }
  }

  /** Rules without an id are told apart by their place. */
  lemma LabelsTellApart(r: Rule, at: nat, r': Rule, at': nat)
    requires r.id == r'.id == "" && at != at'
    ensures Label(r, at) != Label(r', at')
  {
    if Label(r, at) == Label(r', at') {
      var l, l' := "(rule #" + Decimal(at) + ")", "(rule #" + Decimal(at') + ")";
      assert l[7..|l| - 1] == Decimal(at) && l'[7..|l'| - 1] == Decimal(at');
      DecimalInjective(at, at');
    }
  }

  lemma {:induction false} DecimalInjective(m: nat, n: nat)
    ensures Decimal(m) == Decimal(n) ==> m == n
  {
    if Decimal(m) == Decimal(n) {
      if m >= 10 && n >= 10 {
        var front, front' := Decimal(m / 10), Decimal(n / 10);
        assert Decimal(m)[..|front|] == front && Decimal(n)[..|front'|] == front';
        DecimalInjective(m / 10, n / 10);
        assert Decimal(m)[|front|] == Decimal(n)[|front'|];
      } else if m >= 10 {
        DecimalNonEmpty(m / 10);
      } else if n >= 10 {
        DecimalNonEmpty(n / 10);
      }
    }
  }

  lemma DecimalNonEmpty(n: nat)
    ensures Decimal(n) != ""
  {
  }
}
