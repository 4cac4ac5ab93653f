/**
 What an impact preview compares, in terms of the current configuration and the proposal: the second dataset key by
 key, what anybody may do under it, and which sampled decisions are reported as lost, gained or steady.
 */
module PreviewEffects {
  import opened Prelude
  import opened GroupList
  import opened RbacStore
  import opened Power
  import opened Resolver
  import opened ImpactPreview

  /** The proposed entry if there is one, the current one otherwise. */
  ghost predicate Overlaid<V(!new)>(cur: map<string, V>, proposed: map<string, V>, next: map<string, V>) {
    && (forall key :: key in next <==> key in cur || key in proposed)
    && (forall key :: key in proposed ==> next[key] == proposed[key])
    && (forall key :: key in cur && key !in proposed ==> next[key] == cur[key])
  }

  /** Each of the four tables of the second dataset is the current one with the proposed entries over it. */
  lemma MergedKeyByKey(cur: Dataset, p: Proposed)
    ensures var next := Merged(cur, p);
            && Overlaid(cur.membership, p.membership, next.membership)
            && Overlaid(cur.groups, p.groups, next.groups)
            && Overlaid(cur.roles, p.roles, next.roles)
            && Overlaid(cur.routeMaps, p.routeMaps, next.routeMaps)
  {
  }

  /** The roles a group binds on a service under the proposal: a proposed definition replaces the current one whole. */
  function Binds(cur: Dataset, p: Proposed, g: string, svc: string): seq<string> {
    if g in p.groups then if svc in p.groups[g] then p.groups[g][svc] else []
    else if g in cur.groups && svc in cur.groups[g] then cur.groups[g][svc]
    else []
  }

  /** The permissions of a role in the map of one service, likewise. */
  function Defines(cur: Dataset, p: Proposed, svc: string, role: string): seq<string> {
    if svc in p.roles then if role in p.roles[svc] then p.roles[svc][role] else []
    else if svc in cur.roles && role in cur.roles[svc] then cur.roles[svc][role]
    else []
  }

  /** One of the groups binds a role, globally or in the application, that either map lets do `perm`. */
  ghost predicate GrantedTo(cur: Dataset, p: Proposed, gs: seq<string>, app: string, perm: string) {
    exists g, svc, role, where ::
      && g in gs && role in Binds(cur, p, g, svc) && perm in Defines(cur, p, where, role)
      && (svc == "global" || svc == app) && (where == "global" || where == app)
  }

  /**
   After the change an edited user may do exactly what the proposed groups grant, anybody else what their current
   groups (or the base group, for an address that is not listed) grant: each group and role under its proposed
   definition if there is one.
   */
  lemma MayAfterwards(cur: Dataset, p: Proposed, email: string, app: string, perm: string)
    ensures var next := Merged(cur, p);
            May(GroupsOf(next.membership, email), next.groups, next.roles, app, perm)
            <==> GrantedTo(cur, p, if email in p.membership then p.membership[email]
                                   else if email in cur.membership then cur.membership[email] else ["users"],
                           app, perm)
  {
    var next := Merged(cur, p);
    forall g, svc ensures Binds(cur, p, g, svc) == Bound(next.groups, g, svc) {
    }
    forall svc, role ensures Defines(cur, p, svc, role) == Perms(next.roles, svc, role) {
    }
    var gs := GroupsOf(next.membership, email);
    if May(gs, next.groups, next.roles, app, perm) {
      MayIsGranted(cur, p, gs, next.groups, next.roles, app, perm);
    }
    if GrantedTo(cur, p, gs, app, perm) {
      GrantedMay(cur, p, gs, next.groups, next.roles, app, perm);
    }
  }

  lemma MayIsGranted(cur: Dataset, p: Proposed, gs: seq<string>, groups: map<string, GroupDef>,
                     roles: map<string, RoleMap>, app: string, perm: string)
    requires forall g, svc :: Binds(cur, p, g, svc) == Bound(groups, g, svc)
    requires forall svc, role :: Defines(cur, p, svc, role) == Perms(roles, svc, role)
    requires May(gs, groups, roles, app, perm)
    ensures GrantedTo(cur, p, gs, app, perm)
  {
    var role :| HasRole(gs, groups, app, role) && RoleGives(roles, app, role, perm);
    var g :| g in gs && (role in Bound(groups, g, GLOBAL) || role in Bound(groups, g, app));
    var svc := if role in Bound(groups, g, GLOBAL) then GLOBAL else app;
    var where := if perm in Perms(roles, GLOBAL, role) then GLOBAL else app;
    assert role in Binds(cur, p, g, svc) && perm in Defines(cur, p, where, role);
  }

  lemma GrantedMay(cur: Dataset, p: Proposed, gs: seq<string>, groups: map<string, GroupDef>,
                   roles: map<string, RoleMap>, app: string, perm: string)
    requires forall g, svc :: Binds(cur, p, g, svc) == Bound(groups, g, svc)
    requires forall svc, role :: Defines(cur, p, svc, role) == Perms(roles, svc, role)
    requires GrantedTo(cur, p, gs, app, perm)
    ensures May(gs, groups, roles, app, perm)
  {
    var g, svc, role, where :| g in gs && role in Binds(cur, p, g, svc) && perm in Defines(cur, p, where, role)
                               && (svc == "global" || svc == app) && (where == "global" || where == app);
    assert role in Bound(groups, g, svc) && perm in Perms(roles, where, role);
    assert HasRole(gs, groups, app, role) && RoleGives(roles, app, role, perm);
  }

  /** The first dataset is the second of a proposal that proposes nothing; such a proposal touches nobody. */
  lemma NothingProposed(cur: Dataset)
    ensures var p := Proposed(map[], map[], map[], map[]);
            && Merged(cur, p) == cur
            && forall x :: !UserAffected(cur, p, x) && !ServiceAffected(cur, p, x)
  {
  }

  // ── Flips ─────────────────────────────────────────────────────────────────

  function Fallen(before: seq<bool>, after: seq<bool>): set<nat>
    requires |before| == |after|
  {
    set i: nat | i < |before| && before[i] && !after[i]
  }

  function Alike(before: seq<bool>, after: seq<bool>): set<nat>
    requires |before| == |after|
  {
    set i: nat | i < |before| && before[i] == after[i]
  }

  /**
   Of the sampled tuples, those allowed before and denied after are the losses, those denied before and allowed
   after the gains; each is reported as often as it was sampled, in the order of the sample, and the rest is counted.
   */
  lemma ReportedFlips(list: seq<Tuple>, before: seq<bool>, after: seq<bool>, losses: seq<Flip>, gains: seq<Flip>,
                      steady: nat)
    requires |before| == |after| == |list|
    requires Partition(Flips(list, before, after), losses, gains, steady)
    ensures |losses| == |Fallen(before, after)| && |gains| == |Fallen(after, before)|
            && steady == |Alike(before, after)|
    ensures forall f :: f in losses <==> exists i :: 0 <= i < |list| && before[i] && !after[i]
                                                     && f == Flip(list[i], true, false)
    ensures forall f :: f in gains <==> exists i :: 0 <= i < |list| && !before[i] && after[i]
                                                    && f == Flip(list[i], false, true)
  {
    var all := Flips(list, before, after);
    ByPlace(all, Lost, Fallen(before, after));
    ByPlace(all, Gained, Fallen(after, before));
    CountByPlace(all, Same, Alike(before, after));
    forall i | 0 <= i < |list| ensures all[i] == Flip(list[i], before[i], after[i]) {
    }
  }

  lemma ByPlace<T(!new)>(s: seq<T>, p: T -> bool, places: set<nat>)
    requires forall i: nat :: i in places <==> i < |s| && p(s[i])
    ensures |Filter(s, p)| == |places|
  {
    CountByPlace(s, p, places);
    FilterCounts(s, p);
  }
}
