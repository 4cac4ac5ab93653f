/**
 Identity writes that must not touch group membership: the full update, the metadata patch, the state
 change and creation; and the one that must, the clean-up after a group is deleted. Requests run one
 after another.
 */
module Identities {
  import opened Prelude
  import opened Text
  import opened GroupList

  const GROUPS: string := "groups"

  /** A metadata value, as far as membership is concerned: a list (of what its entries print as) or anything else. */
  datatype Val = ListOf(items: seq<string>) | OtherVal(text: string)
  type Meta = map<string, Val>

  datatype Identity = Identity(state: string, traits: map<string, string>, metaPublic: Option<Meta>,
      metaAdmin: Option<Meta>)

  /** The optional parts of an update; an explicit null counts as absent. */
  datatype Update = Update(
    state: Option<string>, traits: map<string, string>, metaPublic: Option<Meta>, metaAdmin: Option<Meta>)

  /** The stored membership: absent, a list, or some other value. */
  function StoredGroups(identity: Identity): Option<Val> {
    if identity.metaAdmin.Some? && GROUPS in identity.metaAdmin.value then Some(identity.metaAdmin.value[GROUPS])
        else None
  }

  // ── Comparing group lists ─────────────────────────────────────────────────

  function CurrentList(current: Option<Val>): seq<string> {
    if current.Some? && current.value.ListOf? then current.value.items else []
  }

  /** Sorted copies, element by element; a request that is no list matches only an empty membership. */
  function SameGroups(requested: Val, current: Option<Val>): bool {
    var cur := CurrentList(current);
    if !requested.ListOf? then |cur| == 0
    else if |requested.items| != |cur| then false
    else
      var a, b := Sort(requested.items), Sort(cur);
      forall i :: 0 <= i < |a| ==> a[i] == b[i]
  }

  /** A list is accepted exactly if it is a reordering of the stored groups. */
  lemma SameGroupsExactly(requested: Val, current: Option<Val>)
    ensures requested.ListOf? ==>
              (SameGroups(requested, current) <==> multiset(requested.items) == multiset(CurrentList(current)))
    ensures !requested.ListOf? ==> (SameGroups(requested, current) <==> CurrentList(current) == [])
  {
    if requested.ListOf? {
      var cur := CurrentList(current);
      SortDecides(requested.items, cur);
      assert |multiset(requested.items)| == |requested.items| && |multiset(cur)| == |cur|;
      if |requested.items| == |cur| {
        assert SameGroups(requested, current) <==> Sort(requested.items) == Sort(cur);
      }
    }
  }

  // ── What each write does to one identity ──────────────────────────────────

  /** The directory's replace: parts not given keep their value, traits merge. */
  function Replaced(cur: Identity, u: Update): Identity {
    Identity(u.state.GetOr(cur.state), cur.traits + u.traits,
             if u.metaPublic.Some? then u.metaPublic else cur.metaPublic,
             if u.metaAdmin.Some? then u.metaAdmin else cur.metaAdmin)
  }

  function WithoutGroups(meta: Meta): Meta {
    meta - {GROUPS}
  }

  /** Does this request try to change the membership? */
  predicate MovesGroups(cur: Identity, metaAdmin: Option<Meta>) {
    metaAdmin.Some? && GROUPS in metaAdmin.value && !SameGroups(metaAdmin.value[GROUPS], StoredGroups(cur))
  }

  /** Full update: the stored groups are pinned into the replacing metadata. */
  function Updated(cur: Identity, u: Update): Identity {
    var groups := StoredGroups(cur);
    var meta :=
      if groups.Some? then Some(u.metaAdmin.GetOr(map[])[GROUPS := groups.value])
      else if u.metaAdmin.Some? then Some(WithoutGroups(u.metaAdmin.value))
      else None;
    Replaced(cur, u.(metaAdmin := meta))
  }

  /** Metadata patch: merged key by key, the groups key left out. */
  function Patched(cur: Identity, metaPublic: Option<Meta>, metaAdmin: Option<Meta>): Identity {
    Replaced(cur, Update(None, map[],
      if metaPublic.Some? then Some(cur.metaPublic.GetOr(map[]) + metaPublic.value) else cur.metaPublic,
      if metaAdmin.Some? then Some(cur.metaAdmin.GetOr(map[]) + WithoutGroups(metaAdmin.value)) else cur.metaAdmin))
  }

  // ── Requests, and runs of them ────────────────────────────────────────────

  datatype Request =
    | PutUser(id: string, update: Update)
    | PatchMetadata(id: string, metaPublic: Option<Meta>, metaAdmin: Option<Meta>)
    | SetState(id: string, state: string)

  predicate Refused(store: map<string, Identity>, q: Request) {
    q.id !in store
    || (q.PutUser? && MovesGroups(store[q.id], q.update.metaAdmin))
    || (q.PatchMetadata? && MovesGroups(store[q.id], q.metaAdmin))
  }

  function After(store: map<string, Identity>, q: Request): map<string, Identity> {
    if Refused(store, q) then store
    else
      var cur := store[q.id];
      store[q.id :=
        match q
        case PutUser(_, update) => Updated(cur, update)
        case PatchMetadata(_, p, a) => Patched(cur, p, a)
        case SetState(_, state) => Replaced(cur, Update(Some(state), map[], None, None))]
  }

  function AfterAll(store: map<string, Identity>, qs: seq<Request>): map<string, Identity> {
    if qs == [] then store else AfterAll(After(store, qs[0]), qs[1..])
  }

  lemma WriteKeepsGroups(cur: Identity, q: Request)
    ensures q.PutUser? ==> StoredGroups(Updated(cur, q.update)) == StoredGroups(cur)
    ensures q.PatchMetadata? ==> StoredGroups(Patched(cur, q.metaPublic, q.metaAdmin)) == StoredGroups(cur)
    ensures q.SetState? ==> StoredGroups(Replaced(cur, Update(Some(q.state), map[], None, None))) == StoredGroups(cur)
  {
  }

  /**
   No sequence of generic writes alters anybody's stored membership, not even its order, or adds or drops an
   identity.
   */
  lemma {:induction false} GroupsNeverMove(store: map<string, Identity>, qs: seq<Request>)
    ensures AfterAll(store, qs).Keys == store.Keys
    ensures forall id :: id in store ==> StoredGroups(AfterAll(store, qs)[id]) == StoredGroups(store[id])
  {
    if qs != [] {
      var next := After(store, qs[0]);
      if !Refused(store, qs[0]) {
        WriteKeepsGroups(store[qs[0].id], qs[0]);
      }
      assert next.Keys == store.Keys;
      assert forall id :: id in store ==> StoredGroups(next[id]) == StoredGroups(store[id]);
      GroupsNeverMove(next, qs[1..]);
    }
  }

  /**
   A full update that says nothing about admin metadata keeps it whole exactly when there is no membership to pin,
   or nothing but the membership to keep.
   */
  lemma OmittedMetadataExactly(cur: Identity, u: Update)
    requires u.metaAdmin.None?
    ensures Updated(cur, u).metaAdmin == cur.metaAdmin
            <==> (StoredGroups(cur).Some? ==> cur.metaAdmin.value.Keys == {GROUPS})
  {
    if StoredGroups(cur).Some? {
      var pinned := map[GROUPS := StoredGroups(cur).value];
      assert map[][GROUPS := StoredGroups(cur).value] == pinned;
      assert Updated(cur, u).metaAdmin == Some(pinned);
      if cur.metaAdmin.value.Keys == {GROUPS} {
        assert cur.metaAdmin.value == pinned;
      }
    }
  }

  // ── What a request writes, key by key ─────────────────────────────────────

  /** A key of the admin metadata other than the membership. */
  function Other(meta: Option<Meta>, key: string): Option<Val> {
    if meta.Some? && key != GROUPS && key in meta.value then Some(meta.value[key]) else None
  }

  /** Refused are unknown identities and requests whose groups differ from the stored ones, order aside. */
  lemma RefusedExactly(store: map<string, Identity>, q: Request)
    ensures Refused(store, q) <==>
            || q.id !in store
            || (var asked := if q.PutUser? then q.update.metaAdmin else if q.PatchMetadata? then q.metaAdmin else None;
                var held := CurrentList(StoredGroups(store[q.id]));
                asked.Some? && "groups" in asked.value
                && match asked.value["groups"]
                   case ListOf(items) => multiset(items) != multiset(held)
                   case OtherVal(_) => held != [])
  {
    if q.id in store {
      var asked := if q.PutUser? then q.update.metaAdmin else if q.PatchMetadata? then q.metaAdmin else None;
      if asked.Some? && GROUPS in asked.value {
        SameGroupsExactly(asked.value[GROUPS], StoredGroups(store[q.id]));
      }
    }
  }

  /**
   A full update that is not refused: state and metadata as given, or kept; traits over the old ones, key by key.
   Admin metadata, when given, replaces the old whole, and left out is lost as soon as there is a membership to pin.
   */
  lemma UpdateWrites(store: map<string, Identity>, id: string, u: Update, key: string)
    requires !Refused(store, PutUser(id, u))
    ensures var before, after := store[id], After(store, PutUser(id, u))[id];
            && after.state == (if u.state.Some? then u.state.value else before.state)
            && after.metaPublic == (if u.metaPublic.Some? then u.metaPublic else before.metaPublic)
            && (key in after.traits <==> key in u.traits || key in before.traits)
            && (key in u.traits ==> after.traits[key] == u.traits[key])
            && (key in before.traits && key !in u.traits ==> after.traits[key] == before.traits[key])
            && Other(after.metaAdmin, key)
                 == (if u.metaAdmin.Some? || StoredGroups(before).Some? then Other(u.metaAdmin, key)
                     else Other(before.metaAdmin, key))
    ensures forall other :: other in store && other != id ==>
              After(store, PutUser(id, u))[other] == store[other]
  {
  }

  /** A metadata patch that is not refused writes its keys over the old ones, the membership apart, and no more. */
  lemma PatchWrites(store: map<string, Identity>, id: string, p: Option<Meta>, a: Option<Meta>, key: string)
    requires !Refused(store, PatchMetadata(id, p, a))
    ensures var before, after := store[id], After(store, PatchMetadata(id, p, a))[id];
            && after.state == before.state && after.traits == before.traits
            && (p.None? ==> after.metaPublic == before.metaPublic)
            && (p.Some? ==> after.metaPublic.Some? && var was := before.metaPublic.GetOr(map[]);
                 && (key in after.metaPublic.value <==> key in p.value || key in was)
                 && (key in p.value ==> after.metaPublic.value[key] == p.value[key])
                 && (key in was && key !in p.value ==> after.metaPublic.value[key] == was[key]))
            && Other(after.metaAdmin, key)
                 == (if Other(a, key).Some? then Other(a, key) else Other(before.metaAdmin, key))
    ensures forall other :: other in store && other != id ==>
              After(store, PatchMetadata(id, p, a))[other] == store[other]
  {
  }

  /** A state change changes the state. */
  lemma StateWrites(store: map<string, Identity>, id: string, state: string)
    requires id in store
    ensures After(store, SetState(id, state)) == store[id := store[id].(state := state)]
  {
    assert store[id].traits + map[] == store[id].traits;
  }

  // ── Group clean-up ────────────────────────────────────────────────────────

  /** What the service takes a user's groups to be. */
  function GroupsOf(identity: Identity): seq<string> {
    if StoredGroups(identity).Some? && StoredGroups(identity).value.ListOf? then StoredGroups(identity).value.items
    else [BASE_GROUP]
  }

  function Stored(identity: Identity, groups: seq<string>): Identity {
    identity.(metaAdmin := Some(identity.metaAdmin.GetOr(map[])[GROUPS := ListOf(groups)]))
  }

  function Cleaned(identity: Identity, name: string): Identity {
    if name in GroupsOf(identity) then Stored(identity, Stripped(GroupsOf(identity), {name})) else identity
  }

  lemma GroupsOfCleaned(identity: Identity, name: string)
    ensures GroupsOf(Cleaned(identity, name)) == Stripped(GroupsOf(identity), {name})
  {
  }

  /**
   After the clean-up of one user: everything else is kept in order, nobody is left without a group, and the group
   is gone unless it is the fallback itself.
   */
  lemma CleanedExactly(identity: Identity, name: string)
    ensures var before, after := GroupsOf(identity), GroupsOf(Cleaned(identity, name));
            && Without(after, {name})
                 == (if name in before && Without(before, {name}) == [] && name != BASE_GROUP
                                              then [BASE_GROUP] else Without(before, {name}))
            && (before != [] ==> after != [])
            && (name in after <==> name == BASE_GROUP && name in before && forall g :: g in before ==> g == BASE_GROUP)
  {
    GroupsOfCleaned(identity, name);
    StrippedExactly(GroupsOf(identity), name);
  }

  /** And no other admin metadata changes. */
  lemma CleanedKeepsOtherMetadata(identity: Identity, name: string)
    ensures Cleaned(identity, name).metaAdmin.GetOr(map[]) - {GROUPS} == identity.metaAdmin.GetOr(map[]) - {GROUPS}
    ensures Cleaned(identity, name).state == identity.state && Cleaned(identity, name).traits == identity.traits
  {
  }

  /** Users are visited from an earlier reading of the directory; each is read again before the write. */
  function Visited(snapshot: map<string, seq<string>>, name: string, email: string): bool {
    email in snapshot && name in snapshot[email]
  }

  /** The directory when the users in `done` have been visited, and no others. */
  function CleanedSome(store: map<string, Identity>, snapshot: map<string, seq<string>>, name: string,
      done: set<string>)
    : map<string, Identity>
  {
    map email | email in store ::
      if email in done && Visited(snapshot, name, email) then Cleaned(store[email], name) else store[email]
  }

  /**
   A user the clean-up leaves with the group: not reached, missed by the earlier reading, or with nothing but the
   fallback.
   */
  predicate Keeps(store: map<string, Identity>, snapshot: map<string, seq<string>>, name: string, done: set<string>,
      email: string)
    requires email in store
  {
    && name in GroupsOf(store[email])
    && (|| email !in done
        || !Visited(snapshot, name, email)
        || (name == BASE_GROUP && forall g :: g in GroupsOf(store[email]) ==> g == BASE_GROUP))
  }

  /** Who still holds a deleted group's name when the clean-up ends or is stopped after the users in `done`. */
  lemma WhoStillHoldsIt(store: map<string, Identity>, snapshot: map<string, seq<string>>, name: string,
      done: set<string>, email: string)
    requires email in store
    ensures name in GroupsOf(CleanedSome(store, snapshot, name, done)[email]) <==>
            Keeps(store, snapshot, name, done, email)
  {
    CleanedExactly(store[email], name);
  }

  lemma CleanedSomeMore(store: map<string, Identity>, snapshot: map<string, seq<string>>, name: string,
      done: set<string>, email: string)
    requires email !in done
    ensures var before, after := CleanedSome(store, snapshot, name, done),
            CleanedSome(store, snapshot, name, done + {email});
            && (email in store ==> before[email] == store[email])
            && after == if email in store && Visited(snapshot, name, email)
                 then before[email := Cleaned(store[email], name)]
                        else before
  {
  }

  /** The users visited among `done` who hold the group. */
  function Holders(store: map<string, Identity>, snapshot: map<string, seq<string>>, name: string,
      done: set<string>): set<string> {
    set email | email in done && IsHolder(store, snapshot, name, email)
  }

  predicate IsHolder(store: map<string, Identity>, snapshot: map<string, seq<string>>, name: string, email: string) {
    email in store && Visited(snapshot, name, email) && name in GroupsOf(store[email])
  }

  lemma HoldersMore(store: map<string, Identity>, snapshot: map<string, seq<string>>, name: string, done: set<string>,
      email: string)
    requires email !in done
    ensures |Holders(store, snapshot, name, done + {email})|
            == |Holders(store, snapshot, name, done)| + if IsHolder(store, snapshot, name, email) then 1 else 0
  {
    var before, after := Holders(store, snapshot, name, done), Holders(store, snapshot, name, done + {email});
    if IsHolder(store, snapshot, name, email) {
      assert after == before + {email};
    } else {
      assert after == before;
    }
  }

  // ── A clean-up, user by user ──────────────────────────────────────────────

  /** What stops a clean-up at one user: the directory no longer knows the address, or the lock or a call failed. */
  datatype Stopped = Vanished(email: string) | Unavailable(email: string)

  /** One user of the snapshot, and whether lock and calls work when its turn comes. */
  datatype Visit = Visit(email: string, up: bool)

  datatype CleanUp = CleanUp(store: map<string, Identity>, updated: nat, done: set<string>, stopped: Option<Stopped>)

  /** Only a listed holder is looked up; nothing is written for the one that stops the clean-up. */
  function CleanOne(c: CleanUp, name: string, snapshot: map<string, seq<string>>, v: Visit): CleanUp {
    if c.stopped.Some? then c
    else if !Visited(snapshot, name, v.email) then c.(done := c.done + {v.email})
    else if !v.up then c.(stopped := Some(Unavailable(v.email)))
    else if v.email !in c.store then c.(stopped := Some(Vanished(v.email)))
    else CleanUp(c.store[v.email := Cleaned(c.store[v.email], name)],
                 c.updated + if name in GroupsOf(c.store[v.email]) then 1 else 0, c.done + {v.email}, None)
  }

  /** The clean-up that visits these users in this order, up to the first that stops it. */
  function CleanInOrder(store: map<string, Identity>, name: string, snapshot: map<string, seq<string>>,
      visits: seq<Visit>): CleanUp {
    if visits == [] then CleanUp(store, 0, {}, None)
    else CleanOne(CleanInOrder(store, name, snapshot, visits[..|visits| - 1]), name, snapshot, visits[|visits| - 1])
  }

  /** The users visited, once each. */
  predicate EachOnce(visits: seq<Visit>) {
    forall i, j :: 0 <= i < j < |visits| ==> visits[i].email != visits[j].email
  }

  predicate Among(email: string, visits: seq<Visit>) {
    exists i :: 0 <= i < |visits| && visits[i].email == email
  }

  predicate StoppedAt(c: CleanUp, store: map<string, Identity>, name: string, snapshot: map<string, seq<string>>,
      at: Stopped) {
    Visited(snapshot, name, at.email) && at.email !in c.done && (at.Vanished? ==> at.email !in store)
  }

  /** What has been done is exactly what the users visited before the stop get, counted once each. */
  lemma {:induction false} CleanedInOrder(store: map<string, Identity>, name: string,
      snapshot: map<string, seq<string>>, visits: seq<Visit>)
    requires EachOnce(visits)
    ensures var c := CleanInOrder(store, name, snapshot, visits);
            && c.store == CleanedSome(store, snapshot, name, c.done)
            && c.updated == |Holders(store, snapshot, name, c.done)|
            && (forall email :: email in c.done ==> Among(email, visits))
            && (c.stopped.None? ==> forall email :: Among(email, visits) ==> email in c.done)
            && (c.stopped.Some? ==> StoppedAt(c, store, name, snapshot, c.stopped.value))
  {
    if visits == [] {
      assert Holders(store, snapshot, name, {}) == {};
    } else {
      var front, v := visits[..|visits| - 1], visits[|visits| - 1];
      CleanedInOrder(store, name, snapshot, front);
      var c := CleanInOrder(store, name, snapshot, front);
      assert forall email :: Among(email, visits) <==> Among(email, front) || email == v.email by {
        AmongSnoc(front, v);
        assert visits == front + [v];
      }
      if c.stopped.None? {
        CleanedSomeMore(store, snapshot, name, c.done, v.email);
        HoldersMore(store, snapshot, name, c.done, v.email);
      }
    }
  }

  lemma AmongSnoc(front: seq<Visit>, v: Visit)
    ensures forall email :: Among(email, front + [v]) <==> Among(email, front) || email == v.email
  {
    forall email ensures Among(email, front + [v]) <==> Among(email, front) || email == v.email {
      if Among(email, front) {
        var i :| 0 <= i < |front| && front[i].email == email;
        assert (front + [v])[i].email == email;
      }
      assert (front + [v])[|front|] == v;
    }
  }

  lemma {:induction false} StopsForGood(store: map<string, Identity>, name: string,
      snapshot: map<string, seq<string>>, visits: seq<Visit>, n: nat)
    requires n <= |visits| && CleanInOrder(store, name, snapshot, visits[..n]).stopped.Some?
    ensures CleanInOrder(store, name, snapshot, visits) == CleanInOrder(store, name, snapshot, visits[..n])
    decreases |visits|
  {
    if n < |visits| {
      var front := visits[..|visits| - 1];
      assert front[..n] == visits[..n];
      StopsForGood(store, name, snapshot, front, n);
    } else {
      assert visits[..n] == visits;
    }
  }

  /** In every clean-up that comes to a listed user who has left the directory, all who come after keep the group. */
  lemma VanishedUserSparesTheNext(store: map<string, Identity>, name: string, snapshot: map<string, seq<string>>,
      visits: seq<Visit>, gone: nat, next: nat)
    requires EachOnce(visits) && gone < next < |visits|
    requires Visited(snapshot, name, visits[gone].email) && visits[gone].email !in store
    requires visits[next].email in store && name in GroupsOf(store[visits[next].email])
    ensures var c := CleanInOrder(store, name, snapshot, visits);
            && c.stopped.Some? && visits[next].email in c.store
            && c.store[visits[next].email] == store[visits[next].email]
  {
    var before, upto := visits[..gone], visits[..gone + 1];
    assert upto[..gone] == before && EachOnce(before) && EachOnce(upto);
    CleanedInOrder(store, name, snapshot, before);
    CleanedInOrder(store, name, snapshot, upto);
    StopsForGood(store, name, snapshot, visits, gone + 1);
    var email := visits[next].email;
    assert !Among(email, upto) by {
      assert forall i :: 0 <= i < |upto| ==> upto[i] == visits[i];
    }
    assert email !in CleanInOrder(store, name, snapshot, upto).done;
  }

  /** A clean-up that comes to its end has found every listed holder. */
  lemma VanishedStops(store: map<string, Identity>, name: string, snapshot: map<string, seq<string>>,
      visits: seq<Visit>)
    requires CleanInOrder(store, name, snapshot, visits).stopped.None?
    ensures forall email :: Among(email, visits) && Visited(snapshot, name, email) ==> email in store
  {
    if visits != [] {
      var front, v := visits[..|visits| - 1], visits[|visits| - 1];
      VanishedStops(store, name, snapshot, front);
      KeepsUsers(store, name, snapshot, front);
      AmongSnoc(front, v);
      assert visits == front + [v];
    }
  }

  lemma {:induction false} KeepsUsers(store: map<string, Identity>, name: string, snapshot: map<string, seq<string>>,
      visits: seq<Visit>)
    ensures CleanInOrder(store, name, snapshot, visits).store.Keys == store.Keys
  {
    if visits != [] {
      KeepsUsers(store, name, snapshot, visits[..|visits| - 1]);
    }
  }

  // ── The service ───────────────────────────────────────────────────────────

  /** How a create request arrives: the short form, or the directory's own form. */
  datatype CreateBody =
    | Short(email: string, groups: Option<seq<string>>)
    | Full(traits: map<string, string>, metaAdmin: Option<Meta>)

  datatype Reply = Written(identity: Identity) | NotMutableHere | NotFound

  class AdminController {
    var identities: map<string, Identity>

    constructor (identities: map<string, Identity>)
      ensures this.identities == identities
    {
      this.identities := identities;
    }

    /** `updateIdentity`: read, merge, put. */
    method UpdateIdentity(id: string, u: Update) returns (r: Identity)
      requires id in identities
      modifies this
      ensures identities == old(identities)[id := Replaced(old(identities)[id], u)] && r == identities[id]
    {
      var cur := identities[id];
      r := Identity(if u.state.Some? then u.state.value else cur.state, cur.traits + u.traits,
                    if u.metaPublic.Some? then u.metaPublic else cur.metaPublic,
                    if u.metaAdmin.Some? then u.metaAdmin else cur.metaAdmin);
      identities := identities[id := r];
    }

    method UpdateUser(id: string, update: Update) returns (reply: Reply)
      modifies this
      ensures identities == After(old(identities), PutUser(id, update))
      ensures reply.Written? <==> !Refused(old(identities), PutUser(id, update))
      ensures reply.NotFound? <==> id !in old(identities)
    {
      if id !in identities {
        return NotFound;
      }
      var body := update;
      var groups := StoredGroups(identities[id]);
      if body.metaAdmin.Some? && GROUPS in body.metaAdmin.value && !SameGroups(body.metaAdmin.value[GROUPS], groups) {
        return NotMutableHere;
      }
      if groups.Some? {
        body := body.(metaAdmin :=
            Some((if body.metaAdmin.Some? then body.metaAdmin.value else map[])[GROUPS := groups.value]));
      } else if body.metaAdmin.Some? && GROUPS in body.metaAdmin.value {
        body := body.(metaAdmin := Some(body.metaAdmin.value - {GROUPS}));
      }
      assert body.metaAdmin.Some? && groups.None? ==> body.metaAdmin.value == WithoutGroups(update.metaAdmin.value);
      var identity := UpdateIdentity(id, body);
      return Written(identity);
    }

    method SetUserMetadata(id: string, metaPublic: Option<Meta>, metaAdmin: Option<Meta>) returns (reply: Reply)
      modifies this
      ensures identities == After(old(identities), PatchMetadata(id, metaPublic, metaAdmin))
      ensures reply.Written? <==> !Refused(old(identities), PatchMetadata(id, metaPublic, metaAdmin))
      ensures reply.NotFound? <==> id !in old(identities)
    {
      if id !in identities {
        return NotFound;
      }
      var cur := identities[id];
      var toMerge := metaAdmin;
      if metaAdmin.Some? && GROUPS in metaAdmin.value {
        if !SameGroups(metaAdmin.value[GROUPS], StoredGroups(cur)) {
          return NotMutableHere;
        }
        toMerge := Some(metaAdmin.value - {GROUPS});
      }
      assert toMerge.Some? ==> toMerge.value == WithoutGroups(metaAdmin.value);
      var identity := UpdateIdentity(id, Update(None, map[],
        if metaPublic.Some? then Some(cur.metaPublic.GetOr(map[]) + metaPublic.value) else cur.metaPublic,
        if toMerge.Some? then Some(cur.metaAdmin.GetOr(map[]) + toMerge.value) else cur.metaAdmin));
      return Written(identity);
    }

    method SetUserState(id: string, state: string) returns (reply: Reply)
      modifies this
      ensures identities == After(old(identities), SetState(id, state))
      ensures reply.Written? <==> id in old(identities)
    {
      if id !in identities {
        return NotFound;
      }
      var identity := UpdateIdentity(id, Update(Some(state), map[], None, None));
      return Written(identity);
    }

    /**
     What reaches the directory never carries a membership; the groups asked for go through the grant check, unless
     they confer nothing.
     */
    method PrepareCreate(body: CreateBody) returns (made: Identity, desired: seq<string>, needsGrantCheck: bool)
      ensures StoredGroups(made).None? && desired != []
      ensures made.state == "active" && made.metaPublic.None?
      ensures made.traits == match body case Short(email, _) => map["email" := email] case Full(traits, _) => traits
      ensures body.Short? || body.metaAdmin.None? ==> made.metaAdmin.None?
      ensures needsGrantCheck <==> desired != [BASE_GROUP]
      ensures body.Short? ==> desired == if body.groups.Some? && body.groups.value != [] then body.groups.value
              else [BASE_GROUP]
      ensures body.Full? ==>
                desired == (var asked := if body.metaAdmin.Some? && GROUPS in body.metaAdmin.value
                                         then CurrentList(Some(body.metaAdmin.value[GROUPS])) else [];
                            if asked != [] then asked else [BASE_GROUP])
      ensures body.Full? && body.metaAdmin.Some? ==>
                made.metaAdmin == Some(WithoutGroups(body.metaAdmin.value))
    {
      var requested: seq<string> := [];
      match body {
        case Short(email, groups) =>
          requested := groups.GetOr([]);
          made := Identity("active", map["email" := email], None, None);
        case Full(traits, metaAdmin) =>
          made := Identity("active", traits, None, metaAdmin);
          if metaAdmin.Some? {
            if GROUPS in metaAdmin.value {
              requested := CurrentList(Some(metaAdmin.value[GROUPS]));
              made := made.(metaAdmin := Some(metaAdmin.value - {GROUPS}));
            }
            assert made.metaAdmin.value == WithoutGroups(metaAdmin.value);
          }
      }
      desired := if |requested| > 0 then requested else [BASE_GROUP];
      needsGrantCheck := !(|desired| == 1 && desired[0] == BASE_GROUP);
    }

    /** One user, read again: drop the name, falling back to the base group. */
    method CleanUser(email: string, name: string) returns (updated: bool)
      requires email in identities
      modifies this
      ensures identities == old(identities)[email := Cleaned(old(identities)[email], name)]
      ensures updated <==> name in GroupsOf(old(identities)[email])
    {
      var current := GroupsOf(identities[email]);
      if name !in current {
        assert identities == identities[email := identities[email]];
        return false;
      }
      var rest := Without(current, {name});
      identities := identities[email := Stored(identities[email], if |rest| > 0 then rest else [BASE_GROUP])];
      return true;
    }

    /**
     One user of the snapshot. Only a listed holder is looked up: the lock, the read or the write may
     fail, and the address may be unknown by now; then nothing is written and the whole clean-up stops.
     */
    method VisitUser(email: string, name: string, snapshot: map<string, seq<string>>, ghost c: CleanUp)
      returns (r: Result<nat, Stopped>, ghost v: Visit)
      requires email in snapshot && identities == c.store && c.stopped.None?
      modifies this
      ensures v.email == email
      ensures var d := CleanOne(c, name, snapshot, v);
              && identities == d.store
              && (if d.stopped.Some? then r == Err(d.stopped.value) else r.Ok? && d.updated == c.updated + r.value)
    {
      var up: bool := *;
      v := Visit(email, up);
      if name !in snapshot[email] {
        return Ok(0), v;
      }
      if !up {
        return Err(Unavailable(email)), v;
      }
      if email !in identities {
        return Err(Vanished(email)), v;
      }
      var updated := CleanUser(email, name);
      return Ok(if updated then 1 else 0), v;
    }

    /**
     Take a deleted group's name from every user the snapshot lists with it, in whatever order. A user that
     stops it leaves everybody not visited yet as they were, and the caller carries on as if the group were
     gone.
     */
    method RemoveGroupFromAllUsers(name: string, snapshot: map<string, seq<string>>)
      returns (r: Result<nat, Stopped>, ghost visits: seq<Visit>)
      modifies this
      ensures EachOnce(visits) && forall email :: Among(email, visits) ==> email in snapshot
      ensures var c := CleanInOrder(old(identities), name, snapshot, visits);
              && identities == c.store == CleanedSome(old(identities), snapshot, name, c.done)
              && (if c.stopped.Some? then r == Err(c.stopped.value) else r == Ok(c.updated) && c.done == snapshot.Keys)
      ensures r.Ok? ==> r.value == |Holders(old(identities), snapshot, name, snapshot.Keys)|
      ensures r.Err? && r.error.Vanished? ==> r.error.email !in old(identities)
      ensures (exists email :: email in snapshot && Visited(snapshot, name, email) && email !in old(identities)) ==>
              r.Err?
    {
      var updated, todo := 0, snapshot.Keys;
      ghost var start := identities;
      visits := [];
      while todo != {}
        invariant todo <= snapshot.Keys && EachOnce(visits)
        invariant forall email :: Among(email, visits) <==> email in snapshot && email !in todo
        invariant CleanInOrder(start, name, snapshot, visits).stopped.None?
        invariant identities == CleanInOrder(start, name, snapshot, visits).store
        invariant updated == CleanInOrder(start, name, snapshot, visits).updated
        decreases todo
      {
        var email :| email in todo;
        ghost var front := visits;
        var one: Result<nat, Stopped>;
        ghost var v;
        one, v := VisitUser(email, name, snapshot, CleanInOrder(start, name, snapshot, front));
        visits := front + [v];
        assert visits[..|front|] == front;
        AmongSnoc(front, v);
        assert EachOnce(visits) by {
          assert forall i :: 0 <= i < |front| ==> Among(front[i].email, front);
        }
        if one.Err? {
          CleanedInOrder(start, name, snapshot, visits);
          return Err(one.error), visits;
        }
        updated, todo := updated + one.value, todo - {email};
      }
      CleanedInOrder(start, name, snapshot, visits);
      assert CleanInOrder(start, name, snapshot, visits).done == snapshot.Keys;
      VanishedStops(start, name, snapshot, visits);
      return Ok(updated), visits;
    }
  }
}
