/**
 The recertification service: activation builds one item per membership in scope, decisions and expiry
 work on the stored hashes in place, and completion freezes a report. Every operation is proved to do
 exactly one event of the campaign model, whichever directory calls fail.
 */
module RecertService {
  import opened Prelude
  import opened Counters
  import opened GroupList
  import opened Text
  import opened Recert
  import opened RecertEffects

  // ── Which items an activation makes ───────────────────────────────────────

  /** One identity as the directory lists it. */
  datatype Listed = Listed(email: string, groups: seq<string>)
  datatype Membership = Membership(subject: string, group: string)

  /** The memberships in scope, in listing order. */
  function Memberships(listing: seq<Listed>, scope: set<string>): seq<Membership> {
    if listing == [] then []
    else
      var last := listing[|listing| - 1];
      Memberships(listing[..|listing| - 1], scope) + MembershipsOf(Norm(last.email), last.groups, scope)
  }

  function MembershipsOf(subject: string, groups: seq<string>, scope: set<string>): seq<Membership> {
    if groups == [] then []
    else
      var g := groups[|groups| - 1];
      MembershipsOf(subject, groups[..|groups| - 1], scope) + if g in scope then [Membership(subject, g)] else []
  }

  /** `reviewers.find(r => r !== subject)` */
  function OtherReviewer(reviewers: seq<string>, subject: string): (r: Option<string>)
    ensures r.Some? ==> r.value in reviewers && r.value != subject
    ensures r.None? <==> forall x :: x in reviewers ==> x == subject
  {
    if reviewers == [] then None
    else if reviewers[0] != subject then Some(reviewers[0])
    else
      assert reviewers == [reviewers[0]] + reviewers[1..];
      OtherReviewer(reviewers[1..], subject)
  }

  /** Round-robin assignment, passing an item on when its subject would review it. */
  function Assigned(reviewers: seq<string>, k: nat, subject: string): string
    requires reviewers != []
  {
    var next := reviewers[k % |reviewers|];
    if next == subject then OtherReviewer(reviewers, subject).GetOr(next) else next
  }

  function ItemFor(c: Campaign, k: nat, m: Membership): Item
    requires c.reviewers != []
  {
    var next := c.reviewers[k % |c.reviewers|];
    Item(k, c.id, m.subject, m.group, Assigned(c.reviewers, k, m.subject),
         next == m.subject && OtherReviewer(c.reviewers, m.subject).None?,
         Pending, None, None, None)
  }

  function ScopeOf(c: Campaign, known: set<string>): set<string> {
    (if c.scope == [] then known else ToSet(c.scope)) - {BASE_GROUP}
  }

  function ItemsFor(c: Campaign, ms: seq<Membership>): map<nat, Item>
    requires c.reviewers != []
  {
    map k: nat | k < |ms| :: ItemFor(c, k, ms[k])
  }

  /**
   An item is reviewed by one of the campaign's reviewers; by its own subject only if there is nobody
   else, and exactly then it carries the blocking flag.
   */
  lemma ReviewerIsNotSubject(c: Campaign, k: nat, m: Membership)
    requires c.reviewers != []
    ensures var item := ItemFor(c, k, m);
            && item.reviewer in c.reviewers
            && (item.reviewer == m.subject <==> forall r :: r in c.reviewers ==> r == m.subject)
            && (item.selfReview <==> item.reviewer == m.subject)
  {
    assert c.reviewers[k % |c.reviewers|] in c.reviewers;
  }

  /** The turn decides: reviewer `k` modulo their number, or the first other one if that is the subject. */
  lemma ReviewersTakeTurns(c: Campaign, k: nat, m: Membership)
    requires c.reviewers != []
    ensures var item, turn := ItemFor(c, k, m), c.reviewers[k % |c.reviewers|];
            && item.id == k && item.campaign == c.id && item.subject == m.subject && item.group == m.group
            && item.decision == Pending && item.comment.None?
            && (turn != m.subject ==> item.reviewer == turn)
            && forall i :: 0 <= i < |c.reviewers| && turn == m.subject && c.reviewers[i] != m.subject
                           && (forall j :: 0 <= j < i ==> c.reviewers[j] == m.subject) ==>
                 item.reviewer == c.reviewers[i]
  {
    forall i | 0 <= i < |c.reviewers| && c.reviewers[i] != m.subject
               && forall j :: 0 <= j < i ==> c.reviewers[j] == m.subject
      ensures OtherReviewer(c.reviewers, m.subject) == Some(c.reviewers[i])
    {
      FirstOther(c.reviewers, m.subject, i);
    }
  }

  lemma {:induction false} FirstOther(reviewers: seq<string>, subject: string, i: nat)
    requires i < |reviewers| && reviewers[i] != subject && forall j :: 0 <= j < i ==> reviewers[j] == subject
    ensures OtherReviewer(reviewers, subject) == Some(reviewers[i])
  {
    if i > 0 {
      FirstOther(reviewers[1..], subject, i - 1);
    }
  }

  /** The scope: the groups the campaign names, or else all known ones, and never the default group. */
  lemma ScopeExactly(c: Campaign, known: set<string>, group: string)
    ensures group in ScopeOf(c, known)
            <==> group != BASE_GROUP && if c.scope == [] then group in known else group in c.scope
  {
  }

  /** One identity's memberships come in the order of its group list. */
  lemma {:induction false} GroupsInOrder(subject: string, groups: seq<string>, scope: set<string>)
    ensures var ms, held := MembershipsOf(subject, groups, scope), Filter(groups, g => g in scope);
            |ms| == |held| && forall k :: 0 <= k < |ms| ==> ms[k] == Membership(subject, held[k])
  {
    if groups != [] {
      var front, last := groups[..|groups| - 1], groups[|groups| - 1];
      GroupsInOrder(subject, front, scope);
      assert groups == front + [last];
      FilterAppend(front, [last], g => g in scope);
    }
  }

  /** And the identities in the order of the listing. */
  lemma {:induction false} ListedInOrder(first: seq<Listed>, l: Listed, scope: set<string>)
    ensures Memberships(first + [l], scope) == Memberships(first, scope) + MembershipsOf(Norm(l.email), l.groups, scope)
  {
    assert (first + [l])[..|first|] == first;
  }

  lemma {:induction false} OccurrencesOf(subject: string, groups: seq<string>, scope: set<string>, m: Membership)
    ensures multiset(MembershipsOf(subject, groups, scope))[m]
            == if m.subject == subject && m.group in scope then multiset(groups)[m.group] else 0
  {
    if groups != [] {
      OccurrencesOf(subject, groups[..|groups| - 1], scope, m);
      assert groups == groups[..|groups| - 1] + [groups[|groups| - 1]];
    }
  }

  /** Nobody outside the listing, and no group outside the scope, gets an item. */
  lemma {:induction false} NoStrayItem(listing: seq<Listed>, scope: set<string>, m: Membership)
    requires m.group !in scope || forall l :: l in listing ==> Norm(l.email) != m.subject
    ensures multiset(Memberships(listing, scope))[m] == 0
  {
    if listing != [] {
      var last := listing[|listing| - 1];
      assert last in listing;
      NoStrayItem(listing[..|listing| - 1], scope, m);
      OccurrencesOf(Norm(last.email), last.groups, scope, m);
    }
  }

  /** What the last identity of a listing adds. */
  lemma LastListed(listing: seq<Listed>, scope: set<string>, m: Membership)
    requires listing != []
    ensures var front, last := listing[..|listing| - 1], listing[|listing| - 1];
            multiset(Memberships(listing, scope))[m]
            == multiset(Memberships(front, scope))[m]
               + if m.subject == Norm(last.email) && m.group in scope then multiset(last.groups)[m.group] else 0
  {
    var last := listing[|listing| - 1];
    OccurrencesOf(Norm(last.email), last.groups, scope, m);
  }

  function Subjects(listing: seq<Listed>): (r: seq<string>)
    ensures |r| == |listing| && forall i :: 0 <= i < |r| ==> r[i] == Norm(listing[i].email)
  {
    seq(|listing|, i requires 0 <= i < |listing| => Norm(listing[i].email))
  }

  /** How often an in-scope group stands in each identity's list. */
  function Mentions(listing: seq<Listed>, scope: set<string>, group: string): (r: seq<nat>)
    ensures |r| == |listing|
    ensures forall i :: 0 <= i < |r| ==> r[i] == if group in scope then multiset(listing[i].groups)[group] else 0
  {
    seq(|listing|, i requires 0 <= i < |listing| =>
      if group in scope then multiset(listing[i].groups)[group] else 0)
  }

  /** The numbers that stand at the places of `x`, added up. */
  function SumAt(names: seq<string>, numbers: seq<nat>, x: string): nat
    requires |names| == |numbers|
  {
    if names == [] then 0
    else
      var n := |names| - 1;
      SumAt(names[..n], numbers[..n], x) + if names[n] == x then numbers[n] else 0
  }

  lemma {:induction false} SumAtNone(names: seq<string>, numbers: seq<nat>, x: string)
    requires |names| == |numbers| && x !in names
    ensures SumAt(names, numbers, x) == 0
  {
    if names != [] {
      var n := |names| - 1;
      assert names[n] in names;
      SumAtNone(names[..n], numbers[..n], x);
    }
  }

  lemma {:induction false} SumAtOnce(names: seq<string>, numbers: seq<nat>, j: nat)
    requires |names| == |numbers| && j < |names| && Distinct(names)
    ensures SumAt(names, numbers, names[j]) == numbers[j]
  {
    var n := |names| - 1;
    if j < n {
      SumAtOnce(names[..n], numbers[..n], j);
    } else {
      SumAtNone(names[..n], numbers[..n], names[j]);
    }
  }

  lemma {:induction false} ItemsAreMentions(listing: seq<Listed>, scope: set<string>, m: Membership)
    ensures multiset(Memberships(listing, scope))[m]
            == SumAt(Subjects(listing), Mentions(listing, scope, m.group), m.subject)
  {
    if listing != [] {
      var n := |listing| - 1;
      ItemsAreMentions(listing[..n], scope, m);
      LastListed(listing, scope, m);
      assert Subjects(listing)[..n] == Subjects(listing[..n]);
      assert Mentions(listing, scope, m.group)[..n] == Mentions(listing[..n], scope, m.group);
    }
  }

  /**
   Every listed identity gets one item for each time an in-scope group stands in its group list, and no other item.
   */
  lemma OneItemPerMembership(listing: seq<Listed>, scope: set<string>, j: nat, group: string)
    requires j < |listing| && Distinct(Subjects(listing))
    ensures multiset(Memberships(listing, scope))[Membership(Norm(listing[j].email), group)]
            == if group in scope then multiset(listing[j].groups)[group] else 0
  {
    ItemsAreMentions(listing, scope, Membership(Norm(listing[j].email), group));
    SumAtOnce(Subjects(listing), Mentions(listing, scope, group), j);
  }

  /** What the activation makes may enter the model: fresh items about revocable groups only. */
  lemma ItemsAreFresh(c: Campaign, ms: seq<Membership>)
    requires c.reviewers != [] && forall m :: m in ms ==> m.group != BASE_GROUP
    ensures forall k :: k in ItemsFor(c, ms) ==> FreshItem(ItemsFor(c, ms)[k], k, c.id)
  {
    forall k | k in ItemsFor(c, ms) ensures FreshItem(ItemsFor(c, ms)[k], k, c.id) {
      assert ms[k] in ms;
      ReviewerIsNotSubject(c, k, ms[k]);
    }
  }

  lemma {:induction false} MembershipsInScope(listing: seq<Listed>, scope: set<string>)
    ensures forall m :: m in Memberships(listing, scope) ==> m.group in scope
  {
    forall m | m in multiset(Memberships(listing, scope)) ensures m.group in scope {
      if m.group !in scope {
        NoStrayItem(listing, scope, m);
        assert false;
      }
    }
    assert forall m :: m in Memberships(listing, scope) ==> m in multiset(Memberships(listing, scope));
  }

  // ── Small steps of the loops below ────────────────────────────────────────

  lemma LossesOfOne(directory: map<string, seq<string>>, items: map<nat, Item>, i: nat)
    requires i in items && items[i].subject in directory
    ensures StripAll(directory, items, {i})
            == directory[items[i].subject := Stripped(directory[items[i].subject], {items[i].group})]
  {
    forall e | e in directory ensures Losses(items, {i}, e) == if e == items[i].subject then {items[i].group} else {} {
    }
  }

  lemma LossesAdd(items: map<nat, Item>, done: set<nat>, i: nat, e: string)
    requires i in items
    ensures Losses(items, done + {i}, e) == Losses(items, done, e) + if e == items[i].subject then {items[i].group}
            else {}
  {
  }

  lemma StrippedMore(groups: seq<string>, items: map<nat, Item>, done: set<nat>, i: nat, e: string)
    requires i in items && Revocable(items)
    ensures Stripped(groups, Losses(items, done + {i}, e))
            == if e == items[i].subject then Stripped(Stripped(groups, Losses(items, done, e)), {items[i].group})
               else Stripped(groups, Losses(items, done, e))
  {
    LossesAdd(items, done, i, e);
    assert e != items[i].subject ==> Losses(items, done + {i}, e) == Losses(items, done, e);
    if e == items[i].subject {
      StrippedStep(groups, Losses(items, done, e), items[i].group);
    }
  }

  /** Expiring one more item takes one more membership. */
  lemma LossesStep(directory: map<string, seq<string>>, items: map<nat, Item>, done: set<nat>, i: nat)
    requires i in items && items[i].subject in directory && Revocable(items)
    ensures var before := StripAll(directory, items, done);
            StripAll(directory, items, done + {i})
            == before[items[i].subject := Stripped(before[items[i].subject], {items[i].group})]
  {
    forall e | e in directory
      ensures Stripped(directory[e], Losses(items, done + {i}, e))
              == if e == items[i].subject
                  then Stripped(Stripped(directory[e], Losses(items, done, e)), {items[i].group})
                 else Stripped(directory[e], Losses(items, done, e))
    {
      StrippedMore(directory[e], items, done, i, e);
    }
  }

  lemma NothingExpired(w: World, cid: nat)
    requires cid in w.campaigns
    ensures Expired(w, cid, {}) == w.(campaigns := w.campaigns[cid := w.campaigns[cid].(status := Closing)])
  {
    forall e | e in w.directory ensures Losses(ItemsOf(w, cid), {}, e) == {} {
    }
    assert StripAll(w.directory, ItemsOf(w, cid), {}) == w.directory;
    assert ExpireItems(ItemsOf(w, cid), {}, w.campaigns[cid].onExpiry) == ItemsOf(w, cid);
    assert cid in w.items ==> w.items[cid := w.items[cid]] == w.items;
  }

  lemma ExpireOneMore(items: map<nat, Item>, done: set<nat>, i: nat, cid: nat, onExpiry: OnExpiry)
    requires i in items && i !in done
    ensures ExpireItems(items, done + {i}, onExpiry)
            == SetItem(ExpireItems(items, done, onExpiry),
                       items[i].(outcome := Some(if onExpiry == Revoke then AutoRevoked else Flagged)), i)
    ensures RefsOf(items, cid, done + {i}) == RefsOf(items, cid, done) + {InboxRef(items[i].reviewer, cid, i)}
  {
  }

  /** The items an activation makes, numbered in the order they were made. */
  function SeqItems(made: seq<Item>): map<nat, Item> {
    map k: nat | k < |made| :: made[k]
  }

  predicate Matches(c: Campaign, made: seq<Item>, ms: seq<Membership>)
    requires c.reviewers != []
  {
    |made| == |ms| && forall k :: 0 <= k < |ms| ==> made[k] == ItemFor(c, k, ms[k])
  }

  lemma MatchesMore(c: Campaign, made: seq<Item>, ms: seq<Membership>, m: Membership)
    requires c.reviewers != [] && Matches(c, made, ms)
    ensures Matches(c, made + [ItemFor(c, |made|, m)], ms + [m])
  {
  }

  /** Expiring one more item, spelled out field by field. */
  lemma ExpiredItems(w0: World, cid: nat, done: set<nat>, i: nat)
    requires cid in w0.campaigns && cid in w0.items && i in w0.items[cid] && i !in done
    ensures var before, after := Expired(w0, cid, done), Expired(w0, cid, done + {i});
            var item := w0.items[cid][i].(outcome :=
                Some(if w0.campaigns[cid].onExpiry == Revoke then AutoRevoked else Flagged));
            && cid in before.items && after.items == before.items[cid := SetItem(before.items[cid], item, i)]
            && after.inbox == before.inbox - {InboxRef(item.reviewer, cid, i)}
            && after.campaigns == before.campaigns && after.reports == before.reports && after.nextId == before.nextId
  {
    ExpireOneMore(w0.items[cid], done, i, cid, w0.campaigns[cid].onExpiry);
  }

  lemma ExpiredDirectory(w0: World, cid: nat, done: set<nat>, i: nat)
    requires cid in w0.campaigns && cid in w0.items && i in w0.items[cid] && i !in done && Revocable(w0.items[cid])
    requires w0.campaigns[cid].onExpiry == Revoke ==> w0.items[cid][i].subject in w0.directory
    ensures var before, after := Expired(w0, cid, done).directory, Expired(w0, cid, done + {i}).directory;
            var item := w0.items[cid][i];
            if w0.campaigns[cid].onExpiry == Revoke
            then item.subject in before && after == before[item.subject := Stripped(before[item.subject], {item.group})]
            else after == before
  {
    if w0.campaigns[cid].onExpiry == Revoke {
      LossesStep(w0.directory, w0.items[cid], done, i);
    }
  }

  function ReviewersOf(reviewers: seq<string>): (who: seq<string>)
    ensures Distinct(who)
    ensures forall x :: x in who <==> x != "" && exists e :: e in reviewers && x == Norm(e)
  {
    Dedup(Filter(Mapped(reviewers, Norm), NonEmpty))
  }

  function ScopeNames(scope: seq<string>): (names: seq<string>)
    ensures forall x :: x in names <==> x != "" && exists g :: g in scope && x == Trim(g)
  {
    Filter(Mapped(scope, Trim), NonEmpty)
  }

  /** The input checks of a new campaign. */
  ghost predicate Acceptable(name: string, reviewers: seq<string>, deadline: Option<int>, now: int,
                             onExpiry: Option<OnExpiry>, scope: seq<string>, known: set<string>)
  {
    && Trim(name) != "" && ReviewersOf(reviewers) != []
    && deadline.Some? && deadline.value > now && onExpiry.Some?
    && forall g :: g in ScopeNames(scope) ==> g != BASE_GROUP && g in known
  }

  predicate NonEmpty(s: string) { s != "" }

  function Mapped(s: seq<string>, f: string -> string): (r: seq<string>)
    ensures |r| == |s| && forall i :: 0 <= i < |s| ==> r[i] == f(s[i])
    ensures forall x :: x in r <==> exists y :: y in s && x == f(y)
  {
    if s == [] then [] else
      assert s == [s[0]] + s[1..];
      [f(s[0])] + Mapped(s[1..], f)
  }

  function Said(comment: string): Option<string> {
    if Trim(comment) == "" then None else Some(Trim(comment))
  }

  // ── The service ───────────────────────────────────────────────────────────

  datatype Failure = BadRequest | Unauthorized | NotFound | Conflict | Forbidden | UnknownIdentity | Outage

  /** A revoke takes exactly the one membership, an approval none. */
  ghost predicate DecidedMemberships(w: World, cid: nat, iid: nat, decision: Decision,
                                     after: map<string, seq<string>>) {
    && Has(w, cid, iid)
    && if decision != Revoked then after == w.directory
       else
         var item := w.items[cid][iid];
         && after.Keys == w.directory.Keys && item.subject in after && item.group !in after[item.subject]
         && forall e :: e in w.directory && e != item.subject ==> after[e] == w.directory[e]
  }

  lemma DecisionTakes(w: World, cid: nat, iid: nat, decision: Decision, actor: string, comment: Option<string>)
    requires Ready(w) && Enabled(w, Event.Decide(cid, iid, decision, actor, comment))
    ensures DecidedMemberships(w, cid, iid, decision, Decided(w, cid, iid, decision, actor, comment).directory)
  {
    if decision == Revoked {
      assert Revocable(w.items[cid]);
      OneTaken(w.directory, w.items[cid], iid);
    }
  }

  /** A close under `revoke` takes exactly the pending memberships, one under `flag` none. */
  ghost predicate ClosedMemberships(w: World, cid: nat, after: map<string, seq<string>>) {
    && cid in w.campaigns
    && if w.campaigns[cid].onExpiry == Flag then after == w.directory
       else
         var mine := ItemsOf(w, cid);
         NoneHeld(mine, PendingIn(mine), after) && TakenAway(w.directory, after, mine, PendingIn(mine))
  }

  lemma CloseTakes(w: World, cid: nat)
    requires Ready(w) && Enabled(w, Event.Close(cid))
    ensures ClosedMemberships(w, cid, Next(w, Event.Close(cid)).directory)
  {
    if w.campaigns[cid].onExpiry == Revoke {
      assert Revocable(ItemsOf(w, cid));
      AllTaken(w.directory, ItemsOf(w, cid), PendingIn(ItemsOf(w, cid)));
    }
  }

  /** The caller is known by a non-empty address. */
  predicate Named(actor: Option<string>) {
    actor.Some? && Norm(actor.value) != ""
  }

  datatype Removal = Removed | NoSuchIdentity | Unreachable

  /** What the operations below rely on: fresh ids, somebody to review, and no item about the default group. */
  ghost predicate Ready(w: World) {
    && (forall cid :: cid in w.campaigns ==> cid < w.nextId && w.campaigns[cid].reviewers != [])
    && (forall cid :: cid in w.items ==> Revocable(w.items[cid]))
  }

  predicate Revocable(items: map<nat, Item>) {
    forall i :: i in items ==> items[i].group != BASE_GROUP
  }

  lemma ActivatedReady(w: World, cid: nat, generated: map<nat, Item>)
    requires Ready(w) && InState(w, cid, Draft)
    requires forall i :: i in generated ==> FreshItem(generated[i], i, cid)
    ensures Enabled(w, Activate(cid, generated))
    ensures Ready(Activated(w, cid, generated))
  {
    assert Revocable(ItemsOf(w, cid) + generated);
  }

  lemma FinalizedReady(w: World, cid: nat)
    requires Ready(w) && cid in w.campaigns
    ensures Ready(Finalized(w, cid))
  {
    assert Revocable(KeepApproved(ItemsOf(w, cid)));
  }

  lemma ExpiredReady(w: World, cid: nat, done: set<nat>)
    requires Ready(w) && cid in w.campaigns
    ensures Ready(Expired(w, cid, done))
  {
    assert Revocable(ExpireItems(ItemsOf(w, cid), done, w.campaigns[cid].onExpiry));
  }

  lemma RecordedReady(w: World, cid: nat, iid: nat, decision: Decision, actor: string, comment: Option<string>)
    requires Ready(w) && Has(w, cid, iid)
    ensures Ready(Recorded(w, cid, iid, decision, actor, comment))
  {
    assert Revocable(SetItem(w.items[cid], DecidedItem(w.items[cid][iid], decision, actor, comment), iid));
  }

  lemma DirectoryReady(w: World, directory: map<string, seq<string>>)
    requires Ready(w)
    ensures Ready(w.(directory := directory))
  {
  }

  /** Cut short with every answer in, it is the plain state; with one answer missing, one more removal is done. */
  lemma CutShortDirectory(w0: World, cid: nat, done: set<nat>)
    requires cid in w0.campaigns
    ensures CutShort(w0, cid, done, done) == Expired(w0, cid, done)
    ensures forall asked :: CutShort(w0, cid, done, asked) ==
              Expired(w0, cid, done).(directory := Expired(w0, cid, asked).directory)
  {
  }

  lemma StoredMore(base: map<nat, Item>, made: seq<Item>, k: nat)
    requires k < |made|
    ensures base + SeqItems(made[..k + 1]) == SetItem(base + SeqItems(made[..k]), made[k], k)
  {
    assert SeqItems(made[..k + 1]) == SetItem(SeqItems(made[..k]), made[k], k);
  }

  /** A removal that failed: the directory has carried it out, or not. */
  lemma AskedFor(w0: World, cid: nat, done: set<nat>, i: nat, before: World, after: World) returns (asked: set<nat>)
    requires cid in w0.campaigns && cid in w0.items && i in w0.items[cid] && i !in done && Revocable(w0.items[cid])
    requires before == Expired(w0, cid, done) && w0.campaigns[cid].onExpiry == Revoke
    requires var item := w0.items[cid][i];
             after == before || (item.subject in before.directory && after == before.(directory :=
               before.directory[item.subject := Stripped(before.directory[item.subject], {item.group})]))
    ensures after == CutShort(w0, cid, done, asked)
    ensures asked == done || (asked == done + {i} && w0.items[cid][i].subject in w0.directory)
  {
    CutShortDirectory(w0, cid, done);
    asked := done;
    if after != before {
      ExpiredDirectory(w0, cid, done, i);
      asked := done + {i};
    }
  }

  class RecertService {
    var campaigns: map<nat, Campaign>
    var items: map<nat, map<nat, Item>>
    var inbox: set<InboxRef>
    var reports: map<nat, Report>
    var directory: map<string, seq<string>>
    var nextId: nat
    /** How many directory calls failed or were not answered. */
    ghost var outages: nat

    ghost function W(): World
      reads this
    {
      World(campaigns, items, inbox, reports, directory, nextId)
    }

    ghost predicate Valid()
      reads this
    {
      Ready(W())
    }

    constructor (directory: map<string, seq<string>>)
      ensures Valid() && W() == Start(directory)
    {
      campaigns, items, inbox, reports, this.directory, nextId := map[], map[], {}, map[], directory, 0;
      outages := 0;
    }

    method CreateCampaign(name: string, reviewers: seq<string>, deadline: Option<int>, now: int,
                          onExpiry: Option<OnExpiry>, scope: seq<string>, known: set<string>)
      returns (r: Result<Campaign, Failure>)
      requires Valid()
      modifies this
      ensures Valid()
      ensures r.Ok? <==> Acceptable(name, reviewers, deadline, now, onExpiry, scope, known)
      ensures r.Err? ==> W() == old(W()) && r.error == BadRequest
      ensures r.Ok? ==> Enabled(old(W()), Create(r.value)) && W() == Next(old(W()), Create(r.value))
      ensures r.Ok? ==> r.value.reviewers == ReviewersOf(reviewers) && r.value.scope == ScopeNames(scope)
                        && r.value.deadline == deadline.value && r.value.name == Trim(name)
                        && r.value.onExpiry == onExpiry.value
    {
      var ok, who, groups := CheckedInput(name, reviewers, deadline, now, onExpiry, scope, known);
      if !ok {
        return Err(BadRequest);
      }
      var c := Campaign(nextId, Trim(name), groups, who, deadline.value, onExpiry.value, Draft);
      campaigns := campaigns[c.id := c];
      nextId := nextId + 1;
      return Ok(c);
    }

    method CheckedInput(name: string, reviewers: seq<string>, deadline: Option<int>, now: int,
                        onExpiry: Option<OnExpiry>, scope: seq<string>, known: set<string>)
      returns (ok: bool, who: seq<string>, groups: seq<string>)
      ensures ok <==> Acceptable(name, reviewers, deadline, now, onExpiry, scope, known)
      ensures who == ReviewersOf(reviewers) && groups == ScopeNames(scope) && (ok ==> who != [])
    {
      who := ReviewersOf(reviewers);
      groups := ScopeNames(scope);
      ok := false;
      if Trim(name) == "" || who == [] || deadline.None? || deadline.value <= now || onExpiry.None? {
        return;
      }
      if BASE_GROUP in groups || exists g :: g in groups && g !in known {
        return;
      }
      ok := true;
    }

    method DeleteCampaign(cid: nat) returns (r: Result<(), Failure>)
      requires Valid()
      modifies this
      ensures Valid()
      ensures r.Ok? <==> Enabled(old(W()), Delete(cid))
      ensures r.Ok? ==> W() == Next(old(W()), Delete(cid))
      ensures r.Err? ==> W() == old(W()) && r.error == if cid in campaigns then Conflict else NotFound
    {
      if cid !in campaigns {
        return Err(NotFound);
      }
      if campaigns[cid].status != Draft && campaigns[cid].status != Archived {
        return Err(Conflict);
      }
      UnindexItems(cid, if cid in items then items[cid] else map[]);
      items := items - {cid};
      campaigns := campaigns - {cid};
      return Ok(());
    }

    method UnindexItems(cid: nat, mine: map<nat, Item>)
      modifies this`inbox
      ensures inbox == old(inbox) - RefsOf(mine, cid, mine.Keys)
    {
      var todo := mine.Keys;
      while todo != {}
        invariant todo <= mine.Keys
        invariant inbox == old(inbox) - RefsOf(mine, cid, mine.Keys - todo)
      {
        var i :| i in todo;
        inbox := inbox - {InboxRef(mine[i].reviewer, cid, i)};
        todo := todo - {i};
      }
      assert mine.Keys - {} == mine.Keys;
    }

    /** Activation: generate the items, store and index them, then open the campaign. */
    method ActivateCampaign(cid: nat, known: set<string>, listing: seq<Listed>) returns (r: Result<nat, Failure>)
      requires Valid()
      modifies this
      ensures Valid()
      ensures r.Ok? <==> InState(old(W()), cid, Draft)
      ensures r.Ok? ==>
                var c := old(campaigns)[cid];
                var generated := ItemsFor(c.(id := cid), Memberships(listing, ScopeOf(c, known)));
                && Enabled(old(W()), Activate(cid, generated))
                && W() == Next(old(W()), Activate(cid, generated))
                && r.value == |Memberships(listing, ScopeOf(c, known))|
      ensures r.Err? ==> W() == old(W()) && r.error == if cid in campaigns then Conflict else NotFound
    {
      if cid !in campaigns {
        return Err(NotFound);
      }
      var c := campaigns[cid];
      if c.status != Draft {
        return Err(Conflict);
      }
      var made := GenerateItems(c.(id := cid), known, listing);
      ghost var ms := Memberships(listing, ScopeOf(c, known));
      MembershipsInScope(listing, ScopeOf(c, known));
      ItemsAreFresh(c.(id := cid), ms);
      Open(cid, made, ItemsFor(c.(id := cid), ms));
      return Ok(|made|);
    }

    /** Store the items, index them, and open the campaign. */
    method Open(cid: nat, made: seq<Item>, ghost generated: map<nat, Item>)
      requires Valid() && InState(W(), cid, Draft)
      requires forall i :: i in generated ==> FreshItem(generated[i], i, cid)
      requires generated == SeqItems(made) && forall k :: 0 <= k < |made| ==> made[k].id == k
      modifies this
      ensures Valid() && Enabled(old(W()), Activate(cid, generated)) && W() == Activated(old(W()), cid, generated)
    {
      ActivatedReady(W(), cid, generated);
      StoreItems(cid, made, generated);
      IndexItems(cid, made, generated);
      campaigns := campaigns[cid := campaigns[cid].(status := Active)];
    }

    /** The hash is written only when there is an item to write. */
    method StoreItems(cid: nat, made: seq<Item>, ghost generated: map<nat, Item>)
      requires generated == SeqItems(made)
      modifies this`items
      ensures items == if generated == map[] then old(items) else old(items)[cid := ItemsOf(old(W()), cid) + generated]
    {
      if made == [] {
        assert generated == map[];
        return;
      }
      assert 0 in generated && generated != map[];
      var stored := if cid in items then items[cid] else map[];
      ghost var base := stored;
      assert SeqItems(made[..0]) == map[] && base + map[] == base;
      for k := 0 to |made|
        invariant items == old(items) && stored == base + SeqItems(made[..k])
      {
        StoredMore(base, made, k);
        stored := SetItem(stored, made[k], k);
      }
      assert made[..|made|] == made;
      assert stored == ItemsOf(old(W()), cid) + generated;
      items := items[cid := stored];
    }

    method IndexItems(cid: nat, made: seq<Item>, ghost generated: map<nat, Item>)
      requires generated == SeqItems(made) && forall k :: 0 <= k < |made| ==> made[k].id == k
      modifies this`inbox
      ensures inbox == old(inbox) + RefsOf(generated, cid, generated.Keys)
    {
      for k := 0 to |made|
        invariant forall ref: InboxRef :: ref in inbox <==>
                    ref in old(inbox) || (ref.campaign == cid && ref.item < k
                        && made[ref.item].reviewer == ref.reviewer)
      {
        inbox := inbox + {InboxRef(made[k].reviewer, cid, made[k].id)};
      }
    }

    /** Walk identities and their groups; reviewers take turns. */
    method GenerateItems(c: Campaign, known: set<string>, listing: seq<Listed>) returns (made: seq<Item>)
      requires c.reviewers != []
      ensures SeqItems(made) == ItemsFor(c, Memberships(listing, ScopeOf(c, known)))
      ensures |made| == |Memberships(listing, ScopeOf(c, known))| && forall k :: 0 <= k < |made| ==> made[k].id == k
    {
      made := [];
      var scope := ScopeOf(c, known);
      var turn := 0;
      for i := 0 to |listing|
        invariant turn == |made| && Matches(c, made, Memberships(listing[..i], scope))
      {
        var subject, groups := Norm(listing[i].email), listing[i].groups;
        ghost var before := Memberships(listing[..i], scope);
        made := ItemsOfIdentity(c, scope, subject, groups, made, before);
        turn := |made|;
        assert listing[..i + 1][..i] == listing[..i];
      }
      assert listing[..|listing|] == listing;
    }

    /** The inner loop: one identity's groups, the reviewers' turn going on from the items made so far. */
    method ItemsOfIdentity(c: Campaign, scope: set<string>, subject: string, groups: seq<string>,
                           sofar: seq<Item>, ghost before: seq<Membership>)
      returns (made: seq<Item>)
      requires c.reviewers != [] && Matches(c, sofar, before)
      ensures Matches(c, made, before + MembershipsOf(subject, groups, scope))
    {
      made := sofar;
      assert before + [] == before;
      for j := 0 to |groups|
        invariant Matches(c, made, before + MembershipsOf(subject, groups[..j], scope))
      {
        ghost var ms := MembershipsOf(subject, groups[..j], scope);
        assert groups[..j + 1][..j] == groups[..j];
        if groups[j] in scope {
          var turn := |made|;
          var reviewer, flagged := c.reviewers[turn % |c.reviewers|], false;
          if reviewer == subject {
            var fallback := OtherReviewer(c.reviewers, subject);
            if fallback.Some? {
              reviewer := fallback.value;
            } else {
              flagged := true;
            }
          }
          MatchesMore(c, made, before + ms, Membership(subject, groups[j]));
          assert (before + ms) + [Membership(subject, groups[j])] == before + (ms + [Membership(subject, groups[j])]);
          made := made + [Item(turn, c.id, subject, groups[j], reviewer, flagged, Pending, None, None, None)];
        }
      }
      assert groups[..|groups|] == groups;
    }

    /**
     The one write to the directory: take `group` from `subject`, never leaving it without any. Of a write
     that fails, only the answer may be missing.
     */
    method RemoveGroupMembership(subject: string, group: string) returns (r: Removal)
      modifies this`directory, this`outages
      ensures outages == old(outages) + if r == Unreachable then 1 else 0
      ensures r == NoSuchIdentity ==> subject !in old(directory)
      ensures r == Removed || directory != old(directory) ==>
                subject in old(directory)
                && directory == old(directory)[subject := Stripped(old(directory)[subject], {group})]
      ensures r == NoSuchIdentity ==> directory == old(directory)
    {
      var up: bool, done: bool, answered: bool := *, *, *;
      if !up {
        outages := outages + 1;
        return Unreachable;
      }
      if subject !in directory {
        return NoSuchIdentity;
      }
      var current := directory[subject];
      if group !in current {
        assert directory == directory[subject := current];
        return Removed;
      }
      var next := Without(current, {group});
      if done || answered {
        directory := directory[subject := if next == [] then [BASE_GROUP] else next];
      }
      if !answered {
        outages := outages + 1;
        return Unreachable;
      }
      return Removed;
    }

    method Decide(cid: nat, iid: nat, decision: Decision, comment: string, actor: Option<string>)
      returns (r: Result<Item, Failure>)
      requires Valid() && decision != Pending
      modifies this
      ensures Valid()
      ensures r.Ok? ==>
                && actor.Some?
                && var e := Event.Decide(cid, iid, decision, Norm(actor.value), Said(comment));
                && Enabled(old(W()), e) && W() == Next(old(W()), e)
                && r.value == DecidedItem(old(items)[cid][iid], decision, e.actor, e.comment)
      ensures r.Err? && W() != old(W()) ==>
                && r.error == Outage && actor.Some? && decision == Revoked
                && var e := RevokeUnanswered(cid, iid, Norm(actor.value));
                   Enabled(old(W()), e) && W() == Next(old(W()), e)
      ensures r.Ok? && decision == Revoked ==> Trim(comment) != ""
      ensures r.Ok? ==> DecidedMemberships(old(W()), cid, iid, decision, directory)
      ensures r == Err(Unauthorized) <==> !Named(actor)
      ensures r == Err(NotFound) <==>
                Named(actor) && (cid !in old(campaigns) || (InState(old(W()), cid, Active) && !Has(old(W()), cid, iid)))
      ensures r == Err(Conflict) <==>
                Named(actor) && cid in old(campaigns)
                && (old(campaigns)[cid].status != Active
                    || (Has(old(W()), cid, iid) && old(items)[cid][iid].decision != Pending))
      ensures r == Err(Forbidden) <==>
                Named(actor) && InState(old(W()), cid, Active) && Has(old(W()), cid, iid)
                && old(items)[cid][iid].decision == Pending
                && Norm(old(items)[cid][iid].subject) == Norm(actor.value)
      ensures r == Err(BadRequest) ==> decision == Revoked && Trim(comment) == ""
      ensures r == Err(UnknownIdentity) ==>
                decision == Revoked && Has(old(W()), cid, iid) && old(items)[cid][iid].subject !in directory
      ensures r == Err(Outage) ==> decision == Revoked && outages > old(outages)
    {
      if actor.None? || Norm(actor.value) == "" {
        return Err(Unauthorized);
      }
      var decidedBy := Norm(actor.value);
      if cid !in campaigns {
        return Err(NotFound);
      }
      if campaigns[cid].status != Active {
        return Err(Conflict);
      }
      if cid !in items || iid !in items[cid] {
        return Err(NotFound);
      }
      var item := items[cid][iid];
      if item.decision != Pending {
        return Err(Conflict);
      }
      if Norm(item.subject) == decidedBy {
        return Err(Forbidden);
      }
      NormIdempotent(actor.value);
      if decision == Revoked && Trim(comment) == "" {
        return Err(BadRequest);
      }
      r := ApplyDecision(cid, iid, decision, decidedBy, Said(comment));
      if r.Ok? {
        DecisionTakes(old(W()), cid, iid, decision, decidedBy, Said(comment));
      }
    }

    /**
     A permitted decision: take the membership first if it is a revoke, then record, then see whether it was the
     last.
     */
    method ApplyDecision(cid: nat, iid: nat, decision: Decision, decidedBy: string, comment: Option<string>)
      returns (r: Result<Item, Failure>)
      requires Valid() && InState(W(), cid, Active) && Has(W(), cid, iid)
      modifies this
      ensures Valid()
      ensures r.Ok? ==>
                && W() == Decided(old(W()), cid, iid, decision, decidedBy, comment)
                && r.value == DecidedItem(old(items)[cid][iid], decision, decidedBy, comment)
                && (decision == Revoked ==> old(items)[cid][iid].subject in old(directory))
      ensures r.Err? ==> decision == Revoked && (r.error == UnknownIdentity || r.error == Outage)
      ensures r.Err? && W() != old(W()) ==>
                r.error == Outage && decision == Revoked && old(items)[cid][iid].subject in old(directory)
                && W() == Unrecorded(old(W()), cid, iid)
      ensures r == Err(UnknownIdentity) ==> decision == Revoked && old(items)[cid][iid].subject !in directory
      ensures r == Err(Outage) ==> outages > old(outages)
    {
      var item := items[cid][iid].(decision := decision, decidedBy := Some(decidedBy));
      if comment.Some? {
        item := item.(comment := comment);
      }
      if decision == Revoked {
        var removal := RemoveGroupMembership(item.subject, item.group);
        if removal == NoSuchIdentity {
          return Err(UnknownIdentity);
        }
        if item.subject in old(directory) {
          LossesOfOne(old(directory), items[cid], iid);
        }
        if removal == Unreachable {
          DirectoryReady(old(W()), directory);
          return Err(Outage);
        }
        item := item.(outcome := Some(RevokeApplied));
      }
      Record(cid, iid, item);
      RecordedReady(old(W()), cid, iid, decision, decidedBy, comment);
      assert W() == Recorded(old(W()), cid, iid, decision, decidedBy, comment);
      CompleteIfDone(cid);
      return Ok(item);
    }

    method Record(cid: nat, iid: nat, item: Item)
      requires cid in items
      modifies this`items, this`inbox
      ensures items == old(items)[cid := SetItem(old(items)[cid], item, iid)]
      ensures inbox == old(inbox) - {InboxRef(item.reviewer, cid, iid)}
    {
      items := items[cid := SetItem(items[cid], item, iid)];
      inbox := inbox - {InboxRef(item.reviewer, cid, iid)};
    }

    /** The last pending decision completes the campaign. */
    method CompleteIfDone(cid: nat)
      requires Valid() && cid in campaigns && cid in items
      modifies this
      ensures Valid()
      ensures W() == if PendingIn(old(items)[cid]) == {} then Finalized(old(W()), cid) else old(W())
    {
      if PendingIn(items[cid]) == {} {
        Finalize(cid);
      }
    }

    /** Close: expire what is pending, then complete. A failed directory call abandons the loop where it stands. */
    method CloseCampaign(cid: nat) returns (r: Result<(), Failure>)
      requires Valid()
      modifies this
      ensures Valid()
      ensures r.Ok? ==> Enabled(old(W()), Close(cid)) && W() == Next(old(W()), Close(cid))
      ensures r.Ok? ==> ClosedMemberships(old(W()), cid, directory)
      ensures !InState(old(W()), cid, Active) ==>
                W() == old(W()) && r == Err(if cid in old(campaigns) then Conflict else NotFound)
      ensures r.Err? && InState(old(W()), cid, Active) ==>
                old(campaigns)[cid].onExpiry == Revoke && PendingIn(ItemsOf(old(W()), cid)) != {}
      ensures r.Err? && InState(old(W()), cid, Active) ==>
                exists done, asked :: Enabled(old(W()), CloseCutShort(cid, done, asked))
                                      && W() == Next(old(W()), CloseCutShort(cid, done, asked))
      ensures r.Err? && InState(old(W()), cid, Active) ==>
                (r.error == Outage && outages > old(outages))
                || (r.error == UnknownIdentity && !Enabled(old(W()), Close(cid)))
    {
      if cid !in campaigns {
        return Err(NotFound);
      }
      if campaigns[cid].status != Active {
        return Err(Conflict);
      }
      ghost var w0 := W();
      r := CloseActive(cid);
      if r.Ok? {
        CloseTakes(w0, cid);
      }
    }

    /** The close of an active campaign. */
    method CloseActive(cid: nat) returns (r: Result<(), Failure>)
      requires Valid() && InState(W(), cid, Active)
      modifies this
      ensures Valid()
      ensures r.Ok? ==> Enabled(old(W()), Close(cid)) && W() == Next(old(W()), Close(cid))
      ensures r.Err? ==> old(campaigns)[cid].onExpiry == Revoke && PendingIn(ItemsOf(old(W()), cid)) != {}
      ensures r.Err? ==> exists done, asked :: Enabled(old(W()), CloseCutShort(cid, done, asked))
                                               && W() == Next(old(W()), CloseCutShort(cid, done, asked))
      ensures r.Err? ==> (r.error == Outage && outages > old(outages))
                         || (r.error == UnknownIdentity && !Enabled(old(W()), Close(cid)))
    {
      ghost var w0 := W();
      campaigns := campaigns[cid := campaigns[cid].(status := Closing)];
      NothingExpired(w0, cid);
      ghost var done: set<nat>, asked: set<nat>;
      r, done, asked := ExpirePending(w0, cid, if cid in items then items[cid] else map[], campaigns[cid].onExpiry);
      ExpiredReady(w0, cid, done);
      CutShortDirectory(w0, cid, done);
      DirectoryReady(Expired(w0, cid, done), directory);
      if r.Ok? {
        Finalize(cid);
      } else {
        assert Enabled(w0, CloseCutShort(cid, done, asked));
      }
    }

    /**
     The loop of a close, from the state it starts in: which pending items got their consequence before it ended,
     and about which the directory was asked.
     */
    method ExpirePending(ghost w0: World, cid: nat, mine: map<nat, Item>, onExpiry: OnExpiry)
      returns (r: Result<(), Failure>, ghost done: set<nat>, ghost asked: set<nat>)
      requires InState(w0, cid, Active) && mine == ItemsOf(w0, cid) && Revocable(mine)
      requires onExpiry == w0.campaigns[cid].onExpiry && W() == Expired(w0, cid, {})
      modifies this`items, this`inbox, this`directory, this`outages
      ensures done <= asked <= PendingIn(mine) && Reachable(w0, cid, asked) && W() == CutShort(w0, cid, done, asked)
      ensures forall i, j :: i in asked - done && j in asked - done ==> i == j
      ensures r.Ok? ==> done == asked == PendingIn(mine)
      ensures r.Err? ==> r.error == Outage || (r.error == UnknownIdentity && !Reachable(w0, cid, PendingIn(mine)))
      ensures r.Err? ==> onExpiry == Revoke && PendingIn(mine) != {} && (r.error == Outage ==> outages > old(outages))
    {
      done := {};
      var todo := mine.Keys;
      while todo != {}
        invariant todo <= mine.Keys && done == PendingIn(mine) - todo
        invariant Reachable(w0, cid, done) && W() == Expired(w0, cid, done) && outages >= old(outages)
      {
        var i :| i in todo;
        todo := todo - {i};
        if mine[i].decision == Pending {
          assert i in PendingIn(mine);
          var removal;
          removal, asked := ExpireOne(w0, cid, mine, i, onExpiry, done);
          if removal != Removed {
            return Err(if removal == NoSuchIdentity then UnknownIdentity else Outage), done, asked;
          }
          done := done + {i};
        }
      }
      CutShortDirectory(w0, cid, done);
      return Ok(()), done, done;
    }

    method ExpireOne(ghost w0: World, cid: nat, mine: map<nat, Item>, i: nat, onExpiry: OnExpiry, ghost done: set<nat>)
      returns (removal: Removal, ghost asked: set<nat>)
      requires cid in w0.campaigns && mine == ItemsOf(w0, cid) && Revocable(mine) && i in mine && i !in done
      requires onExpiry == w0.campaigns[cid].onExpiry && W() == Expired(w0, cid, done)
      modifies this`items, this`inbox, this`directory, this`outages
      ensures removal == Removed ==> W() == Expired(w0, cid, done + {i})
      ensures removal == Removed && onExpiry == Revoke ==> mine[i].subject in w0.directory
      ensures removal != Removed ==> onExpiry == Revoke && W() == CutShort(w0, cid, done, asked)
      ensures asked == done || (asked == done + {i} && mine[i].subject in w0.directory)
      ensures removal == NoSuchIdentity ==> mine[i].subject !in w0.directory
      ensures outages == old(outages) + if removal == Unreachable then 1 else 0
    {
      removal, asked := Removed, done;
      if onExpiry == Revoke {
        removal, asked := AskForRemoval(w0, cid, mine, i, done);
        if removal != Removed {
          return;
        }
      } else {
        ExpiredDirectory(w0, cid, done, i);
      }
      RecordExpiry(w0, cid, mine, i, onExpiry, done);
    }

    /** The directory's part of one expiry. */
    method AskForRemoval(ghost w0: World, cid: nat, mine: map<nat, Item>, i: nat, ghost done: set<nat>)
      returns (removal: Removal, ghost asked: set<nat>)
      requires cid in w0.campaigns && mine == ItemsOf(w0, cid) && Revocable(mine) && i in mine && i !in done
      requires w0.campaigns[cid].onExpiry == Revoke && W() == Expired(w0, cid, done)
      modifies this`directory, this`outages
      ensures removal == Removed ==>
                mine[i].subject in w0.directory && directory == Expired(w0, cid, done + {i}).directory
      ensures removal != Removed ==> W() == CutShort(w0, cid, done, asked)
      ensures asked == done || (asked == done + {i} && mine[i].subject in w0.directory)
      ensures removal == NoSuchIdentity ==> mine[i].subject !in w0.directory
      ensures outages == old(outages) + if removal == Unreachable then 1 else 0
    {
      asked := done;
      removal := RemoveGroupMembership(mine[i].subject, mine[i].group);
      if removal == Removed {
        ExpiredDirectory(w0, cid, done, i);
      } else {
        asked := AskedFor(w0, cid, done, i, old(W()), W());
      }
    }

    /** The record of it. */
    method RecordExpiry(ghost w0: World, cid: nat, mine: map<nat, Item>, i: nat, onExpiry: OnExpiry,
        ghost done: set<nat>)
      requires cid in w0.campaigns && mine == ItemsOf(w0, cid) && i in mine && i !in done
      requires onExpiry == w0.campaigns[cid].onExpiry
      requires W() == Expired(w0, cid, done).(directory := Expired(w0, cid, done + {i}).directory)
      modifies this`items, this`inbox
      ensures W() == Expired(w0, cid, done + {i})
    {
      ExpiredItems(w0, cid, done, i);
      Record(cid, i, mine[i].(outcome := Some(if onExpiry == Revoke then AutoRevoked else Flagged)));
    }

    /** Approved items become kept, the campaign completes, and the report is written unless there is one. */
    method Finalize(cid: nat)
      requires Valid() && cid in campaigns
      modifies this
      ensures Valid() && W() == Finalized(old(W()), cid)
    {
      FinalizedReady(W(), cid);
      ghost var first := ItemsOf(W(), cid);
      var mine := MarkKept(cid);
      var c := campaigns[cid].(status := Completed);
      campaigns := campaigns[cid := c];
      var report := BuildReport(c, mine);
      if cid !in reports {
        reports := reports[cid := report];
      }
      assert W() == Frozen(old(W()), cid, c, KeepApproved(first), ReportOf(c, KeepApproved(first)));
    }

    method MarkKept(cid: nat) returns (mine: map<nat, Item>)
      modifies this`items
      ensures mine == KeepApproved(ItemsOf(old(W()), cid))
      ensures items == if cid in old(items) then old(items)[cid := mine] else old(items)
    {
      mine := if cid in items then items[cid] else map[];
      ghost var first := mine;
      var todo := mine.Keys;
      assert cid in items ==> items == items[cid := mine];
      while todo != {}
        invariant todo <= first.Keys && mine.Keys == first.Keys
        invariant forall i :: i in first ==> mine[i] == if i in todo then first[i] else KeepApproved(first)[i]
        invariant items == if cid in old(items) then old(items)[cid := mine] else old(items)
      {
        var i :| i in todo;
        var item := mine[i];
        if item.decision == Approved && item.outcome.None? {
          mine := SetItem(mine, item.(outcome := Some(Kept)), i);
          items := items[cid := mine];
        }
        todo := todo - {i};
      }
      assert mine == KeepApproved(first);
    }

    /** The report's counters, row by row. */
    method BuildReport(c: Campaign, items: map<nat, Item>) returns (report: Report)
      ensures report == ReportOf(c, items)
    {
      var total, decided := CountByReviewer(items);
      report := Report(
        c.onExpiry, |items|,
        CountIf(items, IsApproved), CountIf(items, IsRevoked), CountIf(items, IsAutoRevoked),
        CountIf(items, IsFlagged), CountIf(items, IsKept), total, decided, items);
    }

    method CountByReviewer(items: map<nat, Item>) returns (total: map<string, nat>, decided: map<string, nat>)
      ensures total == Tally(items, ReviewerOf, IsItem) && decided == Tally(items, ReviewerOf, IsDecided)
    {
      total, decided := TallyTwo(items, ReviewerOf, IsItem, IsDecided);
    }

    /**
     The reviewer's queue, read off the inverse index: no reference twice, and exactly the undecided items of
     active campaigns assigned to them.
     */
    method GetInbox(reviewer: string) returns (out: seq<InboxRef>)
      requires Sound(W())
      ensures Distinct(out) && ToSet(out) == Inbox(W(), reviewer)
      ensures forall ref: InboxRef :: ref in out <==>
                ref.reviewer == Norm(reviewer) && Due(W(), ref.campaign, ref.item, reviewer)
    {
      out := ReadInbox(reviewer);
      forall ref: InboxRef ensures ref in out <==>
          ref.reviewer == Norm(reviewer) && Due(W(), ref.campaign, ref.item, reviewer) {
        InboxOfSound(W(), reviewer, ref.campaign, ref.item);
        assert ref.reviewer == Norm(reviewer) ==> ref == InboxRef(Norm(reviewer), ref.campaign, ref.item);
      }
    }

    method ReadInbox(reviewer: string) returns (out: seq<InboxRef>)
      ensures Distinct(out) && ToSet(out) == Inbox(W(), reviewer)
    {
      out := [];
      var all := set ref | ref in inbox && ref.reviewer == Norm(reviewer);
      var todo := all;
      while todo != {}
        invariant todo <= all && Distinct(out)
        invariant forall ref :: ref in out <==> ref in Inbox(W(), reviewer) && ref !in todo
      {
        var ref :| ref in todo;
        todo := todo - {ref};
        if ref.campaign in campaigns && campaigns[ref.campaign].status == Active
           && ref.campaign in items && ref.item in items[ref.campaign]
           && items[ref.campaign][ref.item].decision == Pending {
          out := out + [ref];
        }
      }
      assert ToSet(out) == Inbox(W(), reviewer);
    }
  }
}
