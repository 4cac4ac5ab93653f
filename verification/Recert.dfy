/**
 Access-recertification campaigns: campaigns, their review items, the inverse inbox index, the frozen
 reports, and the identity directory whose memberships a decision removes. Operations are atomic: they
 run under a per-campaign lock, except for the deletion, whose overlap with an activation is looked at by
 itself. The directory may refuse a call half-way, and may change by itself between operations.
 */
module Recert {
  import opened Prelude
  import opened Counters
  import opened GroupList
  import opened Text

  // ── Data ──────────────────────────────────────────────────────────────────

  datatype Status = Draft | Active | Closing | Completed | Archived
  datatype Decision = Pending | Approved | Revoked
  datatype Outcome = Kept | AutoRevoked | Flagged | RevokeApplied
  datatype OnExpiry = Revoke | Flag

  datatype Campaign = Campaign(
    id: nat, name: string, scope: seq<string>, reviewers: seq<string>, deadline: int, onExpiry: OnExpiry,
        status: Status)

  /** `selfReview` is the blocking 'self-review' context flag. */
  datatype Item = Item(
    id: nat, campaign: nat, subject: string, group: string, reviewer: string, selfReview: bool,
    decision: Decision, decidedBy: Option<string>, comment: Option<string>, outcome: Option<Outcome>)

  datatype Report = Report(
    onExpiry: OnExpiry, total: nat, approved: nat, revoked: nat, autoRevoked: nat, flagged: nat, kept: nat,
    totalByReviewer: map<string, nat>, decidedByReviewer: map<string, nat>, items: map<nat, Item>)

  /** One member of the set stored under a reviewer's inbox key. */
  datatype InboxRef = InboxRef(reviewer: string, campaign: nat, item: nat)

  /** `directory`: normalised email to groups, for the identities that exist. */
  datatype World = World(
    campaigns: map<nat, Campaign>, items: map<nat, map<nat, Item>>, inbox: set<InboxRef>, reports: map<nat, Report>,
    directory: map<string, seq<string>>, nextId: nat)

  function ItemsOf(w: World, cid: nat): map<nat, Item> {
    if cid in w.items then w.items[cid] else map[]
  }

  predicate Has(w: World, cid: nat, iid: nat) {
    cid in w.items && iid in w.items[cid]
  }

  predicate InState(w: World, cid: nat, status: Status) {
    cid in w.campaigns && w.campaigns[cid].status == status
  }

  // ── What completed operations do ──────────────────────────────────────────

  /** The groups `email` loses when the items in `done` are revoked. */
  function Losses(items: map<nat, Item>, done: set<nat>, email: string): set<string> {
    set i | i in done && i in items && items[i].subject == email :: items[i].group
  }

  function StripAll(directory: map<string, seq<string>>, items: map<nat, Item>, done: set<nat>): map<string,
      seq<string>> {
    map e | e in directory :: Stripped(directory[e], Losses(items, done, e))
  }

  function PendingIn(items: map<nat, Item>): set<nat> {
    set i | i in items && items[i].decision == Pending
  }

  function RefsOf(items: map<nat, Item>, cid: nat, ids: set<nat>): (r: set<InboxRef>)
    ensures forall ref :: ref in r <==>
              ref.campaign == cid && ref.item in ids && ref.item in items && items[ref.item].reviewer == ref.reviewer
  {
    set i | i in ids && i in items :: InboxRef(items[i].reviewer, cid, i)
  }

  function Activated(w: World, cid: nat, items: map<nat, Item>): World
    requires cid in w.campaigns
  {
    w.(campaigns := w.campaigns[cid := w.campaigns[cid].(status := Active)],
       items := if items == map[] then w.items else w.items[cid := ItemsOf(w, cid) + items],
       inbox := w.inbox + RefsOf(items, cid, items.Keys))
  }

  /** One reviewer decision: the item, its inbox reference and, for a revoke, the membership. */
  function DecidedItem(item: Item, decision: Decision, actor: string, comment: Option<string>): Item {
    item.(decision := decision, decidedBy := Some(actor), comment := if comment.Some? then comment else item.comment,
          outcome := if decision == Revoked then Some(RevokeApplied) else item.outcome)
  }

  function SetItem(items: map<nat, Item>, item: Item, iid: nat): map<nat, Item> {
    items[iid := item]
  }

  function Recorded(w: World, cid: nat, iid: nat, decision: Decision, actor: string, comment: Option<string>): World
    requires Has(w, cid, iid)
  {
    var item := w.items[cid][iid];
    w.(items := w.items[cid := SetItem(w.items[cid], DecidedItem(item, decision, actor, comment), iid)],
       inbox := w.inbox - {InboxRef(item.reviewer, cid, iid)},
       directory := if decision == Revoked then StripAll(w.directory, w.items[cid], {iid}) else w.directory)
  }

  function Decided(w: World, cid: nat, iid: nat, decision: Decision, actor: string, comment: Option<string>): World
    requires Has(w, cid, iid) && cid in w.campaigns
  {
    var w1 := Recorded(w, cid, iid, decision, actor, comment);
    if PendingIn(ItemsOf(w1, cid)) == {} then Finalized(w1, cid) else w1
  }

  /** The campaign is closing and exactly the pending items in `done` got the expiry consequence. */
  function Expired(w: World, cid: nat, done: set<nat>): World
    requires cid in w.campaigns
  {
    var c, items := w.campaigns[cid], ItemsOf(w, cid);
    w.(campaigns := w.campaigns[cid := c.(status := Closing)],
       items := if cid in w.items then w.items[cid := ExpireItems(items, done, c.onExpiry)] else w.items,
       inbox := w.inbox - RefsOf(items, cid, done),
       directory := if c.onExpiry == Revoke then StripAll(w.directory, items, done) else w.directory)
  }

  /** Cut short: the directory was asked about `asked`, and answered for those in `done` only. */
  function CutShort(w: World, cid: nat, done: set<nat>, asked: set<nat>): World
    requires cid in w.campaigns
  {
    Expired(w, cid, done).(directory :=
      if w.campaigns[cid].onExpiry == Revoke then StripAll(w.directory, ItemsOf(w, cid), asked) else w.directory)
  }

  /** The directory took the group away, and its answer was lost. */
  function Unrecorded(w: World, cid: nat, iid: nat): World
    requires Has(w, cid, iid)
  {
    w.(directory := StripAll(w.directory, w.items[cid], {iid}))
  }

  function ExpireItems(items: map<nat, Item>, done: set<nat>, onExpiry: OnExpiry): map<nat, Item> {
    map i | i in items ::
      if i in done then items[i].(outcome := Some(if onExpiry == Revoke then AutoRevoked else Flagged)) else items[i]
  }

  function KeepApproved(items: map<nat, Item>): map<nat, Item> {
    map i | i in items ::
      if items[i].decision == Approved && items[i].outcome.None? then items[i].(outcome := Some(Kept)) else items[i]
  }

  function Finalized(w: World, cid: nat): World
    requires cid in w.campaigns
  {
    var c, items := w.campaigns[cid].(status := Completed), KeepApproved(ItemsOf(w, cid));
    Frozen(w, cid, c, items, ReportOf(c, items))
  }

  /** The report is written once: an existing one is kept. */
  function Frozen(w: World, cid: nat, c: Campaign, items: map<nat, Item>, report: Report): World {
    w.(campaigns := w.campaigns[cid := c],
       items := if cid in w.items then w.items[cid := items] else w.items,
       reports := if cid in w.reports then w.reports else w.reports[cid := report])
  }

  function ReportOf(c: Campaign, items: map<nat, Item>): Report {
    Report(
      c.onExpiry, |items|,
      CountIf(items, IsApproved), CountIf(items, IsRevoked), CountIf(items, IsAutoRevoked),
      CountIf(items, IsFlagged), CountIf(items, IsKept),
      Tally(items, ReviewerOf, IsItem), Tally(items, ReviewerOf, IsDecided), items)
  }

  function ReviewerOf(i: Item): string { i.reviewer }
  predicate IsItem(i: Item) { true }
  predicate IsDecided(i: Item) { i.decision != Pending }
  predicate IsExpired(i: Item) { i.decision == Pending }
  predicate IsApproved(i: Item) { i.decision == Approved }
  predicate IsRevoked(i: Item) { i.outcome == Some(RevokeApplied) }
  predicate IsAutoRevoked(i: Item) { i.outcome == Some(AutoRevoked) }
  predicate IsFlagged(i: Item) { i.outcome == Some(Flagged) }
  predicate IsKept(i: Item) { i.outcome == Some(Kept) }

  // ── Events ────────────────────────────────────────────────────────────────

  /**
   A completed operation, a revoke or a close that the directory cut short (with `asked` it may have carried
   out one more removal than it answered), or a change of the directory itself.
   */
  datatype Event =
    | Create(campaign: Campaign)
    | Activate(cid: nat, generated: map<nat, Item>)
    | Decide(cid: nat, iid: nat, decision: Decision, actor: string, comment: Option<string>)
    | Close(cid: nat)
    | RevokeUnanswered(cid: nat, iid: nat, actor: string)
    | CloseCutShort(cid: nat, done: set<nat>, asked: set<nat>)
    | Delete(cid: nat)
    | DirectoryChange(directory: map<string, seq<string>>)

  /**
   A newly made item: undecided, about a membership outside the default group, flagged if it reviews its own
   reviewer.
   */
  predicate FreshItem(item: Item, iid: nat, cid: nat) {
    && item.id == iid && item.campaign == cid
    && item.group != BASE_GROUP
    && item.decision == Pending && item.decidedBy.None? && item.outcome.None?
    && (item.reviewer == item.subject <==> item.selfReview)
  }

  /** The directory can carry out the expiry consequence of these items: it knows every subject that loses a group. */
  predicate Reachable(w: World, cid: nat, done: set<nat>)
    requires cid in w.campaigns
  {
    w.campaigns[cid].onExpiry == Revoke ==>
      forall i :: i in done && i in ItemsOf(w, cid) ==> ItemsOf(w, cid)[i].subject in w.directory
  }

  predicate Enabled(w: World, e: Event) {
    match e
    case Create(c) => c.id == w.nextId && c.status == Draft && c.id !in w.campaigns
    case Activate(cid, generated) =>
      InState(w, cid, Draft) && forall i :: i in generated ==> FreshItem(generated[i], i, cid)
    case Decide(cid, iid, decision, actor, _) =>
      InState(w, cid, Active) && Has(w, cid, iid) && w.items[cid][iid].decision == Pending
      && decision != Pending && w.items[cid][iid].subject != actor
      && (decision == Revoked ==> w.items[cid][iid].subject in w.directory)
    case Close(cid) =>
      InState(w, cid, Active) && Reachable(w, cid, PendingIn(ItemsOf(w, cid)))
    case RevokeUnanswered(cid, iid, actor) =>
      InState(w, cid, Active) && Has(w, cid, iid) && w.items[cid][iid].decision == Pending
      && w.items[cid][iid].subject != actor && w.items[cid][iid].subject in w.directory
    case CloseCutShort(cid, done, asked) =>
      && InState(w, cid, Active) && done <= asked <= PendingIn(ItemsOf(w, cid)) && Reachable(w, cid, asked)
      && forall i, j :: i in asked - done && j in asked - done ==> i == j
    case Delete(cid) => InState(w, cid, Draft) || InState(w, cid, Archived)
    case DirectoryChange(_) => true
  }

  function Next(w: World, e: Event): World
    requires Enabled(w, e)
  {
    match e
    case Create(c) => w.(campaigns := w.campaigns[c.id := c], nextId := w.nextId + 1)
    case Activate(cid, generated) => Activated(w, cid, generated)
    case Decide(cid, iid, decision, actor, comment) => Decided(w, cid, iid, decision, actor, comment)
    case Close(cid) => Finalized(Expired(w, cid, PendingIn(ItemsOf(w, cid))), cid)
    case RevokeUnanswered(cid, iid, _) => Unrecorded(w, cid, iid)
    case CloseCutShort(cid, done, asked) => CutShort(w, cid, done, asked)
    case Delete(cid) =>
      w.(campaigns := w.campaigns - {cid}, items := w.items - {cid},
         inbox := w.inbox - RefsOf(ItemsOf(w, cid), cid, ItemsOf(w, cid).Keys))
    case DirectoryChange(d) => w.(directory := d)
  }

  // ── What every run keeps ──────────────────────────────────────────────────

  /** What a completed item may look like in a campaign with the given status. */
  predicate ItemFits(item: Item, status: Status, onExpiry: OnExpiry) {
    match item.decision
    case Approved => item.decidedBy.Some? && item.outcome == if status == Completed then Some(Kept) else None
    case Revoked => item.decidedBy.Some? && item.outcome == Some(RevokeApplied)
    case Pending =>
      var expired := Some(if onExpiry == Revoke then AutoRevoked else Flagged);
      && item.decidedBy.None?
      && match status
         case Completed => item.outcome == expired
         case Closing => item.outcome == None || item.outcome == expired
         case _ => item.outcome == None
  }

  predicate ItemOk(item: Item, iid: nat, c: Campaign) {
    && item.id == iid && item.campaign == c.id
    && item.group != BASE_GROUP
    && (item.reviewer == item.subject <==> item.selfReview)
    && item.decidedBy != Some(item.subject)
    && ItemFits(item, c.status, c.onExpiry)
  }

  /** One campaign: its items fit its status, and it has a report, describing them, exactly once it is completed. */
  ghost predicate CampaignOk(c: Campaign, cid: nat, items: map<nat, Item>, reports: map<nat, Report>) {
    && c.id == cid
    && (c.status == Draft || c.status == Archived ==> items == map[])
    && (forall iid :: iid in items ==> ItemOk(items[iid], iid, c))
    && (cid in reports <==> c.status == Completed)
    && (cid in reports ==> reports[cid] == ReportOf(c, items))
  }

  /** An item still waits for its reviewer: undecided, and no expiry consequence applied to it. */
  predicate Waiting(item: Item) {
    item.decision == Pending && item.outcome.None?
  }

  /** The inverse index holds one reference per waiting item, under its reviewer, and nothing else. */
  ghost predicate InboxExact(w: World) {
    forall ref: InboxRef :: ref in w.inbox <==>
      Has(w, ref.campaign, ref.item) && w.items[ref.campaign][ref.item].reviewer == ref.reviewer
      && Waiting(w.items[ref.campaign][ref.item])
  }

  ghost predicate Sound(w: World) {
    && (forall cid :: cid in w.campaigns ==>
         cid < w.nextId && CampaignOk(w.campaigns[cid], cid, ItemsOf(w, cid), w.reports))
    && (forall cid :: cid in w.reports ==> cid in w.campaigns)
    && (forall cid, iid :: Has(w, cid, iid) ==> cid in w.campaigns)
    && InboxExact(w)
  }

  /** Nothing about campaign `d` changed, save that reports of other campaigns may have been added. */
  ghost predicate Untouched(w: World, w': World, d: nat) {
    && (d in w'.campaigns <==> d in w.campaigns) && (d in w.campaigns ==> w'.campaigns[d] == w.campaigns[d])
    && ItemsOf(w', d) == ItemsOf(w, d)
    && (d in w'.reports <==> d in w.reports) && (d in w.reports ==> w'.reports[d] == w.reports[d])
    && (forall r, i :: InboxRef(r, d, i) in w'.inbox <==> InboxRef(r, d, i) in w.inbox)
  }

  ghost predicate InboxExactFor(w: World, cid: nat) {
    forall r, i :: InboxRef(r, cid, i) in w.inbox <==>
      i in ItemsOf(w, cid) && ItemsOf(w, cid)[i].reviewer == r && Waiting(ItemsOf(w, cid)[i])
  }

  /** An event about one campaign keeps the world sound if it keeps that campaign sound. */
  lemma SoundByCampaign(w: World, w': World, cid: nat)
    requires Sound(w) && forall d :: d != cid ==> Untouched(w, w', d)
    requires w.nextId <= w'.nextId
    requires cid in w'.campaigns ==> cid < w'.nextId && CampaignOk(w'.campaigns[cid], cid, ItemsOf(w', cid), w'.reports)
    requires cid !in w'.campaigns ==> cid !in w'.reports && ItemsOf(w', cid) == map[]
    requires InboxExactFor(w', cid)
    ensures Sound(w')
  {
    forall d | d in w'.campaigns
      ensures d < w'.nextId && CampaignOk(w'.campaigns[d], d, ItemsOf(w', d), w'.reports)
    {
      if d != cid {
        assert Untouched(w, w', d);
      }
    }
    forall d | d in w'.reports ensures d in w'.campaigns {
      if d != cid {
        assert Untouched(w, w', d);
      }
    }
    forall d, i | Has(w', d, i) ensures d in w'.campaigns {
      if d != cid {
        assert Untouched(w, w', d);
        assert i in ItemsOf(w', d);
        assert Has(w, d, i);
      }
    }
    forall ref: InboxRef
      ensures ref in w'.inbox <==>
              Has(w', ref.campaign, ref.item) && w'.items[ref.campaign][ref.item].reviewer == ref.reviewer
              && Waiting(w'.items[ref.campaign][ref.item])
    {
      var d, i := ref.campaign, ref.item;
      assert ref == InboxRef(ref.reviewer, d, i);
      assert Has(w', d, i) <==> i in ItemsOf(w', d);
      if d != cid {
        assert Untouched(w, w', d);
        assert ref in w'.inbox <==> ref in w.inbox;
        assert Has(w, d, i) <==> i in ItemsOf(w, d);
      }
    }
  }

  lemma SoundFor(w: World, cid: nat)
    requires Sound(w)
    ensures InboxExactFor(w, cid)
  {
    forall r, i
      ensures InboxRef(r, cid, i) in w.inbox <==>
              i in ItemsOf(w, cid) && ItemsOf(w, cid)[i].reviewer == r && Waiting(ItemsOf(w, cid)[i])
    {
      assert Has(w, cid, i) <==> i in ItemsOf(w, cid);
    }
  }

  // ── One event at a time ───────────────────────────────────────────────────

  /** The world after one campaign got a new record and new items, and references of that campaign came or went. */
  ghost predicate OnlyCampaign(w: World, w': World, cid: nat) {
    && cid in w.campaigns && cid in w'.campaigns
    && w'.campaigns == w.campaigns[cid := w'.campaigns[cid]]
    && w'.nextId == w.nextId
    && w'.items - {cid} == w.items - {cid}
    && w'.reports - {cid} == w.reports - {cid}
    && (forall ref: InboxRef :: ref.campaign != cid ==> (ref in w'.inbox <==> ref in w.inbox))
  }

  lemma SoundByFocus(w: World, w': World, cid: nat)
    requires Sound(w) && OnlyCampaign(w, w', cid)
    requires CampaignOk(w'.campaigns[cid], cid, ItemsOf(w', cid), w'.reports)
    requires InboxExactFor(w', cid)
    ensures Sound(w')
  {
    forall d | d != cid ensures Untouched(w, w', d) {
      SameButOne(w.items, w'.items, cid, d);
      SameButOne(w.reports, w'.reports, cid, d);
      assert forall r, i :: InboxRef(r, d, i).campaign == d;
    }
    SoundByCampaign(w, w', cid);
  }

  lemma SameButOne<T>(m: map<nat, T>, n: map<nat, T>, cid: nat, d: nat)
    requires m - {cid} == n - {cid} && d != cid
    ensures (d in m <==> d in n) && (d in m ==> m[d] == n[d])
  {
    assert d in m <==> d in m - {cid};
    assert d in n <==> d in n - {cid};
    if d in m {
      assert (m - {cid})[d] == (n - {cid})[d];
    }
  }

  lemma CreateKeepsSound(w: World, c: Campaign)
    requires Sound(w) && Enabled(w, Create(c))
    ensures Sound(Next(w, Create(c)))
  {
    var w' := Next(w, Create(c));
    SoundFor(w, c.id);
    NothingYet(w, c.id);
    forall d | d != c.id ensures Untouched(w, w', d) {
      assert ItemsOf(w', d) == ItemsOf(w, d);
    }
    SoundByCampaign(w, w', c.id);
  }

  lemma NothingYet(w: World, cid: nat)
    requires Sound(w) && cid !in w.campaigns
    ensures ItemsOf(w, cid) == map[] && cid !in w.reports
  {
    forall i ensures i !in ItemsOf(w, cid) {
      assert Has(w, cid, i) <==> i in ItemsOf(w, cid);
    }
  }

  lemma ActivateKeepsSound(w: World, cid: nat, generated: map<nat, Item>)
    requires Sound(w) && Enabled(w, Activate(cid, generated))
    ensures Sound(Next(w, Activate(cid, generated)))
  {
    ActivatedItems(w, cid, generated);
    ActivatedFits(w, cid, generated);
    ActivatedInbox(w, cid, generated);
    SoundByFocus(w, Activated(w, cid, generated), cid);
  }

  /** A draft has no items: what was generated is all it gets, and no other campaign is touched. */
  lemma ActivatedItems(w: World, cid: nat, generated: map<nat, Item>)
    requires Sound(w) && InState(w, cid, Draft)
    ensures ItemsOf(w, cid) == map[] && ItemsOf(Activated(w, cid, generated), cid) == generated
    ensures OnlyCampaign(w, Activated(w, cid, generated), cid)
  {
    assert CampaignOk(w.campaigns[cid], cid, ItemsOf(w, cid), w.reports);
    assert map[] + generated == generated;
  }

  lemma ActivatedFits(w: World, cid: nat, generated: map<nat, Item>)
    requires Sound(w) && Enabled(w, Activate(cid, generated))
    ensures var w' := Activated(w, cid, generated);
            CampaignOk(w'.campaigns[cid], cid, generated, w'.reports)
  {
    DraftFacts(w, cid);
    var c := w.campaigns[cid].(status := Active);
    forall i | i in generated ensures ItemOk(generated[i], i, c) {
      FreshFits(generated[i], i, c);
    }
  }

  lemma DraftFacts(w: World, cid: nat)
    requires Sound(w) && InState(w, cid, Draft)
    ensures w.campaigns[cid].id == cid && cid !in w.reports
  {
    assert CampaignOk(w.campaigns[cid], cid, ItemsOf(w, cid), w.reports);
  }

  lemma FreshFits(item: Item, iid: nat, c: Campaign)
    requires FreshItem(item, iid, c.id) && c.status == Active
    ensures ItemOk(item, iid, c)
  {
  }

  lemma ActivatedInbox(w: World, cid: nat, generated: map<nat, Item>)
    requires Sound(w) && Enabled(w, Activate(cid, generated))
    requires ItemsOf(w, cid) == map[] && ItemsOf(Activated(w, cid, generated), cid) == generated
    ensures InboxExactFor(Activated(w, cid, generated), cid)
  {
    SoundFor(w, cid);
    assert forall i :: i in generated ==> FreshItem(generated[i], i, cid);
    assert forall i :: i in generated ==> Waiting(generated[i]);
  }

  lemma RecordedKeepsSound(w: World, cid: nat, iid: nat, decision: Decision, actor: string, comment: Option<string>)
    requires Sound(w) && Enabled(w, Decide(cid, iid, decision, actor, comment))
    ensures Sound(Recorded(w, cid, iid, decision, actor, comment))
    ensures InState(Recorded(w, cid, iid, decision, actor, comment), cid, Active)
  {
    var w' := Recorded(w, cid, iid, decision, actor, comment);
    SoundFor(w, cid);
    var item' := DecidedItem(w.items[cid][iid], decision, actor, comment);
    assert ItemsOf(w', cid) == SetItem(w.items[cid], item', iid);
    assert ItemOk(item', iid, w.campaigns[cid]);
    assert w'.campaigns == w.campaigns[cid := w.campaigns[cid]];
    SoundByFocus(w, w', cid);
  }

  /** Freezing the items of an open campaign none of which waits any more. */
  lemma KeptFit(c: Campaign, cid: nat, items: map<nat, Item>, reports: map<nat, Report>)
    requires CampaignOk(c, cid, items, reports) && (c.status == Active || c.status == Closing)
    requires forall i :: i in items ==> !Waiting(items[i])
    ensures forall i :: i in items ==>
              ItemOk(KeepApproved(items)[i], i, c.(status := Completed)) && !Waiting(KeepApproved(items)[i])
              && KeepApproved(items)[i].reviewer == items[i].reviewer
    ensures items == map[] ==> KeepApproved(items) == map[]
  {
    forall i | i in items ensures ItemOk(KeepApproved(items)[i], i, c.(status := Completed)) {
      assert ItemOk(items[i], i, c);
    }
  }

  lemma FinalizedKeepsSound(w: World, cid: nat)
    requires Sound(w) && (InState(w, cid, Active) || InState(w, cid, Closing))
    requires forall i :: i in ItemsOf(w, cid) ==> !Waiting(ItemsOf(w, cid)[i])
    ensures Sound(Finalized(w, cid)) && InState(Finalized(w, cid), cid, Completed)
  {
    var c, items := w.campaigns[cid].(status := Completed), KeepApproved(ItemsOf(w, cid));
    KeptFit(w.campaigns[cid], cid, ItemsOf(w, cid), w.reports);
    var report := ReportOf(c, items);
    CompletedOk(c, cid, items, w.reports, report);
    SoundFor(w, cid);
    FrozenKeepsSound(w, cid, c, items, report);
  }

  lemma CompletedOk(c: Campaign, cid: nat, items: map<nat, Item>, reports: map<nat, Report>, report: Report)
    requires c.id == cid && c.status == Completed && cid !in reports && report == ReportOf(c, items)
    requires forall i :: i in items ==> ItemOk(items[i], i, c)
    ensures CampaignOk(c, cid, items, reports[cid := report])
  {
  }

  lemma FrozenKeepsSound(w: World, cid: nat, c: Campaign, items: map<nat, Item>, report: Report)
    requires Sound(w) && cid in w.campaigns && cid !in w.reports && InboxExactFor(w, cid)
    requires CampaignOk(c, cid, items, w.reports[cid := report])
    requires forall i :: i in items ==> !Waiting(items[i])
    requires forall i :: i in ItemsOf(w, cid) ==> !Waiting(ItemsOf(w, cid)[i])
    requires cid !in w.items ==> items == map[]
    ensures Sound(Frozen(w, cid, c, items, report))
  {
    assert OnlyCampaign(w, w, cid) by {
      assert w.campaigns == w.campaigns[cid := w.campaigns[cid]];
    }
    FrozenFocus(w, w, cid, c, items, report);
    assert InboxExactFor(Frozen(w, cid, c, items, report), cid);
    SoundByFocus(w, Frozen(w, cid, c, items, report), cid);
  }

  lemma ExpiredKeepsSound(w: World, cid: nat, done: set<nat>)
    requires Sound(w) && InState(w, cid, Active) && done <= PendingIn(ItemsOf(w, cid))
    ensures Sound(Expired(w, cid, done)) && InState(Expired(w, cid, done), cid, Closing)
    ensures ItemsOf(Expired(w, cid, done), cid) == ExpireItems(ItemsOf(w, cid), done, w.campaigns[cid].onExpiry)
  {
    ExpiredFocus(w, cid, done);
    ExpiredItemsOk(w, cid, done);
    ExpiredInboxExact(w, cid, done);
    SoundByFocus(w, Expired(w, cid, done), cid);
  }

  lemma ExpiredItemsOk(w: World, cid: nat, done: set<nat>)
    requires Sound(w) && InState(w, cid, Active) && done <= PendingIn(ItemsOf(w, cid))
    ensures var w' := Expired(w, cid, done);
            && ItemsOf(w', cid) == ExpireItems(ItemsOf(w, cid), done, w.campaigns[cid].onExpiry)
            && CampaignOk(w'.campaigns[cid], cid, ItemsOf(w', cid), w'.reports)
  {
    var c, items := w.campaigns[cid], ItemsOf(w, cid);
    var items' := ExpireItems(items, done, c.onExpiry);
    assert items == map[] ==> items' == map[];
    assert ItemsOf(Expired(w, cid, done), cid) == items';
    forall i | i in items ensures ItemOk(items'[i], i, c.(status := Closing)) {
      assert ItemOk(items[i], i, c);
    }
  }

  lemma ExpiredInboxExact(w: World, cid: nat, done: set<nat>)
    requires Sound(w) && InState(w, cid, Active) && done <= PendingIn(ItemsOf(w, cid))
    requires ItemsOf(Expired(w, cid, done), cid) == ExpireItems(ItemsOf(w, cid), done, w.campaigns[cid].onExpiry)
    ensures InboxExactFor(Expired(w, cid, done), cid)
  {
    SoundFor(w, cid);
  }

  lemma DecideKeepsSound(w: World, cid: nat, iid: nat, decision: Decision, actor: string, comment: Option<string>)
    requires Sound(w) && Enabled(w, Decide(cid, iid, decision, actor, comment))
    ensures Sound(Decided(w, cid, iid, decision, actor, comment))
  {
    RecordedKeepsSound(w, cid, iid, decision, actor, comment);
    var w1 := Recorded(w, cid, iid, decision, actor, comment);
    if PendingIn(ItemsOf(w1, cid)) == {} {
      forall i | i in ItemsOf(w1, cid) ensures !Waiting(ItemsOf(w1, cid)[i]) {
        assert i !in PendingIn(ItemsOf(w1, cid));
      }
      FinalizedKeepsSound(w1, cid);
    }
  }

  lemma CloseKeepsSound(w: World, cid: nat)
    requires Sound(w) && Enabled(w, Close(cid))
    ensures Sound(Next(w, Close(cid)))
  {
    var all := PendingIn(ItemsOf(w, cid));
    ExpiredKeepsSound(w, cid, all);
    FinalizedKeepsSound(Expired(w, cid, all), cid);
  }

  lemma DeleteKeepsSound(w: World, cid: nat)
    requires Sound(w) && Enabled(w, Delete(cid))
    ensures Sound(Next(w, Delete(cid)))
  {
    var w' := Next(w, Delete(cid));
    SoundFor(w, cid);
    forall d | d != cid ensures Untouched(w, w', d) {
      assert ItemsOf(w', d) == ItemsOf(w, d);
    }
    SoundByCampaign(w, w', cid);
  }

  lemma StepKeepsSound(w: World, e: Event)
    requires Sound(w) && Enabled(w, e)
    ensures Sound(Next(w, e))
  {
    match e
    case Create(c) => CreateKeepsSound(w, c);
    case Activate(cid, generated) => ActivateKeepsSound(w, cid, generated);
    case Decide(cid, iid, decision, actor, comment) => DecideKeepsSound(w, cid, iid, decision, actor, comment);
    case Close(cid) => CloseKeepsSound(w, cid);
    case RevokeUnanswered(cid, iid, _) => DirectoryAside(w, Unrecorded(w, cid, iid).directory);
    case CloseCutShort(cid, done, asked) =>
      ExpiredKeepsSound(w, cid, done);
      DirectoryAside(Expired(w, cid, done), CutShort(w, cid, done, asked).directory);
    case Delete(cid) => DeleteKeepsSound(w, cid);
    case DirectoryChange(d) => DirectoryAside(w, d);
  }

  /** The directory plays no part in what every run keeps. */
  lemma DirectoryAside(w: World, directory: map<string, seq<string>>)
    requires Sound(w)
    ensures Sound(w.(directory := directory))
  {
    var w' := w.(directory := directory);
    assert forall cid :: ItemsOf(w', cid) == ItemsOf(w, cid);
    assert forall cid, iid :: Has(w', cid, iid) <==> Has(w, cid, iid);
  }

  // ── Every run ─────────────────────────────────────────────────────────────

  function Start(directory: map<string, seq<string>>): World {
    World(map[], map[], {}, map[], directory, 0)
  }

  predicate Legal(w: World, events: seq<Event>)
    decreases |events|, 0
  {
    events == [] ||
    (Legal(w, events[..|events| - 1]) && Enabled(Exec(w, events[..|events| - 1]), events[|events| - 1]))
  }

  function Exec(w: World, events: seq<Event>): World
    requires Legal(w, events)
    decreases |events|, 1
  {
    if events == [] then w else Next(Exec(w, events[..|events| - 1]), events[|events| - 1])
  }

  lemma {:induction false} RunSound(directory: map<string, seq<string>>, events: seq<Event>)
    requires Legal(Start(directory), events)
    ensures Sound(Exec(Start(directory), events))
  {
    if events != [] {
      RunSound(directory, events[..|events| - 1]);
      StepKeepsSound(Exec(Start(directory), events[..|events| - 1]), events[|events| - 1]);
    }
  }

  /** `getInbox`: the references under the reviewer's key that lead to an active campaign's undecided item. */
  function Inbox(w: World, reviewer: string): set<InboxRef> {
    set ref | ref in w.inbox && ref.reviewer == Norm(reviewer)
              && InState(w, ref.campaign, Active) && Has(w, ref.campaign, ref.item)
              && w.items[ref.campaign][ref.item].decision == Pending
  }

  /** Scanning every item instead of the index: is this item waiting for `reviewer` in an active campaign? */
  predicate Due(w: World, cid: nat, iid: nat, reviewer: string) {
    && InState(w, cid, Active) && Has(w, cid, iid)
    && w.items[cid][iid].decision == Pending && w.items[cid][iid].reviewer == Norm(reviewer)
  }

  lemma InboxOfSound(w: World, reviewer: string, cid: nat, iid: nat)
    requires Sound(w)
    ensures InboxRef(Norm(reviewer), cid, iid) in Inbox(w, reviewer) <==> Due(w, cid, iid, reviewer)
  {
    if Due(w, cid, iid, reviewer) {
      assert iid in ItemsOf(w, cid) && ItemOk(ItemsOf(w, cid)[iid], iid, w.campaigns[cid]);
      var ref := InboxRef(Norm(reviewer), cid, iid);
      assert Has(w, ref.campaign, ref.item);
    }
  }

  /**
   The inbox built from the index is exactly what a scan of all items would find: nothing missing, stale or
   doubled.
   */
  lemma InboxIsScan(directory: map<string, seq<string>>, events: seq<Event>, reviewer: string, cid: nat, iid: nat)
    requires Legal(Start(directory), events)
    ensures var w := Exec(Start(directory), events);
            && (InboxRef(Norm(reviewer), cid, iid) in Inbox(w, reviewer) <==> Due(w, cid, iid, reviewer))
            && (forall ref :: ref in Inbox(w, reviewer) ==> ref == InboxRef(Norm(reviewer), ref.campaign, ref.item))
  {
    RunSound(directory, events);
    InboxOfSound(Exec(Start(directory), events), reviewer, cid, iid);
  }

  // ── Decisions and reports are final ───────────────────────────────────────

  /** What a later world must still say about a decided item, a completed campaign and a stuck one. */
  ghost predicate Remembers(w: World, w': World, cid: nat) {
    && KeepsDecisions(ItemsOf(w, cid), ItemsOf(w', cid))
    && (InState(w, cid, Completed) || InState(w, cid, Closing) ==>
          cid in w'.campaigns && w'.campaigns[cid] == w.campaigns[cid] && ItemsOf(w', cid) == ItemsOf(w, cid))
    && (cid in w.reports ==> cid in w'.reports && w'.reports[cid] == w.reports[cid])
  }

  predicate KeepsDecisions(items: map<nat, Item>, items': map<nat, Item>) {
    forall i :: i in items && items[i].decision != Pending ==>
      i in items' && items'[i].decision == items[i].decision && items'[i].decidedBy == items[i].decidedBy
  }

  lemma FocusRemembers(w: World, w': World, cid: nat, d: nat)
    requires Sound(w) && OnlyCampaign(w, w', cid) && (InState(w, cid, Draft) || InState(w, cid, Active))
    requires KeepsDecisions(ItemsOf(w, cid), ItemsOf(w', cid))
    ensures Remembers(w, w', d)
  {
    if d != cid {
      SameButOne(w.items, w'.items, cid, d);
      SameButOne(w.reports, w'.reports, cid, d);
    }
  }

  lemma StepRemembers(w: World, e: Event, d: nat)
    requires Sound(w) && Enabled(w, e)
    ensures Remembers(w, Next(w, e), d)
  {
    match e
    case Create(c) => CreateRemembers(w, c, d);
    case Activate(cid, generated) => ActivateRemembers(w, cid, generated, d);
    case Decide(cid, iid, decision, actor, comment) => DecideRemembers(w, cid, iid, decision, actor, comment, d);
    case Close(cid) => CloseRemembers(w, cid, PendingIn(ItemsOf(w, cid)), d);
    case RevokeUnanswered(cid, iid, _) => RemembersItself(w, Unrecorded(w, cid, iid).directory, d);
    case CloseCutShort(cid, done, asked) => CutShortRemembers(w, cid, done, asked, d);
    case Delete(cid) => DeleteRemembers(w, cid, d);
    case DirectoryChange(directory) => RemembersItself(w, directory, d);
  }

  lemma RemembersItself(w: World, directory: map<string, seq<string>>, d: nat)
    requires Sound(w)
    ensures Remembers(w, w.(directory := directory), d)
  {
    assert ItemsOf(w.(directory := directory), d) == ItemsOf(w, d);
  }

  lemma CutShortRemembers(w: World, cid: nat, done: set<nat>, asked: set<nat>, d: nat)
    requires Sound(w) && InState(w, cid, Active) && done <= PendingIn(ItemsOf(w, cid))
    ensures Remembers(w, CutShort(w, cid, done, asked), d)
  {
    CloseRemembers(w, cid, done, d);
    assert ItemsOf(CutShort(w, cid, done, asked), d) == ItemsOf(Expired(w, cid, done), d);
  }

  lemma CreateRemembers(w: World, c: Campaign, d: nat)
    requires Sound(w) && Enabled(w, Create(c))
    ensures Remembers(w, Next(w, Create(c)), d)
  {
    assert ItemsOf(Next(w, Create(c)), d) == ItemsOf(w, d);
  }

  lemma DeleteRemembers(w: World, cid: nat, d: nat)
    requires Sound(w) && Enabled(w, Delete(cid))
    ensures Remembers(w, Next(w, Delete(cid)), d)
  {
    var w' := Next(w, Delete(cid));
    if d == cid {
      assert CampaignOk(w.campaigns[cid], cid, ItemsOf(w, cid), w.reports);
      assert ItemsOf(w, cid) == map[];
    } else {
      assert ItemsOf(w', d) == ItemsOf(w, d);
    }
  }

  lemma ActivateRemembers(w: World, cid: nat, generated: map<nat, Item>, d: nat)
    requires Sound(w) && Enabled(w, Activate(cid, generated))
    ensures Remembers(w, Next(w, Activate(cid, generated)), d)
  {
    assert CampaignOk(w.campaigns[cid], cid, ItemsOf(w, cid), w.reports);
    assert ItemsOf(w, cid) == map[];
    FocusRemembers(w, Activated(w, cid, generated), cid, d);
  }

  lemma DecideRemembers(w: World, cid: nat, iid: nat, decision: Decision, actor: string, comment: Option<string>,
      d: nat)
    requires Sound(w) && Enabled(w, Decide(cid, iid, decision, actor, comment))
    ensures Remembers(w, Next(w, Decide(cid, iid, decision, actor, comment)), d)
  {
    var w1 := Recorded(w, cid, iid, decision, actor, comment);
    RecordedFocus(w, cid, iid, decision, actor, comment);
    FocusRemembers(w, w1, cid, d);
    FinalizedFocus(w, w1, cid);
    FocusRemembers(w, Finalized(w1, cid), cid, d);
  }

  lemma RecordedFocus(w: World, cid: nat, iid: nat, decision: Decision, actor: string, comment: Option<string>)
    requires Enabled(w, Decide(cid, iid, decision, actor, comment))
    ensures var w1 := Recorded(w, cid, iid, decision, actor, comment);
            OnlyCampaign(w, w1, cid) && KeepsDecisions(ItemsOf(w, cid), ItemsOf(w1, cid))
  {
    var w1 := Recorded(w, cid, iid, decision, actor, comment);
    assert ItemsOf(w1, cid) == SetItem(w.items[cid], DecidedItem(w.items[cid][iid], decision, actor, comment), iid);
    assert w1.campaigns == w.campaigns[cid := w.campaigns[cid]];
  }

  lemma ExpiredFocus(w: World, cid: nat, done: set<nat>)
    requires InState(w, cid, Active) && done <= PendingIn(ItemsOf(w, cid))
    ensures var w1 := Expired(w, cid, done);
            OnlyCampaign(w, w1, cid) && KeepsDecisions(ItemsOf(w, cid), ItemsOf(w1, cid))
  {
    assert ItemsOf(Expired(w, cid, done), cid) == ExpireItems(ItemsOf(w, cid), done, w.campaigns[cid].onExpiry);
  }

  lemma CloseRemembers(w: World, cid: nat, done: set<nat>, d: nat)
    requires Sound(w) && InState(w, cid, Active) && done <= PendingIn(ItemsOf(w, cid))
    ensures Remembers(w, Expired(w, cid, done), d)
    ensures Remembers(w, Finalized(Expired(w, cid, done), cid), d)
  {
    var w1 := Expired(w, cid, done);
    ExpiredFocus(w, cid, done);
    FocusRemembers(w, w1, cid, d);
    FinalizedFocus(w, w1, cid);
    FocusRemembers(w, Finalized(w1, cid), cid, d);
  }

  lemma FinalizedFocus(w: World, w1: World, cid: nat)
    requires OnlyCampaign(w, w1, cid)
    ensures OnlyCampaign(w, Finalized(w1, cid), cid)
    ensures KeepsDecisions(ItemsOf(w, cid), ItemsOf(w1, cid)) ==>
              KeepsDecisions(ItemsOf(w, cid), ItemsOf(Finalized(w1, cid), cid))
  {
    var c, items := w1.campaigns[cid].(status := Completed), KeepApproved(ItemsOf(w1, cid));
    assert ItemsOf(w1, cid) == map[] ==> items == map[];
    FrozenFocus(w, w1, cid, c, items, ReportOf(c, items));
  }

  lemma FrozenFocus(w: World, w1: World, cid: nat, c: Campaign, items: map<nat, Item>, report: Report)
    requires OnlyCampaign(w, w1, cid)
    requires cid !in w1.items ==> items == map[]
    ensures OnlyCampaign(w, Frozen(w1, cid, c, items, report), cid)
    ensures ItemsOf(Frozen(w1, cid, c, items, report), cid) == items
  {
    var w' := Frozen(w1, cid, c, items, report);
    assert w'.items - {cid} == w1.items - {cid};
    assert w'.reports - {cid} == w1.reports - {cid};
  }

  /**
   In every run, from any point on: a decided item keeps its decision and decider, a completed campaign its items
   and report, and a campaign left closing stays closing.
   */
  lemma {:induction false} RunRemembers(directory: map<string, seq<string>>, events: seq<Event>, n: nat, cid: nat)
    requires Legal(Start(directory), events) && n <= |events|
    ensures Legal(Start(directory), events[..n])
    ensures Remembers(Exec(Start(directory), events[..n]), Exec(Start(directory), events), cid)
    decreases |events|
  {
    if n == |events| {
      assert events[..n] == events;
    } else {
      var front := events[..|events| - 1];
      RunRemembers(directory, front, n, cid);
      assert front[..n] == events[..n];
      RunSound(directory, front);
      StepRemembers(Exec(Start(directory), front), events[|events| - 1], cid);
    }
  }

  /** A close that was cut short cannot be finished: no later operation completes the campaign or writes its report. */
  lemma CutShortIsForever(directory: map<string, seq<string>>, events: seq<Event>, n: nat, cid: nat)
    requires Legal(Start(directory), events) && n <= |events|
    requires Legal(Start(directory), events[..n]) && InState(Exec(Start(directory), events[..n]), cid, Closing)
    ensures InState(Exec(Start(directory), events), cid, Closing) && cid !in Exec(Start(directory), events).reports
  {
    RunRemembers(directory, events, n, cid);
    RunSound(directory, events);
    var w := Exec(Start(directory), events);
    assert CampaignOk(w.campaigns[cid], cid, ItemsOf(w, cid), w.reports);
  }

  lemma ExecSnoc(w: World, events: seq<Event>, e: Event)
    requires Legal(w, events) && Enabled(Exec(w, events), e)
    ensures Legal(w, events + [e]) && Exec(w, events + [e]) == Next(Exec(w, events), e)
  {
    assert (events + [e])[..|events|] == events;
  }

  /** The shortest way there: the subject of a pending item leaves the directory, and the campaign revokes on expiry. */
  lemma DeletedSubjectStopsClose(c: Campaign, item: Item)
    requires c.id == 0 && c.status == Draft && c.onExpiry == Revoke && FreshItem(item, 0, 0)
    ensures var events := [Create(c), Activate(0, map[0 := item]), DirectoryChange(map[])];
            && Legal(Start(map[item.subject := [item.group]]), events)
            && var w := Exec(Start(map[item.subject := [item.group]]), events);
            && InState(w, 0, Active) && !Enabled(w, Close(0))
            && Enabled(w, CloseCutShort(0, {}, {})) && InState(Next(w, CloseCutShort(0, {}, {})), 0, Closing)
  {
    OpenedThenGone(c, item);
    var w := World(map[0 := c.(status := Active)], map[0 := map[0 := item]],
                   {InboxRef(item.reviewer, 0, 0)}, map[], map[], 1);
    assert ItemsOf(w, 0)[0] == item;
    assert 0 in PendingIn(ItemsOf(w, 0));
    assert w.campaigns[0].onExpiry == Revoke && item.subject !in w.directory;
  }

  lemma OpenedThenGone(c: Campaign, item: Item)
    requires c.id == 0 && c.status == Draft && FreshItem(item, 0, 0)
    ensures var events := [Create(c), Activate(0, map[0 := item]), DirectoryChange(map[])];
            && Legal(Start(map[item.subject := [item.group]]), events)
            && Exec(Start(map[item.subject := [item.group]]), events)
               == World(map[0 := c.(status := Active)], map[0 := map[0 := item]],
                        {InboxRef(item.reviewer, 0, 0)}, map[], map[], 1)
  {
    var start := Start(map[item.subject := [item.group]]);
    var e1, e2, e3 := Create(c), Activate(0, map[0 := item]), DirectoryChange(map[]);
    ExecSnoc(start, [], e1);
    assert [] + [e1] == [e1] && [e1] + [e2] == [e1, e2] && [e1, e2] + [e3] == [e1, e2, e3];
    var w1 := Next(start, e1);
    OpenedWithOne(w1, c, item);
    ExecSnoc(start, [e1], e2);
    ExecSnoc(start, [e1, e2], e3);
  }

  lemma OpenedWithOne(w: World, c: Campaign, item: Item)
    requires c.id == 0 && c.status == Draft && FreshItem(item, 0, 0)
    requires w == World(map[0 := c], map[], {}, map[], w.directory, 1)
    ensures Enabled(w, Activate(0, map[0 := item]))
    ensures Activated(w, 0, map[0 := item])
            == World(map[0 := c.(status := Active)], map[0 := map[0 := item]],
                     {InboxRef(item.reviewer, 0, 0)}, map[], w.directory, 1)
  {
    var one := map[0 := item];
    assert map[] + one == one && one.Keys == {0};
    assert RefsOf(one, 0, {0}) == {InboxRef(item.reviewer, 0, 0)};
  }

  /** The numbers of every completion report add up, and the expiry columns follow the campaign's policy. */
  lemma ReportAddsUp(directory: map<string, seq<string>>, events: seq<Event>, cid: nat)
    requires Legal(Start(directory), events)
    requires InState(Exec(Start(directory), events), cid, Completed)
    ensures var w := Exec(Start(directory), events);
            && cid in w.reports
            && var r := w.reports[cid];
            && r.items == ItemsOf(w, cid) && r.total == |r.items|
            && r.total == r.approved + r.revoked + r.autoRevoked + r.flagged
            && r.kept == r.approved
            && Sum(r.totalByReviewer) == r.total
            && Sum(r.decidedByReviewer) == r.approved + r.revoked
            && (if w.campaigns[cid].onExpiry == Revoke then r.flagged == 0 else r.autoRevoked == 0)
  {
    RunSound(directory, events);
    var w := Exec(Start(directory), events);
    assert CampaignOk(w.campaigns[cid], cid, ItemsOf(w, cid), w.reports);
    CompletedCounts(w.campaigns[cid], ItemsOf(w, cid));
  }

  lemma CompletedCounts(c: Campaign, items: map<nat, Item>)
    requires c.status == Completed && forall i :: i in items ==> ItemOk(items[i], i, c)
    ensures var r := ReportOf(c, items);
            && r.total == r.approved + r.revoked + r.autoRevoked + r.flagged
            && r.kept == r.approved
            && Sum(r.totalByReviewer) == r.total
            && Sum(r.decidedByReviewer) == r.approved + r.revoked
            && (if c.onExpiry == Revoke then r.flagged == 0 else r.autoRevoked == 0)
  {
    DecidedCounts(c, items);
    ExpiredCounts(c, items);
    CountSplit(items, IsItem, IsDecided, IsExpired);
    CountAll(items, IsItem);
    TallySum(items, ReviewerOf, IsItem);
    TallySum(items, ReviewerOf, IsDecided);
  }

  lemma DecidedCounts(c: Campaign, items: map<nat, Item>)
    requires c.status == Completed && forall i :: i in items ==> ItemOk(items[i], i, c)
    ensures CountIf(items, IsDecided) == CountIf(items, IsApproved) + CountIf(items, IsRevoked)
    ensures CountIf(items, IsKept) == CountIf(items, IsApproved)
  {
    assert forall i :: i in items ==> ItemFits(items[i], c.status, c.onExpiry);
    CountSplit(items, IsDecided, IsApproved, IsRevoked);
    CountSameItems(items, IsKept, IsApproved);
  }

  lemma ExpiredCounts(c: Campaign, items: map<nat, Item>)
    requires c.status == Completed && forall i :: i in items ==> ItemOk(items[i], i, c)
    ensures CountIf(items, IsExpired) == CountIf(items, IsAutoRevoked) + CountIf(items, IsFlagged)
    ensures if c.onExpiry == Revoke then CountIf(items, IsFlagged) == 0 else CountIf(items, IsAutoRevoked) == 0
  {
    assert forall i :: i in items ==> ItemFits(items[i], c.status, c.onExpiry);
    CountSplit(items, IsExpired, IsAutoRevoked, IsFlagged);
    if c.onExpiry == Revoke {
      CountNone(items, IsFlagged);
    } else {
      CountNone(items, IsAutoRevoked);
    }
  }

  // ── Memberships ───────────────────────────────────────────────────────────

  /** Why an identity may lose a group: a revoked, or expired-to-revoke, item about exactly that membership. */
  ghost predicate Justified(w: World, email: string, group: string) {
    exists cid, iid :: Has(w, cid, iid) && Justifies(w.items[cid][iid], email, group)
  }

  predicate Justifies(item: Item, email: string, group: string) {
    item.subject == email && item.group == group && (item.decision == Revoked || item.outcome == Some(AutoRevoked))
  }

  /** Or a removal that was asked for about exactly that membership, and carried out but not answered. */
  ghost predicate Unanswered(w: World, e: Event, email: string, group: string) {
    match e
    case RevokeUnanswered(cid, iid, _) => Has(w, cid, iid) && About(w.items[cid][iid], email, group)
    case CloseCutShort(cid, done, asked) =>
      exists i :: i in asked - done && i in ItemsOf(w, cid) && About(ItemsOf(w, cid)[i], email, group)
    case _ => false
  }

  predicate About(item: Item, email: string, group: string) {
    item.subject == email && item.group == group
  }

  /** What an operation may do to the directory. */
  ghost predicate DirectorySafe(w: World, e: Event, w': World) {
    && w'.directory.Keys == w.directory.Keys
    && forall m :: m in w.directory ==>
         && (w.directory[m] != [] ==> w'.directory[m] != [])
         && (BASE_GROUP in w.directory[m] ==> BASE_GROUP in w'.directory[m])
         && (forall g :: g in w.directory[m] && g !in w'.directory[m] ==> Justified(w', m, g) || Unanswered(w, e, m, g))
         && (forall g :: g in w'.directory[m] && g !in w.directory[m] ==> g == BASE_GROUP)
  }

  lemma StrippedSafe(groups: seq<string>, gone: set<string>)
    requires BASE_GROUP !in gone
    ensures groups != [] ==> Stripped(groups, gone) != []
    ensures BASE_GROUP in groups ==> BASE_GROUP in Stripped(groups, gone)
    ensures forall g :: g in groups && g !in Stripped(groups, gone) ==> g in gone
    ensures forall g :: g in Stripped(groups, gone) && g !in groups ==> g == BASE_GROUP
  {
  }

  /** An item about a membership that was taken away: it says so, or the answer was lost. */
  ghost predicate Accounted(w: World, e: Event, w': World, cid: nat, item: Item, i: nat) {
    || (Has(w', cid, i) && About(w'.items[cid][i], item.subject, item.group)
        && (w'.items[cid][i].decision == Revoked || w'.items[cid][i].outcome == Some(AutoRevoked)))
    || Unanswered(w, e, item.subject, item.group)
  }

  lemma StripAllSafe(w: World, e: Event, w': World, cid: nat, items: map<nat, Item>, done: set<nat>)
    requires forall i :: i in items ==> items[i].group != BASE_GROUP
    requires w'.directory == StripAll(w.directory, items, done)
    requires forall i :: i in done && i in items ==> Accounted(w, e, w', cid, items[i], i)
    ensures DirectorySafe(w, e, w')
  {
    forall m | m in w.directory
      ensures w.directory[m] != [] ==> w'.directory[m] != []
      ensures BASE_GROUP in w.directory[m] ==> BASE_GROUP in w'.directory[m]
      ensures forall g :: g in w.directory[m] && g !in w'.directory[m] ==> Justified(w', m, g) || Unanswered(w, e, m, g)
      ensures forall g :: g in w'.directory[m] && g !in w.directory[m] ==> g == BASE_GROUP
    {
      var gone := Losses(items, done, m);
      StrippedSafe(w.directory[m], gone);
      forall g | g in gone ensures Justified(w', m, g) || Unanswered(w, e, m, g) {
        var i :| i in done && i in items && items[i].subject == m && items[i].group == g;
        assert Accounted(w, e, w', cid, items[i], i);
      }
    }
  }

  /**
   No operation empties an identity's group list, removes the default group, or removes a group
   without a revoked or expired-to-revoke item for that identity and group, or a request for it whose answer
   was lost. (The directory's own changes between operations are not the service's doing.)
   */
  lemma OperationsSpareMemberships(directory: map<string, seq<string>>, events: seq<Event>, e: Event)
    requires Legal(Start(directory), events) && Enabled(Exec(Start(directory), events), e) && !e.DirectoryChange?
    ensures var w := Exec(Start(directory), events);
            DirectorySafe(w, e, Next(w, e))
  {
    RunSound(directory, events);
    var w := Exec(Start(directory), events);
    StepSafe(w, e);
  }

  lemma StepSafe(w: World, e: Event)
    requires Sound(w) && Enabled(w, e) && !e.DirectoryChange?
    ensures DirectorySafe(w, e, Next(w, e))
  {
    match e
    case Decide(cid, iid, decision, actor, comment) =>
      if decision == Revoked {
        RecordedSafe(w, cid, iid, actor, comment);
      }
    case RevokeUnanswered(cid, iid, _) => UnrecordedSafe(w, e, cid, iid);
    case Close(cid) => ExpiredSafe(w, e, cid);
    case CloseCutShort(cid, done, asked) => CutShortSafe(w, e, cid, done, asked);
    case _ =>
  }

  lemma StillJustified(w1: World, cid: nat, e: string, g: string)
    requires cid in w1.campaigns && Justified(w1, e, g)
    ensures Justified(Finalized(w1, cid), e, g)
  {
    var c, items := w1.campaigns[cid].(status := Completed), KeepApproved(ItemsOf(w1, cid));
    FrozenStillJustified(w1, cid, c, items, ReportOf(c, items), e, g);
  }

  lemma FrozenStillJustified(
    w1: World, cid: nat, c: Campaign, items: map<nat, Item>, report: Report, e: string, g: string)
    requires Justified(w1, e, g) && items == KeepApproved(ItemsOf(w1, cid))
    ensures Justified(Frozen(w1, cid, c, items, report), e, g)
  {
    var d, i :| Has(w1, d, i) && Justifies(w1.items[d][i], e, g);
    FrozenStillHas(w1, cid, c, items, report, d, i);
  }

  lemma FrozenStillHas(
    w1: World, cid: nat, c: Campaign, items: map<nat, Item>, report: Report, d: nat, i: nat)
    requires Has(w1, d, i) && items == KeepApproved(ItemsOf(w1, cid))
    ensures var w := Frozen(w1, cid, c, items, report);
            && Has(w, d, i) && w.items[d][i].subject == w1.items[d][i].subject
            && w.items[d][i].group == w1.items[d][i].group && w.items[d][i].decision == w1.items[d][i].decision
            && (w1.items[d][i].outcome.Some? ==> w.items[d][i].outcome == w1.items[d][i].outcome)
  {
  }

  /** Freezing changes no membership and takes no justification away. */
  lemma FinalizedStillSafe(w: World, ev: Event, w1: World, cid: nat)
    requires DirectorySafe(w, ev, w1) && cid in w1.campaigns
    ensures DirectorySafe(w, ev, Finalized(w1, cid))
  {
    forall e, g | Justified(w1, e, g) ensures Justified(Finalized(w1, cid), e, g) {
      StillJustified(w1, cid, e, g);
    }
    assert Finalized(w1, cid).directory == w1.directory;
  }

  lemma RecordedSafe(w: World, cid: nat, iid: nat, actor: string, comment: Option<string>)
    requires Sound(w) && Enabled(w, Decide(cid, iid, Revoked, actor, comment))
    ensures DirectorySafe(w, Decide(cid, iid, Revoked, actor, comment), Decided(w, cid, iid, Revoked, actor, comment))
  {
    ItemsSpareDefault(w, cid);
    var e, w1 := Decide(cid, iid, Revoked, actor, comment), Recorded(w, cid, iid, Revoked, actor, comment);
    StripAllSafe(w, e, w1, cid, w.items[cid], {iid});
    FinalizedStillSafe(w, e, w1, cid);
  }

  lemma ItemsSpareDefault(w: World, cid: nat)
    requires Sound(w) && cid in w.campaigns
    ensures forall i :: i in ItemsOf(w, cid) ==> ItemsOf(w, cid)[i].group != BASE_GROUP
  {
    assert forall i :: i in ItemsOf(w, cid) ==> ItemOk(ItemsOf(w, cid)[i], i, w.campaigns[cid]);
  }

  lemma UnrecordedSafe(w: World, e: Event, cid: nat, iid: nat)
    requires Sound(w) && Enabled(w, e) && e.RevokeUnanswered? && e.cid == cid && e.iid == iid
    ensures DirectorySafe(w, e, Unrecorded(w, cid, iid))
  {
    ItemsSpareDefault(w, cid);
    StripAllSafe(w, e, Unrecorded(w, cid, iid), cid, w.items[cid], {iid});
  }

  lemma CutShortSafe(w: World, e: Event, cid: nat, done: set<nat>, asked: set<nat>)
    requires Sound(w) && InState(w, cid, Active) && done <= asked <= PendingIn(ItemsOf(w, cid))
    requires e == CloseCutShort(cid, done, asked) || (asked == done && (e.Close? || e.CloseCutShort?))
    ensures DirectorySafe(w, e, CutShort(w, cid, done, asked))
  {
    ItemsSpareDefault(w, cid);
    var w1, items := CutShort(w, cid, done, asked), ItemsOf(w, cid);
    if w.campaigns[cid].onExpiry == Revoke {
      forall i | i in asked && i in items ensures Accounted(w, e, w1, cid, items[i], i) {
        if i in done {
          assert w1.items[cid][i].outcome == Some(AutoRevoked);
        } else {
          assert i in asked - done;
        }
      }
      StripAllSafe(w, e, w1, cid, items, asked);
    }
  }

  lemma ExpiredSafe(w: World, e: Event, cid: nat)
    requires Sound(w) && Enabled(w, e) && e == Close(cid)
    ensures DirectorySafe(w, e, Next(w, e))
  {
    var all := PendingIn(ItemsOf(w, cid));
    CutShortSafe(w, e, cid, all, all);
    assert CutShort(w, cid, all, all) == Expired(w, cid, all);
    FinalizedStillSafe(w, e, Expired(w, cid, all), cid);
  }

  /**
   A revoke whose answer was lost: the item is still pending, and its next reviewer may approve a membership
   that is gone.
   */
  lemma UnansweredThenApproved(w: World, cid: nat, iid: nat, actor: string)
    requires Sound(w) && Enabled(w, RevokeUnanswered(cid, iid, actor))
    ensures var item, w1 := w.items[cid][iid], Next(w, RevokeUnanswered(cid, iid, actor));
            && w1.items[cid][iid] == item && item.group !in w1.directory[item.subject]
            && Enabled(w1, Decide(cid, iid, Approved, actor, None))
            && var w2 := Next(w1, Decide(cid, iid, Approved, actor, None));
               w2.items[cid][iid].decision == Approved && item.group !in w2.directory[item.subject]
  {
    ItemsSpareDefault(w, cid);
    var item := w.items[cid][iid];
    assert item.group in Losses(w.items[cid], {iid}, item.subject);
  }

  // ── A deletion that overlaps an activation ────────────────────────────────

  /** Deletion takes no lock. Its two last writes, of the items and of the campaign, if they come at this moment. */
  function Deleting(w: World, cid: nat, items: bool, campaign: bool): World {
    w.(items := if items then w.items - {cid} else w.items,
       campaigns := if campaign then w.campaigns - {cid} else w.campaigns)
  }

  /** The first two writes of an activation: the items, then their references. The third opens the campaign. */
  function ItemsStored(w: World, cid: nat, generated: map<nat, Item>): World {
    w.(items := if generated == map[] then w.items else w.items[cid := ItemsOf(w, cid) + generated])
  }

  function RefsStored(w: World, cid: nat, generated: map<nat, Item>): World {
    w.(inbox := w.inbox + RefsOf(generated, cid, generated.Keys))
  }

  /**
   An activation of `c`, and a deletion that has found the draft without items (so there are no references to
   remove) and deletes the items after the first `a` writes of the activation, the campaign after the first `b`.
   */
  function Overlapped(w: World, c: Campaign, generated: map<nat, Item>, a: nat, b: nat): World
    requires a <= b <= 3
  {
    var w0 := Deleting(w, c.id, a == 0, b == 0);
    var w1 := Deleting(ItemsStored(w0, c.id, generated), c.id, a == 1, b == 1);
    var w2 := Deleting(RefsStored(w1, c.id, generated), c.id, a == 2, b == 2);
    Deleting(w2.(campaigns := w2.campaigns[c.id := c.(status := Active)]), c.id, a == 3, b == 3)
  }

  /** How it ends: the items stay if they come after the deletion of the items, the campaign likewise. */
  lemma OverlappedEnds(w: World, c: Campaign, generated: map<nat, Item>, a: nat, b: nat)
    requires a <= b <= 3 && ItemsOf(w, c.id) == map[]
    ensures var w' := Overlapped(w, c, generated, a, b);
            && ItemsOf(w', c.id) == (if a == 0 then generated else map[])
            && w'.campaigns == (if b < 3 then w.campaigns[c.id := c.(status := Active)] else w.campaigns - {c.id})
            && w'.items - {c.id} == w.items - {c.id}
            && w'.inbox == w.inbox + RefsOf(generated, c.id, generated.Keys)
            && w'.reports == w.reports && w'.nextId == w.nextId
  {
    assert map[] + generated == generated;
    OpenedOrDeleted(w.campaigns, c.id, c.(status := Active));
  }

  lemma OpenedOrDeleted(campaigns: map<nat, Campaign>, cid: nat, open: Campaign)
    ensures (campaigns - {cid})[cid := open] == campaigns[cid := open]
    ensures campaigns[cid := open] - {cid} == campaigns - {cid}
  {
  }

  /**
   What every run keeps survives the overlap exactly when the activation makes no items, or its first and last
   writes each come after the deletion's: otherwise references point nowhere.
   */
  lemma DeletionOverlap(w: World, c: Campaign, generated: map<nat, Item>, a: nat, b: nat)
    requires Sound(w) && a <= b <= 3 && c.id in w.campaigns && w.campaigns[c.id] == c
    requires Enabled(w, Activate(c.id, generated))
    ensures Sound(Overlapped(w, c, generated, a, b)) <==> generated == map[] || (a == 0 && b < 3)
  {
    ActivatedItems(w, c.id, generated);
    OverlappedEnds(w, c, generated, a, b);
    if generated == map[] || (a == 0 && b < 3) {
      OverlapHarmless(w, c, generated, a, b);
    } else {
      var i :| i in generated;
      OverlapBreaks(w, c, generated, a, b, i);
    }
  }

  lemma OverlapHarmless(w: World, c: Campaign, generated: map<nat, Item>, a: nat, b: nat)
    requires Sound(w) && a <= b <= 3 && c.id in w.campaigns && w.campaigns[c.id] == c
    requires Enabled(w, Activate(c.id, generated)) && ItemsOf(w, c.id) == map[]
    requires generated == map[] || (a == 0 && b < 3)
    ensures Sound(Overlapped(w, c, generated, a, b))
  {
    OverlappedEnds(w, c, generated, a, b);
    var w' := Overlapped(w, c, generated, a, b);
    SoundFor(w, c.id);
    DraftFacts(w, c.id);
    OverlapFits(w, c, generated);
    forall d | d != c.id ensures Untouched(w, w', d) {
      SameButOne(w.items, w'.items, c.id, d);
    }
    OverlapInbox(w, c, generated, a, b);
    SoundByCampaign(w, w', c.id);
  }

  lemma OverlapFits(w: World, c: Campaign, generated: map<nat, Item>)
    requires Enabled(w, Activate(c.id, generated)) && c.id !in w.reports
    ensures CampaignOk(c.(status := Active), c.id, generated, w.reports)
  {
    forall i | i in generated ensures ItemOk(generated[i], i, c.(status := Active)) {
      FreshFits(generated[i], i, c.(status := Active));
    }
  }

  lemma OverlapInbox(w: World, c: Campaign, generated: map<nat, Item>, a: nat, b: nat)
    requires Sound(w) && a <= b <= 3 && InState(w, c.id, Draft) && ItemsOf(w, c.id) == map[]
    requires generated == map[] || (a == 0 && b < 3)
    requires forall i :: i in generated ==> FreshItem(generated[i], i, c.id)
    ensures InboxExactFor(Overlapped(w, c, generated, a, b), c.id)
  {
    OverlappedEnds(w, c, generated, a, b);
    SoundFor(w, c.id);
    assert forall i :: i in generated ==> Waiting(generated[i]);
  }

  lemma OverlapBreaks(w: World, c: Campaign, generated: map<nat, Item>, a: nat, b: nat, i: nat)
    requires Sound(w) && a <= b <= 3 && ItemsOf(w, c.id) == map[] && i in generated && (a > 0 || b == 3)
    ensures !Sound(Overlapped(w, c, generated, a, b))
  {
    OverlappedEnds(w, c, generated, a, b);
    var w' := Overlapped(w, c, generated, a, b);
    var ref := InboxRef(generated[i].reviewer, c.id, i);
    assert ref in w'.inbox;
    assert Has(w', c.id, i) <==> i in ItemsOf(w', c.id);
  }
}
