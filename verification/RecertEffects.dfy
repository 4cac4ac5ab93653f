/**
 What an event of a recertification campaign leaves behind, read off the worlds before and after it: the
 memberships that are gone, the items, the inbox, the campaign and its report.
 */
module RecertEffects {
  import opened Prelude
  import opened Counters
  import opened GroupList
  import opened Recert

  // ── Memberships ───────────────────────────────────────────────────────────

  /** One of the items in `done` is about this membership. */
  predicate Lost(items: map<nat, Item>, done: set<nat>, email: string, group: string) {
    exists i :: i in done && i in items && items[i].subject == email && items[i].group == group
  }

  /** Everybody keeps, in order, the groups that none of the items in `done` is about. */
  ghost predicate TakenAway(
    before: map<string, seq<string>>, after: map<string, seq<string>>, items: map<nat, Item>, done: set<nat>)
  {
    && after.Keys == before.Keys
    && forall e :: e in before ==> LeftWith(before[e], Filter(before[e], g => !Lost(items, done, e, g)), after[e])
  }

  lemma StripAllTakesAway(directory: map<string, seq<string>>, items: map<nat, Item>, done: set<nat>)
    ensures TakenAway(directory, StripAll(directory, items, done), items, done)
  {
    forall e | e in directory
      ensures LeftWith(directory[e], Filter(directory[e], g => !Lost(items, done, e, g)),
                       StripAll(directory, items, done)[e])
    {
      var kept := g => !Lost(items, done, e, g);
      forall g ensures kept(g) <==> g !in Losses(items, done, e) {
      }
      StrippedLeavesRest(directory[e], Losses(items, done, e), kept);
    }
  }

  /**
   A completed revoke: its subject no longer holds the item's group and keeps the other groups in order, or the
   default group if there are none; nobody else's list changes.
   */
  lemma RevokeTakesMembership(w: World, cid: nat, iid: nat, actor: string, comment: Option<string>)
    requires Sound(w) && Enabled(w, Decide(cid, iid, Revoked, actor, comment))
    ensures var item := w.items[cid][iid];
            var before, after := w.directory, Next(w, Decide(cid, iid, Revoked, actor, comment)).directory;
            && after.Keys == before.Keys && item.subject in before
            && item.group !in after[item.subject]
            && LeftWith(before[item.subject], Filter(before[item.subject], g => g != item.group), after[item.subject])
            && forall e :: e in before && e != item.subject ==> after[e] == before[e]
  {
    ItemsSpareDefault(w, cid);
    OneTaken(w.directory, w.items[cid], iid);
  }

  lemma OneTaken(directory: map<string, seq<string>>, items: map<nat, Item>, i: nat)
    requires i in items && items[i].subject in directory && items[i].group != BASE_GROUP
    ensures var item, after := items[i], StripAll(directory, items, {i});
            && item.group !in after[item.subject]
            && LeftWith(directory[item.subject], Filter(directory[item.subject], g => g != item.group),
                        after[item.subject])
            && forall e :: e in directory && e != item.subject ==> after[e] == directory[e]
  {
    var item := items[i];
    forall e | e in directory ensures Losses(items, {i}, e) == if e == item.subject then {item.group} else {} {
    }
    StrippedLeavesRest(directory[item.subject], {item.group}, g => g != item.group);
  }

  /** Approving takes nothing away. */
  lemma ApprovalKeepsMemberships(w: World, cid: nat, iid: nat, actor: string, comment: Option<string>)
    requires Enabled(w, Decide(cid, iid, Approved, actor, comment))
    ensures Next(w, Decide(cid, iid, Approved, actor, comment)).directory == w.directory
  {
  }

  /**
   A completed close under `revoke`: no subject of an item that was pending holds its group any more, and
   everybody keeps the rest in order. Under `flag` nobody loses anything.
   */
  lemma CloseTakesMemberships(w: World, cid: nat)
    requires Sound(w) && Enabled(w, Close(cid))
    ensures var before, after, items := w.directory, Next(w, Close(cid)).directory, ItemsOf(w, cid);
            var pending := set i | i in items && items[i].decision == Pending;
            if w.campaigns[cid].onExpiry == Flag then after == before
            else
              && TakenAway(before, after, items, pending)
              && NoneHeld(items, pending, after)
  {
    var items := ItemsOf(w, cid);
    if w.campaigns[cid].onExpiry == Revoke {
      ItemsSpareDefault(w, cid);
      AllTaken(w.directory, items, PendingIn(items));
    }
  }

  /** No subject of the items in `done` holds the group of its item. */
  predicate NoneHeld(items: map<nat, Item>, done: set<nat>, directory: map<string, seq<string>>) {
    forall i :: i in done ==>
      && i in items && items[i].subject in directory && items[i].group !in directory[items[i].subject]
  }

  /** The default group is never among the groups of the items. */
  lemma AllTaken(directory: map<string, seq<string>>, items: map<nat, Item>, done: set<nat>)
    requires forall i :: i in items ==> items[i].group != BASE_GROUP
    requires forall i :: i in done ==> i in items && items[i].subject in directory
    ensures TakenAway(directory, StripAll(directory, items, done), items, done)
    ensures NoneHeld(items, done, StripAll(directory, items, done))
  {
    StripAllTakesAway(directory, items, done);
    forall i | i in done ensures items[i].group !in StripAll(directory, items, done)[items[i].subject] {
      assert Lost(items, done, items[i].subject, items[i].group);
    }
  }

  /** A close that was cut short took away exactly what the directory was asked for. */
  lemma CutShortTakesMemberships(w: World, cid: nat, done: set<nat>, asked: set<nat>)
    requires Sound(w) && Enabled(w, CloseCutShort(cid, done, asked))
    ensures var before, after := w.directory, Next(w, CloseCutShort(cid, done, asked)).directory;
            var items := ItemsOf(w, cid);
            if w.campaigns[cid].onExpiry == Flag then after == before
            else
              && TakenAway(before, after, items, asked)
              && NoneHeld(items, asked, after)
  {
    if w.campaigns[cid].onExpiry == Revoke {
      ItemsSpareDefault(w, cid);
      AllTaken(w.directory, ItemsOf(w, cid), asked);
    }
  }

  /** A revoke whose answer was lost took away exactly the one membership. */
  lemma UnansweredTakesMembership(w: World, cid: nat, iid: nat, actor: string)
    requires Sound(w) && Enabled(w, RevokeUnanswered(cid, iid, actor))
    ensures var item, before, after :=
              w.items[cid][iid], w.directory, Next(w, RevokeUnanswered(cid, iid, actor)).directory;
            && after.Keys == before.Keys && item.subject in before && item.group !in after[item.subject]
            && LeftWith(before[item.subject], Filter(before[item.subject], g => g != item.group), after[item.subject])
            && forall e :: e in before && e != item.subject ==> after[e] == before[e]
  {
    ItemsSpareDefault(w, cid);
    OneTaken(w.directory, w.items[cid], iid);
  }

  // ── Items, inbox and campaign ─────────────────────────────────────────────

  /** The two describe the same assignment. */
  predicate SameAssignment(a: Item, b: Item) {
    && a.id == b.id && a.campaign == b.campaign && a.subject == b.subject && a.group == b.group
    && a.reviewer == b.reviewer && a.selfReview == b.selfReview
  }

  /** Only campaign `cid` changed, apart from memberships. */
  ghost predicate OnlyHere(w: World, w': World, cid: nat) {
    && w'.campaigns.Keys == w.campaigns.Keys && w'.nextId == w.nextId
    && (forall d :: d in w.campaigns && d != cid ==> w'.campaigns[d] == w.campaigns[d])
    && (forall d :: d != cid ==> ItemsOf(w', d) == ItemsOf(w, d))
    && (forall d :: d != cid ==> (d in w'.reports <==> d in w.reports))
    && (forall d :: d in w.reports && d != cid ==> w'.reports[d] == w.reports[d])
  }

  /** The campaign is over: nothing but its status changed, and its items are frozen in the report. */
  ghost predicate Over(w: World, w': World, cid: nat) {
    && cid in w.campaigns && cid in w'.campaigns
    && w'.campaigns[cid] == w.campaigns[cid].(status := Completed)
    && cid in w'.reports && w'.reports[cid].items == ItemsOf(w', cid)
  }

  /** Nothing but item `iid` is left to decide. */
  predicate OnlyOneLeft(items: map<nat, Item>, iid: nat) {
    forall i :: i in items && i != iid ==> items[i].decision != Pending
  }

  /**
   What a decision makes of the items: the decided one carries it, under the decider's name; the approved
   memberships are marked as kept exactly when nothing else is pending; nothing else changes.
   */
  ghost predicate DecidedAs(items: map<nat, Item>, after: map<nat, Item>, iid: nat, decision: Decision, actor: string,
                            comment: Option<string>)
  {
    var last := OnlyOneLeft(items, iid);
    && after.Keys == items.Keys && iid in items
    && Carries(items[iid], after[iid], decision, actor, comment, last)
    && forall i :: i in items && i != iid ==>
         SettledAs(items[i], after[i], if last && items[i].decision == Approved then Some(Kept) else items[i].outcome)
  }

  lemma DecisionIsRecorded(w: World, cid: nat, iid: nat, decision: Decision, actor: string, comment: Option<string>)
    requires Sound(w) && Enabled(w, Decide(cid, iid, decision, actor, comment))
    ensures DecidedAs(w.items[cid], ItemsOf(Next(w, Decide(cid, iid, decision, actor, comment)), cid), iid,
                      decision, actor, comment)
  {
    assert CampaignOk(w.campaigns[cid], cid, ItemsOf(w, cid), w.reports);
    DecidedMarks(w, cid, iid, decision, actor, comment);
    MarkedItems(w.campaigns[cid], w.items[cid], iid, decision, actor, comment);
  }

  /**
   The decided item leaves its reviewer's inbox. The campaign completes, and its report freezes the items, exactly
   when nothing else is pending.
   */
  lemma LastDecisionCompletes(w: World, cid: nat, iid: nat, decision: Decision, actor: string, comment: Option<string>)
    requires Sound(w) && Enabled(w, Decide(cid, iid, decision, actor, comment))
    ensures var w' := Next(w, Decide(cid, iid, decision, actor, comment));
            && OnlyHere(w, w', cid)
            && w'.inbox == w.inbox - {InboxRef(w.items[cid][iid].reviewer, cid, iid)}
            && if OnlyOneLeft(w.items[cid], iid) then Over(w, w', cid)
               else w'.campaigns == w.campaigns && w'.reports == w.reports
  {
    DecidedOnlyHere(w, cid, iid, decision, actor, comment);
    DecidedEnds(w, cid, iid, decision, actor, comment);
  }

  lemma DecidedOnlyHere(w: World, cid: nat, iid: nat, decision: Decision, actor: string, comment: Option<string>)
    requires Enabled(w, Decide(cid, iid, decision, actor, comment))
    ensures OnlyHere(w, Decided(w, cid, iid, decision, actor, comment), cid)
  {
    var w1 := Recorded(w, cid, iid, decision, actor, comment);
    RecordedFocus(w, cid, iid, decision, actor, comment);
    FinalizedFocus(w, w1, cid);
    OnlyHereByFocus(w, w1, cid);
    OnlyHereByFocus(w, Finalized(w1, cid), cid);
  }

  lemma DecidedEnds(w: World, cid: nat, iid: nat, decision: Decision, actor: string, comment: Option<string>)
    requires Sound(w) && Enabled(w, Decide(cid, iid, decision, actor, comment))
    ensures var w' := Decided(w, cid, iid, decision, actor, comment);
            && w'.inbox == w.inbox - {InboxRef(w.items[cid][iid].reviewer, cid, iid)}
            && if OnlyOneLeft(w.items[cid], iid) then Over(w, w', cid)
               else w'.campaigns == w.campaigns && w'.reports == w.reports
  {
    NothingElsePending(w, cid, iid, decision, actor, comment);
    assert CampaignOk(w.campaigns[cid], cid, ItemsOf(w, cid), w.reports);
    FinalizedEnds(Recorded(w, cid, iid, decision, actor, comment), cid);
  }

  /** The campaign record and the report of a campaign that ends. */
  lemma FinalizedEnds(w: World, cid: nat)
    requires cid in w.campaigns && cid !in w.reports
    ensures Over(w, Finalized(w, cid), cid)
    ensures ItemsOf(Finalized(w, cid), cid) == KeepApproved(ItemsOf(w, cid))
    ensures Finalized(w, cid).inbox == w.inbox
  {
    assert KeepApproved(map[]) == map[];
  }

  lemma DecidedMarks(w: World, cid: nat, iid: nat, decision: Decision, actor: string, comment: Option<string>)
    requires Sound(w) && Enabled(w, Decide(cid, iid, decision, actor, comment))
    ensures var marked := SetItem(w.items[cid], DecidedItem(w.items[cid][iid], decision, actor, comment), iid);
            ItemsOf(Decided(w, cid, iid, decision, actor, comment), cid)
            == if OnlyOneLeft(w.items[cid], iid) then KeepApproved(marked) else marked
  {
    NothingElsePending(w, cid, iid, decision, actor, comment);
    assert CampaignOk(w.campaigns[cid], cid, ItemsOf(w, cid), w.reports);
    FinalizedEnds(Recorded(w, cid, iid, decision, actor, comment), cid);
  }

  lemma MarkedItems(c: Campaign, items: map<nat, Item>, iid: nat, decision: Decision, actor: string,
                    comment: Option<string>)
    requires c.status == Active && (forall i :: i in items ==> ItemOk(items[i], i, c))
    requires iid in items && items[iid].decision == Pending && decision != Pending
    ensures var marked := SetItem(items, DecidedItem(items[iid], decision, actor, comment), iid);
            DecidedAs(items, if OnlyOneLeft(items, iid) then KeepApproved(marked) else marked, iid, decision, actor,
                      comment)
  {
    var marked := SetItem(items, DecidedItem(items[iid], decision, actor, comment), iid);
    var after := if OnlyOneLeft(items, iid) then KeepApproved(marked) else marked;
    assert after.Keys == items.Keys;
    assert Carries(items[iid], after[iid], decision, actor, comment, OnlyOneLeft(items, iid)) by {
      assert ItemOk(items[iid], iid, c);
    }
    forall i | i in items && i != iid
      ensures SettledAs(items[i], after[i], if OnlyOneLeft(items, iid) && items[i].decision == Approved then Some(Kept)
                                            else items[i].outcome)
    {
      assert marked[i] == items[i] && ItemOk(items[i], i, c);
    }
  }

  lemma NothingElsePending(w: World, cid: nat, iid: nat, decision: Decision, actor: string, comment: Option<string>)
    requires Enabled(w, Decide(cid, iid, decision, actor, comment))
    ensures PendingIn(ItemsOf(Recorded(w, cid, iid, decision, actor, comment), cid)) == {}
            <==> OnlyOneLeft(w.items[cid], iid)
  {
    var items, after := w.items[cid], ItemsOf(Recorded(w, cid, iid, decision, actor, comment), cid);
    if i :| i in items && i != iid && items[i].decision == Pending {
      assert i in PendingIn(after);
    } else {
      assert forall i :: i in after ==> after[i].decision != Pending;
    }
  }

  lemma OnlyHereByFocus(w: World, w': World, cid: nat)
    requires OnlyCampaign(w, w', cid)
    ensures OnlyHere(w, w', cid)
  {
    forall d | d != cid
      ensures ItemsOf(w', d) == ItemsOf(w, d) && (d in w'.reports <==> d in w.reports)
      ensures d in w.reports ==> w'.reports[d] == w.reports[d]
    {
      SameButOne(w.items, w'.items, cid, d);
      SameButOne(w.reports, w'.reports, cid, d);
    }
  }

  /** The item after its decision; `last` if the campaign completed with it. */
  predicate Carries(
    before: Item, after: Item, decision: Decision, actor: string, comment: Option<string>, last: bool)
  {
    && SameAssignment(before, after)
    && after.decision == decision && after.decidedBy == Some(actor)
    && after.comment == (if comment.Some? then comment else before.comment)
    && after.outcome == if decision == Revoked then Some(RevokeApplied) else if last then Some(Kept) else None
  }

  /** Nothing about the item changed but its outcome. */
  predicate SettledAs(before: Item, after: Item, outcome: Option<Outcome>) {
    && SameAssignment(before, after) && after.decision == before.decision && after.decidedBy == before.decidedBy
    && after.comment == before.comment && after.outcome == outcome
  }

  function ClosedOutcome(decision: Decision, onExpiry: OnExpiry): Outcome {
    match decision
    case Pending => if onExpiry == Revoke then AutoRevoked else Flagged
    case Approved => Kept
    case Revoked => RevokeApplied
  }

  /**
   A completed close: what was pending is marked with the expiry consequence, what was approved as kept; no
   reference to the campaign is left in any inbox.
   */
  lemma CloseSettlesItems(w: World, cid: nat)
    requires Sound(w) && Enabled(w, Close(cid))
    ensures var w', items, onExpiry := Next(w, Close(cid)), ItemsOf(w, cid), w.campaigns[cid].onExpiry;
            && OnlyHere(w, w', cid) && Over(w, w', cid)
            && ItemsOf(w', cid).Keys == items.Keys
            && (forall i :: i in items ==>
                 SettledAs(items[i], ItemsOf(w', cid)[i], Some(ClosedOutcome(items[i].decision, onExpiry))))
            && forall ref: InboxRef :: ref in w'.inbox <==> ref in w.inbox && ref.campaign != cid
  {
    var all := PendingIn(ItemsOf(w, cid));
    var w1 := Expired(w, cid, all);
    ExpiredKeepsSound(w, cid, all);
    ExpiredFocus(w, cid, all);
    FinalizedFocus(w, w1, cid);
    OnlyHereByFocus(w, Finalized(w1, cid), cid);
    ExpiredInbox(w, cid, all);
    assert CampaignOk(w.campaigns[cid], cid, ItemsOf(w, cid), w.reports);
    FinalizedEnds(w1, cid);
    ClosedItems(w.campaigns[cid], ItemsOf(w, cid));
    NoRefsLeft(w, cid);
  }

  /** Only pending items have references. */
  lemma NoRefsLeft(w: World, cid: nat)
    requires Sound(w)
    ensures forall ref: InboxRef :: ref in w.inbox && ref.campaign == cid ==> ref.item in PendingIn(ItemsOf(w, cid))
  {
    SoundFor(w, cid);
    forall ref: InboxRef | ref in w.inbox && ref.campaign == cid ensures ref.item in PendingIn(ItemsOf(w, cid)) {
      assert ref == InboxRef(ref.reviewer, cid, ref.item);
    }
  }

  /** Of one campaign, exactly the references to the items in `done` go. */
  lemma ExpiredInbox(w: World, cid: nat, done: set<nat>)
    requires Sound(w) && InState(w, cid, Active)
    ensures forall ref: InboxRef :: ref in Expired(w, cid, done).inbox <==>
              ref in w.inbox && (ref.campaign != cid || ref.item !in done)
  {
    SoundFor(w, cid);
    forall ref: InboxRef
      ensures ref in Expired(w, cid, done).inbox <==> ref in w.inbox && (ref.campaign != cid || ref.item !in done)
    {
      assert ref == InboxRef(ref.reviewer, ref.campaign, ref.item);
    }
  }

  lemma ClosedItems(c: Campaign, items: map<nat, Item>)
    requires c.status == Active && forall i :: i in items ==> ItemOk(items[i], i, c)
    ensures var after := KeepApproved(ExpireItems(items, PendingIn(items), c.onExpiry));
            && after.Keys == items.Keys
            && forall i :: i in items ==>
                 SettledAs(items[i], after[i], Some(ClosedOutcome(items[i].decision, c.onExpiry)))
  {
    assert forall i :: i in items ==> ItemFits(items[i], Active, c.onExpiry);
  }

  /** A close that was cut short: the answered items have their consequence, the campaign hangs, nothing is reported. */
  lemma CutShortSettlesItems(w: World, cid: nat, done: set<nat>, asked: set<nat>)
    requires Sound(w) && Enabled(w, CloseCutShort(cid, done, asked))
    ensures var w', items, onExpiry :=
              Next(w, CloseCutShort(cid, done, asked)), ItemsOf(w, cid), w.campaigns[cid].onExpiry;
            && OnlyHere(w, w', cid) && w'.reports == w.reports
            && w'.campaigns[cid] == w.campaigns[cid].(status := Closing)
            && ItemsOf(w', cid).Keys == items.Keys
            && (forall i :: i in items ==>
                 SettledAs(items[i], ItemsOf(w', cid)[i],
                           if i !in done then items[i].outcome
                           else Some(if onExpiry == Revoke then AutoRevoked else Flagged)))
            && forall ref: InboxRef :: ref in w'.inbox <==> ref in w.inbox && (ref.campaign != cid || ref.item !in done)
  {
    ExpiredFocus(w, cid, done);
    OnlyHereByFocus(w, Expired(w, cid, done), cid);
    ExpiredInbox(w, cid, done);
    ExpiredItemsOk(w, cid, done);
    CutShortFields(w, cid, done, asked);
    MarkedExpired(ItemsOf(w, cid), done, w.campaigns[cid].onExpiry);
  }

  /** What was asked for and not answered only shows in the directory. */
  lemma CutShortFields(w: World, cid: nat, done: set<nat>, asked: set<nat>)
    requires cid in w.campaigns
    ensures var w1, w' := Expired(w, cid, done), CutShort(w, cid, done, asked);
            && w'.campaigns == w1.campaigns && w'.items == w1.items && w'.inbox == w1.inbox && w'.reports == w1.reports
            && w'.nextId == w1.nextId && forall d :: ItemsOf(w', d) == ItemsOf(w1, d)
  {
  }

  lemma MarkedExpired(items: map<nat, Item>, done: set<nat>, onExpiry: OnExpiry)
    ensures var after := ExpireItems(items, done, onExpiry);
            && after.Keys == items.Keys
            && forall i :: i in items ==>
                 SettledAs(items[i], after[i], if i !in done then items[i].outcome
                                               else Some(if onExpiry == Revoke then AutoRevoked else Flagged))
  {
  }

  /** An activation opens the draft with exactly the items made, each in its reviewer's inbox. */
  lemma ActivationOpens(w: World, cid: nat, generated: map<nat, Item>)
    requires Sound(w) && Enabled(w, Activate(cid, generated))
    ensures var w' := Next(w, Activate(cid, generated));
            && OnlyHere(w, w', cid) && w'.reports == w.reports && w'.directory == w.directory
            && w'.campaigns[cid] == w.campaigns[cid].(status := Active)
            && ItemsOf(w', cid) == generated
            && forall ref: InboxRef :: ref in w'.inbox <==>
                 || ref in w.inbox
                 || (ref.campaign == cid && ref.item in generated && generated[ref.item].reviewer == ref.reviewer)
  {
    ActivatedItems(w, cid, generated);
    OnlyHereByFocus(w, Activated(w, cid, generated), cid);
  }

  /** A new draft stands beside what was there. */
  lemma DraftCreated(w: World, c: Campaign)
    requires Sound(w) && Enabled(w, Create(c))
    ensures var w' := Next(w, Create(c));
            && c.id in w'.campaigns && w'.campaigns[c.id] == c && ItemsOf(w', c.id) == map[]
            && (forall d :: d in w.campaigns ==> d in w'.campaigns && w'.campaigns[d] == w.campaigns[d])
            && w'.items == w.items && w'.inbox == w.inbox && w'.reports == w.reports && w'.directory == w.directory
            && w'.nextId == w.nextId + 1
  {
    NothingYet(w, c.id);
  }

  /** A deleted campaign leaves no item; every other campaign stands as it was. */
  lemma CampaignDeleted(w: World, cid: nat)
    requires Enabled(w, Delete(cid))
    ensures var w' := Next(w, Delete(cid));
            && cid !in w'.campaigns && ItemsOf(w', cid) == map[]
            && (forall d :: d in w.campaigns && d != cid ==> d in w'.campaigns && w'.campaigns[d] == w.campaigns[d])
            && (forall d :: d != cid ==> ItemsOf(w', d) == ItemsOf(w, d))
            && w'.reports == w.reports && w'.directory == w.directory
  {
  }

  /** Nor does it leave a reference in any inbox. */
  lemma DeletedLeavesNoRef(w: World, cid: nat)
    requires Sound(w) && Enabled(w, Delete(cid))
    ensures forall ref: InboxRef :: ref in Next(w, Delete(cid)).inbox <==> ref in w.inbox && ref.campaign != cid
  {
    AllRefs(w, cid);
  }

  /** Every reference to a campaign is a reference of one of its items. */
  lemma AllRefs(w: World, cid: nat)
    requires Sound(w)
    ensures forall ref: InboxRef :: ref in w.inbox - RefsOf(ItemsOf(w, cid), cid, ItemsOf(w, cid).Keys) <==>
              ref in w.inbox && ref.campaign != cid
  {
    SoundFor(w, cid);
    forall ref: InboxRef | ref in w.inbox && ref.campaign == cid
      ensures ref in RefsOf(ItemsOf(w, cid), cid, ItemsOf(w, cid).Keys)
    {
      assert ref == InboxRef(ref.reviewer, cid, ref.item);
    }
  }

  // ── The report ────────────────────────────────────────────────────────────

  function Having(items: map<nat, Item>, decision: Decision): set<nat> {
    set i | i in items && items[i].decision == decision
  }

  function ReviewedBy(items: map<nat, Item>, who: string): set<nat> {
    set i | i in items && items[i].reviewer == who
  }

  /** Every number of a completion report counts the items it names. */
  lemma ReportCounts(directory: map<string, seq<string>>, events: seq<Event>, cid: nat)
    requires Legal(Start(directory), events)
    requires InState(Exec(Start(directory), events), cid, Completed)
    ensures var w := Exec(Start(directory), events);
            && cid in w.reports
            && var r, items := w.reports[cid], ItemsOf(w, cid);
            && r.onExpiry == w.campaigns[cid].onExpiry
            && r.approved == |Having(items, Approved)| && r.revoked == |Having(items, Revoked)|
            && (if r.onExpiry == Revoke then r.autoRevoked else r.flagged) == |Having(items, Pending)|
            && (forall who :: who in r.totalByReviewer <==> ReviewedBy(items, who) != {})
            && r.decidedByReviewer.Keys == r.totalByReviewer.Keys
            && forall who :: who in r.totalByReviewer ==>
                 && r.totalByReviewer[who] == |ReviewedBy(items, who)|
                 && r.decidedByReviewer[who] == |ReviewedBy(items, who) - Having(items, Pending)|
  {
    RunSound(directory, events);
    var w := Exec(Start(directory), events);
    var items, c := ItemsOf(w, cid), w.campaigns[cid];
    assert CampaignOk(c, cid, items, w.reports);
    assert forall i :: i in items ==> ItemOk(items[i], i, c);
    CompletedSets(c, items);
    ReviewerSets(c, items);
  }

  lemma CompletedSets(c: Campaign, items: map<nat, Item>)
    requires c.status == Completed && forall i :: i in items ==> ItemOk(items[i], i, c)
    ensures CountIf(items, IsApproved) == |Having(items, Approved)|
    ensures CountIf(items, IsRevoked) == |Having(items, Revoked)|
    ensures CountIf(items, if c.onExpiry == Revoke then IsAutoRevoked else IsFlagged) == |Having(items, Pending)|
  {
    assert forall i :: i in items ==> ItemFits(items[i], c.status, c.onExpiry);
    CountIfIs(items, IsApproved, Having(items, Approved));
    CountIfIs(items, IsRevoked, Having(items, Revoked));
    CountIfIs(items, if c.onExpiry == Revoke then IsAutoRevoked else IsFlagged, Having(items, Pending));
  }

  lemma CountIfIs<K, T>(m: map<K, T>, p: T -> bool, s: set<K>)
    requires forall k :: k in s <==> k in m && p(m[k])
    ensures CountIf(m, p) == |s|
  {
    assert s == set k | k in m && p(m[k]);
  }

  lemma CountByIs<K, T>(m: map<K, T>, key: T -> string, p: T -> bool, r: string, s: set<K>)
    requires forall k :: k in s <==> k in m && key(m[k]) == r && p(m[k])
    ensures CountBy(m, key, p, r) == |s|
  {
    assert s == set k | k in m && key(m[k]) == r && p(m[k]);
  }

  /** Per reviewer: how many items they have, and how many of them are decided. */
  lemma ReviewerSets(c: Campaign, items: map<nat, Item>)
    ensures var r := ReportOf(c, items);
            && (forall who :: who in r.totalByReviewer <==> ReviewedBy(items, who) != {})
            && r.decidedByReviewer.Keys == r.totalByReviewer.Keys
            && forall who :: who in r.totalByReviewer ==>
                 && r.totalByReviewer[who] == |ReviewedBy(items, who)|
                 && r.decidedByReviewer[who] == |ReviewedBy(items, who) - Having(items, Pending)|
  {
    forall who
      ensures CountBy(items, ReviewerOf, IsItem, who) == |ReviewedBy(items, who)|
      ensures CountBy(items, ReviewerOf, IsDecided, who) == |ReviewedBy(items, who) - Having(items, Pending)|
      ensures who in KeysOf(items, ReviewerOf) <==> ReviewedBy(items, who) != {}
    {
      CountByIs(items, ReviewerOf, IsItem, who, ReviewedBy(items, who));
      CountByIs(items, ReviewerOf, IsDecided, who, ReviewedBy(items, who) - Having(items, Pending));
      if i :| i in items && items[i].reviewer == who {
        assert i in ReviewedBy(items, who);
      }
    }
  }
}
