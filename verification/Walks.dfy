/**
 The walks behind the access review and the directory counts. A walk reads some sources live, and the
 identities through a short-lived cache of their own that an earlier scan filled; a scan reads the
 identity pages one at a time while writers go on, and refills that cache when it ends, whatever
 happened meanwhile. Every source carries a version number.
 */
module Walks {
  import opened Prelude
  import opened Counters

  datatype Source = Live(name: string) | Page(number: nat)

  /** The version of each source read so far. */
  type Reads = map<Source, nat>

  /** One run of a computation; `settled` once it returned or threw, until the single-flight slot is cleared. */
  datatype Walk = Walk(startEpoch: nat, seen: Reads, settled: bool)

  /** One pass over the identity pages, for the walk that started it or for another caller. */
  datatype Scan = Scan(owner: Option<nat>, seen: Reads)

  /**
   `data`: the current version of every source; `floor`: what it was at the last invalidation;
   `bindings`: the identity cache, while it has not expired.
   */
  datatype Core = Core(
    epoch: nat, data: Reads, floor: Reads, walks: map<nat, Walk>, inflight: Option<nat>, nextId: nat,
    bindings: Option<Reads>, scans: map<nat, Scan>, nextScan: nat)

  function Start(data: Reads): Core {
    Core(0, data, data, map[], None, 0, None, map[], 0)
  }

  ghost predicate AtLeast(a: Reads, floor: Reads) {
    forall k :: k in a ==> a[k] >= Get(floor, k)
  }

  ghost predicate AtMost(a: Reads, data: Reads) {
    forall k :: k in a ==> a[k] <= Get(data, k)
  }

  predicate Running(c: Core, id: nat) {
    id in c.walks && !c.walks[id].settled
  }

  /** Its own scan has not ended yet. */
  predicate Scanning(c: Core, id: nat) {
    exists sid :: sid in c.scans && c.scans[sid].owner == Some(id)
  }

  // ── Steps ─────────────────────────────────────────────────────────────────

  /**
   `Invalidate(nulls)` drops the identity cache too if `nulls`; `Read(hit)` is served without a refresh
   if `hit`; `DropBindings` is the identity cache expiring, or dropped by somebody else.
   */
  datatype Event =
    | Mutate(source: Source)
    | Invalidate(nulls: bool)
    | Read(hit: bool)
    | Look(id: nat, name: string)
    | Publish(id: nat)
    | Fail(id: nat)
    | Clear(id: nat)
    | ScanStart
    | ScanPage(sid: nat, page: nat)
    | ScanEnd(sid: nat)
    | ScanFail(sid: nat)
    | DropBindings

  predicate Enabled(c: Core, e: Event) {
    match e
    case Look(id, _) => Running(c, id)
    case Publish(id) => Running(c, id) && !Scanning(c, id)
    case Fail(id) => Running(c, id)
    case Clear(id) => id in c.walks && c.walks[id].settled
    case ScanStart => c.bindings.None?
    case ScanPage(sid, _) => sid in c.scans
    case ScanEnd(sid) => sid in c.scans
    case ScanFail(sid) => sid in c.scans
    case _ => true
  }

  function Next(c: Core, e: Event): Core
    requires Enabled(c, e)
  {
    match e
    case Mutate(source) => c.(data := Bump(c.data, source))
    case Invalidate(nulls) => Invalidated(c, nulls)
    case Read(hit) => if hit then c else Refreshed(c)
    case Look(id, name) => Looked(c, id, Live(name))
    case Publish(id) => SettledAs(c, id)
    case Fail(id) => SettledAs(c, id)
    case Clear(id) => Cleared(c, id)
    case ScanStart => Scanned(c, None)
    case ScanPage(sid, page) => PageRead(c, sid, Page(page))
    case ScanEnd(sid) => ScanEnded(c, sid)
    case ScanFail(sid) => ScanFailed(c, sid)
    case DropBindings => c.(bindings := None)
  }

  function Invalidated(c: Core, nulls: bool): Core {
    c.(epoch := c.epoch + 1, floor := c.data, bindings := if nulls then None else c.bindings)
  }

  function Scanned(c: Core, owner: Option<nat>): Core {
    c.(scans := c.scans[c.nextScan := Scan(owner, map[])], nextScan := c.nextScan + 1)
  }

  /** `refresh`: join the walk in the slot, or start one, which takes the cached identities or scans for itself. */
  function Refreshed(c: Core): Core {
    if c.inflight.Some? then c
    else
      var started := c.(
        walks := c.walks[c.nextId := Walk(c.epoch, c.bindings.GetOr(map[]), false)],
        inflight := Some(c.nextId), nextId := c.nextId + 1);
      if c.bindings.Some? then started else Scanned(started, Some(c.nextId))
  }

  function Looked(c: Core, id: nat, source: Source): Core
    requires Running(c, id)
  {
    var walk := c.walks[id];
    c.(walks := c.walks[id := walk.(seen := walk.seen[source := Get(c.data, source)])])
  }

  function PageRead(c: Core, sid: nat, source: Source): Core
    requires sid in c.scans
  {
    var scan := c.scans[sid];
    c.(scans := c.scans[sid := scan.(seen := scan.seen[source := Get(c.data, source)])])
  }

  /** A scan that ends fills the identity cache, and hands its pages to the walk that waits for them. */
  function ScanEnded(c: Core, sid: nat): Core
    requires sid in c.scans
  {
    var scan := c.scans[sid];
    c.(bindings := Some(scan.seen), scans := c.scans - {sid},
       walks := if scan.owner.Some? && Running(c, scan.owner.value)
                then Handed(c.walks, scan.owner.value, scan.seen) else c.walks)
  }

  function Handed(walks: map<nat, Walk>, id: nat, pages: Reads): map<nat, Walk>
    requires id in walks
  {
    walks[id := walks[id].(seen := walks[id].seen + pages)]
  }

  function ScanFailed(c: Core, sid: nat): Core
    requires sid in c.scans
  {
    var owner := c.scans[sid].owner;
    var dropped := c.(scans := c.scans - {sid});
    if owner.Some? && Running(c, owner.value) then SettledAs(dropped, owner.value) else dropped
  }

  function SettledAs(c: Core, id: nat): Core
    requires Running(c, id)
  {
    c.(walks := c.walks[id := c.walks[id].(settled := true)])
  }

  /** The slot is emptied if it still holds this walk. */
  function Cleared(c: Core, id: nat): Core {
    c.(walks := c.walks - {id}, inflight := if c.inflight == Some(id) then None else c.inflight)
  }

  // ── What every step keeps ─────────────────────────────────────────────────

  ghost predicate OnlyPages(a: Reads) {
    forall k :: k in a ==> k.Page?
  }

  ghost predicate OnlyLive(a: Reads) {
    forall k :: k in a ==> k.Live?
  }

  ghost predicate WalksOk(c: Core) {
    && (forall id :: id in c.walks <==> c.inflight == Some(id))
    && (forall id :: id in c.walks ==> id < c.nextId && c.walks[id].startEpoch <= c.epoch)
    && (forall id :: id in c.walks ==> AtMost(c.walks[id].seen, c.data))
  }

  predicate SameOwner(a: Scan, b: Scan) {
    a.owner.Some? && a.owner == b.owner
  }

  ghost predicate ScansOk(c: Core) {
    && (forall sid :: sid in c.scans ==> sid < c.nextScan && OnlyPages(c.scans[sid].seen))
    && (forall sid :: sid in c.scans ==> AtMost(c.scans[sid].seen, c.data))
    && (forall sid :: sid in c.scans && c.scans[sid].owner.Some? ==> c.scans[sid].owner.value < c.nextId)
    && (forall s, t :: s in c.scans && t in c.scans && SameOwner(c.scans[s], c.scans[t]) ==> s == t)
  }

  /** A walk that scans for itself has no page yet. */
  ghost predicate OwnersOk(c: Core) {
    forall sid :: sid in c.scans && c.scans[sid].owner.Some? && Running(c, c.scans[sid].owner.value) ==>
      OnlyLive(c.walks[c.scans[sid].owner.value].seen)
  }

  ghost predicate BindingsOk(c: Core) {
    && AtMost(c.floor, c.data)
    && (c.bindings.Some? ==> OnlyPages(c.bindings.value) && AtMost(c.bindings.value, c.data))
  }

  ghost predicate CoreOk(c: Core) {
    WalksOk(c) && ScansOk(c) && OwnersOk(c) && BindingsOk(c)
  }

  // ── Nothing old left behind ───────────────────────────────────────────────

  /** A walk of this generation that is still at work. */
  predicate Current(c: Core, id: nat) {
    Running(c, id) && c.walks[id].startEpoch == c.epoch
  }

  /** Neither the identity cache, nor a scan, nor a walk of this generation holds anything older than the floor. */
  ghost predicate Clean(c: Core) {
    && (c.bindings.Some? ==> AtLeast(c.bindings.value, c.floor))
    && (forall sid :: sid in c.scans ==> AtLeast(c.scans[sid].seen, c.floor))
    && (forall id :: Current(c, id) ==> AtLeast(c.walks[id].seen, c.floor))
  }

  /** At this moment an invalidation leaves no old identity page where a later walk would find it. */
  ghost predicate PagesCurrent(c: Core, nulls: bool) {
    && (nulls || c.bindings.None? || AtLeast(c.bindings.value, c.data))
    && (forall sid :: sid in c.scans ==> AtLeast(c.scans[sid].seen, c.data))
  }

  // ── One step at a time ────────────────────────────────────────────────────

  lemma RefreshedOk(c: Core)
    requires CoreOk(c)
    ensures CoreOk(Refreshed(c)) && (Clean(c) ==> Clean(Refreshed(c)))
  {
    if c.inflight.None? && c.bindings.None? {
      StartedOk(c);
    }
  }

  lemma StartedOk(c: Core)
    requires CoreOk(c) && c.inflight.None? && c.bindings.None?
    ensures CoreOk(Refreshed(c)) && (Clean(c) ==> Clean(Refreshed(c)))
  {
    var d := c.(walks := c.walks[c.nextId := Walk(c.epoch, map[], false)],
                inflight := Some(c.nextId), nextId := c.nextId + 1);
    SlotTakenOk(c, d);
    OwnScanOk(d, c.nextId);
  }

  lemma SlotTakenOk(c: Core, d: Core)
    requires CoreOk(c) && c.inflight.None?
    requires d == c.(walks := c.walks[c.nextId := Walk(c.epoch, map[], false)],
                     inflight := Some(c.nextId), nextId := c.nextId + 1)
    ensures CoreOk(d) && !Scanning(d, c.nextId) && (Clean(c) ==> Clean(d))
  {
    assert c.walks == map[];
  }

  lemma OwnScanOk(c: Core, id: nat)
    requires CoreOk(c) && !Scanning(c, id) && id in c.walks && c.walks[id].seen == map[]
    ensures CoreOk(Scanned(c, Some(id))) && (Clean(c) ==> Clean(Scanned(c, Some(id))))
  {
    var d := Scanned(c, Some(id));
    assert d.scans[c.nextScan] == Scan(Some(id), map[]);
    assert forall s :: s in c.scans ==> d.scans[s] == c.scans[s] && d.scans[s].owner != Some(id);
  }

  lemma LookedOk(c: Core, id: nat, source: Source)
    requires CoreOk(c) && Running(c, id) && source.Live?
    ensures CoreOk(Looked(c, id, source)) && (Clean(c) ==> Clean(Looked(c, id, source)))
  {
  }

  lemma MutatedOk(c: Core, source: Source)
    requires CoreOk(c)
    ensures CoreOk(Next(c, Mutate(source)))
  {
    MutatedGrows(c, source);
  }

  lemma MutatedGrows(c: Core, source: Source)
    ensures forall r :: AtMost(r, c.data) ==> AtMost(r, Bump(c.data, source))
  {
  }

  lemma SettledOk(c: Core, id: nat)
    requires CoreOk(c) && Running(c, id)
    ensures CoreOk(SettledAs(c, id)) && (Clean(c) ==> Clean(SettledAs(c, id)))
  {
  }

  lemma ClearedOk(c: Core, id: nat)
    requires CoreOk(c) && id in c.walks
    ensures CoreOk(Cleared(c, id)) && (Clean(c) ==> Clean(Cleared(c, id)))
  {
  }

  lemma ScannedOk(c: Core, owner: Option<nat>)
    requires CoreOk(c) && owner.None?
    ensures CoreOk(Scanned(c, owner)) && (Clean(c) ==> Clean(Scanned(c, owner)))
  {
  }

  lemma PageReadOk(c: Core, sid: nat, source: Source)
    requires CoreOk(c) && sid in c.scans && source.Page?
    ensures CoreOk(PageRead(c, sid, source)) && (Clean(c) ==> Clean(PageRead(c, sid, source)))
  {
    var scan := c.scans[sid];
    var read := scan.seen[source := Get(c.data, source)];
    assert OnlyPages(read) && AtMost(read, c.data);
    OneScanChanged(c, PageRead(c, sid, source), sid, read);
  }

  lemma OneScanChanged(c: Core, d: Core, sid: nat, read: Reads)
    requires CoreOk(c) && sid in c.scans && OnlyPages(read) && AtMost(read, c.data)
    requires d == c.(scans := c.scans[sid := c.scans[sid].(seen := read)])
    ensures CoreOk(d)
    ensures Clean(c) && AtLeast(read, c.floor) ==> Clean(d)
  {
    assert forall s :: s in d.scans ==> d.scans[s].owner == c.scans[s].owner;
    SameScansOk(c, d);
    assert forall id :: Current(d, id) <==> Current(c, id);
  }

  /** Scans with the same owners that hold pages only, none newer than the data. */
  lemma SameScansOk(c: Core, d: Core)
    requires CoreOk(c) && d == c.(scans := d.scans) && d.scans.Keys == c.scans.Keys
    requires forall s :: s in d.scans ==> d.scans[s].owner == c.scans[s].owner
    requires forall s :: s in d.scans ==> OnlyPages(d.scans[s].seen) && AtMost(d.scans[s].seen, d.data)
    ensures CoreOk(d)
  {
    assert forall s, t :: s in d.scans && t in d.scans && SameOwner(d.scans[s], d.scans[t]) ==>
      SameOwner(c.scans[s], c.scans[t]);
  }

  lemma ScanDroppedOk(c: Core, sid: nat)
    requires CoreOk(c) && sid in c.scans
    ensures CoreOk(c.(scans := c.scans - {sid})) && (Clean(c) ==> Clean(c.(scans := c.scans - {sid})))
  {
    var d := c.(scans := c.scans - {sid});
    assert forall s :: s in d.scans ==> s in c.scans && d.scans[s] == c.scans[s];
  }

  lemma HandedOk(c: Core, id: nat, pages: Reads)
    requires CoreOk(c) && Running(c, id) && !Scanning(c, id) && AtMost(pages, c.data)
    ensures CoreOk(c.(walks := Handed(c.walks, id, pages)))
    ensures Clean(c) && AtLeast(pages, c.floor) ==> Clean(c.(walks := Handed(c.walks, id, pages)))
  {
    var d := c.(walks := Handed(c.walks, id, pages));
    assert d.walks[id].seen == c.walks[id].seen + pages;
  }

  lemma ScanEndedOk(c: Core, sid: nat)
    requires CoreOk(c) && sid in c.scans
    ensures CoreOk(ScanEnded(c, sid)) && (Clean(c) ==> Clean(ScanEnded(c, sid)))
  {
    var scan := c.scans[sid];
    var d := c.(scans := c.scans - {sid});
    ScanDroppedOk(c, sid);
    var e := d.(bindings := Some(scan.seen));
    BindingsFilledOk(d, scan.seen);
    assert Clean(c) ==> AtLeast(scan.seen, c.floor);
    if scan.owner.Some? && Running(c, scan.owner.value) {
      NoLongerScanning(c, sid);
      HandedOk(e, scan.owner.value, scan.seen);
    }
  }

  lemma BindingsFilledOk(c: Core, pages: Reads)
    requires CoreOk(c) && OnlyPages(pages) && AtMost(pages, c.data)
    ensures CoreOk(c.(bindings := Some(pages)))
    ensures Clean(c) && AtLeast(pages, c.floor) ==> Clean(c.(bindings := Some(pages)))
  {
  }

  lemma NoLongerScanning(c: Core, sid: nat)
    requires CoreOk(c) && sid in c.scans && c.scans[sid].owner.Some?
    ensures !Scanning(c.(scans := c.scans - {sid}), c.scans[sid].owner.value)
  {
    assert forall s :: s in c.scans && c.scans[s].owner == c.scans[sid].owner ==> SameOwner(c.scans[s], c.scans[sid]);
  }

  lemma ScanFailedOk(c: Core, sid: nat)
    requires CoreOk(c) && sid in c.scans
    ensures CoreOk(ScanFailed(c, sid)) && (Clean(c) ==> Clean(ScanFailed(c, sid)))
  {
    ScanDroppedOk(c, sid);
    var owner := c.scans[sid].owner;
    if owner.Some? && Running(c, owner.value) {
      SettledOk(c.(scans := c.scans - {sid}), owner.value);
    }
  }

  lemma InvalidatedOk(c: Core, nulls: bool)
    requires CoreOk(c)
    ensures CoreOk(Invalidated(c, nulls))
  {
  }

  lemma StepOk(c: Core, e: Event)
    requires CoreOk(c) && Enabled(c, e)
    ensures CoreOk(Next(c, e))
  {
    match e
    case Mutate(source) => MutatedOk(c, source);
    case Invalidate(nulls) => InvalidatedOk(c, nulls);
    case Read(hit) => if !hit { RefreshedOk(c); }
    case Look(id, name) => LookedOk(c, id, Live(name));
    case Publish(id) => SettledOk(c, id);
    case Fail(id) => SettledOk(c, id);
    case Clear(id) => ClearedOk(c, id);
    case ScanStart => ScannedOk(c, None);
    case ScanPage(sid, page) => PageReadOk(c, sid, Page(page));
    case ScanEnd(sid) => ScanEndedOk(c, sid);
    case ScanFail(sid) => ScanFailedOk(c, sid);
    case DropBindings =>
  }

  /** Single flight: never two walks at once. */
  lemma OneWalk(c: Core)
    requires CoreOk(c)
    ensures |c.walks| <= 1
  {
    assert c.walks.Keys == if c.inflight.Some? then {c.inflight.value} else {};
  }

  /** No step but an invalidation leaves anything old behind. */
  lemma StepKeepsClean(c: Core, e: Event)
    requires CoreOk(c) && Clean(c) && Enabled(c, e) && !e.Invalidate?
    ensures Clean(Next(c, e))
  {
    match e
    case Read(hit) => if !hit { RefreshedOk(c); }
    case Look(id, name) => LookedOk(c, id, Live(name));
    case Publish(id) => SettledOk(c, id);
    case Fail(id) => SettledOk(c, id);
    case Clear(id) => ClearedOk(c, id);
    case ScanStart => ScannedOk(c, None);
    case ScanPage(sid, page) => PageReadOk(c, sid, Page(page));
    case ScanEnd(sid) => ScanEndedOk(c, sid);
    case ScanFail(sid) => ScanFailedOk(c, sid);
    case _ =>
  }

  lemma InvalidationLeavesClean(c: Core, nulls: bool)
    requires CoreOk(c)
    ensures Clean(Next(c, Invalidate(nulls))) <==> PagesCurrent(c, nulls)
  {
    var d := Next(c, Invalidate(nulls));
    assert forall sid :: sid in c.scans ==> d.scans[sid] == c.scans[sid];
  }

  // ── Runs ──────────────────────────────────────────────────────────────────

  ghost predicate Legal(c: Core, events: seq<Event>)
    decreases |events|, 0
  {
    events == [] ||
    (Legal(c, events[..|events| - 1]) && Enabled(Run(c, events[..|events| - 1]), events[|events| - 1]))
  }

  ghost function Run(c: Core, events: seq<Event>): Core
    requires Legal(c, events)
    decreases |events|, 1
  {
    if events == [] then c else Next(Run(c, events[..|events| - 1]), events[|events| - 1])
  }

  lemma Snoc(c: Core, events: seq<Event>, e: Event)
    requires Legal(c, events) && Enabled(Run(c, events), e)
    ensures Legal(c, events + [e]) && Run(c, events + [e]) == Next(Run(c, events), e)
  {
    assert (events + [e])[..|events|] == events;
  }

  /** Steps that neither write, nor invalidate, nor publish. */
  predicate Quiet(e: Event) {
    e.Fail? || e.Clear? || e.ScanEnd? || e == Read(false)
  }

  predicate AllQuiet(events: seq<Event>) {
    forall i :: 0 <= i < |events| ==> Quiet(events[i])
  }

  /** A walk of this generation about to publish something older than the floor. */
  ghost predicate AboutToPublishOld(c: Core, id: nat) {
    Current(c, id) && !Scanning(c, id) && !AtLeast(c.walks[id].seen, c.floor)
  }

  lemma EmptySlot(c: Core) returns (events: seq<Event>)
    requires CoreOk(c)
    ensures AllQuiet(events) && Legal(c, events)
    ensures CoreOk(Run(c, events)) && SlotEmptied(c, Run(c, events))
  {
    events := [];
    if c.inflight.Some? {
      var id := c.inflight.value;
      if Running(c, id) {
        events := SettleSlot(c, id);
      } else {
        SlotCleared(c, id);
        Snoc(c, [], Clear(id));
        events := [] + [Clear(id)];
      }
    }
  }

  /** Same identities, same floor, nothing in the slot. */
  predicate SlotEmptied(c: Core, d: Core) {
    d.inflight.None? && d.bindings == c.bindings && d.scans == c.scans && d.floor == c.floor && d.epoch == c.epoch
  }

  lemma SettleSlot(c: Core, id: nat) returns (events: seq<Event>)
    requires CoreOk(c) && Running(c, id)
    ensures AllQuiet(events) && Legal(c, events)
    ensures CoreOk(Run(c, events)) && SlotEmptied(c, Run(c, events))
  {
    SettledOk(c, id);
    SlotCleared(Next(c, Fail(id)), id);
    TwoSteps(c, Fail(id), Clear(id));
    events := [Fail(id), Clear(id)];
  }

  lemma SlotCleared(c: Core, id: nat)
    requires CoreOk(c) && id in c.walks && c.walks[id].settled
    ensures CoreOk(Next(c, Clear(id))) && SlotEmptied(c, Next(c, Clear(id)))
  {
    ClearedOk(c, id);
  }

  /** An empty slot and old identities in the cache: the next walk takes them and publishes. */
  lemma OldBindingsArePublished(c: Core) returns (id: nat)
    requires CoreOk(c) && c.inflight.None? && c.bindings.Some? && !AtLeast(c.bindings.value, c.floor)
    ensures AboutToPublishOld(Next(c, Read(false)), id)
  {
    id := c.nextId;
    var d := Next(c, Read(false));
    assert d.walks[id] == Walk(c.epoch, c.bindings.value, false);
    assert forall sid :: sid in d.scans ==> d.scans[sid].owner != Some(id);
  }

  /** An old scan ends, and then the same. */
  lemma OldScanIsPublished(c: Core, sid: nat) returns (events: seq<Event>, id: nat)
    requires CoreOk(c) && c.inflight.None? && sid in c.scans && !AtLeast(c.scans[sid].seen, c.floor)
    ensures events == [ScanEnd(sid), Read(false)] && Legal(c, events) && Run(c, events).floor == c.floor
    ensures AboutToPublishOld(Run(c, events), id)
  {
    ScanEndedOk(c, sid);
    var d := Next(c, ScanEnd(sid));
    id := OldBindingsArePublished(d);
    events := [ScanEnd(sid), Read(false)];
    TwoSteps(c, ScanEnd(sid), Read(false));
  }

  lemma TwoSteps(c: Core, e: Event, f: Event)
    requires Enabled(c, e) && Enabled(Next(c, e), f)
    ensures Legal(c, [e, f]) && Run(c, [e, f]) == Next(Next(c, e), f)
  {
    Snoc(c, [], e);
    assert [] + [e] == [e] && [e] + [f] == [e, f];
    Snoc(c, [e], f);
  }

  /** Two runs, one after the other. */
  lemma {:induction false} Append(c: Core, front: seq<Event>, back: seq<Event>)
    requires Legal(c, front) && Legal(Run(c, front), back)
    ensures Legal(c, front + back) && Run(c, front + back) == Run(Run(c, front), back)
  {
    if back == [] {
      assert front + back == front;
    } else {
      var n := |back| - 1;
      Append(c, front, back[..n]);
      Snoc(c, front + back[..n], back[n]);
      assert front + back == (front + back[..n]) + [back[n]];
    }
  }

  /** Old identities in the cache or in a scan. */
  ghost predicate OldPages(c: Core) {
    || (c.bindings.Some? && !AtLeast(c.bindings.value, c.floor))
    || (exists sid :: sid in c.scans && !AtLeast(c.scans[sid].seen, c.floor))
  }

  /** Whatever old page is left, some run from here publishes it without a write or an invalidation in between. */
  lemma OldPagesArePublished(c: Core) returns (events: seq<Event>, id: nat)
    requires CoreOk(c) && OldPages(c)
    ensures AllQuiet(events) && Legal(c, events) && Run(c, events).floor == c.floor
    ensures AboutToPublishOld(Run(c, events), id)
  {
    var front := EmptySlot(c);
    var back: seq<Event>;
    back, id := OldPagesArePublishedNext(Run(c, front));
    Append(c, front, back);
    events := front + back;
  }

  lemma OldPagesArePublishedNext(c: Core) returns (events: seq<Event>, id: nat)
    requires CoreOk(c) && c.inflight.None? && OldPages(c)
    ensures AllQuiet(events) && Legal(c, events) && Run(c, events).floor == c.floor
    ensures AboutToPublishOld(Run(c, events), id)
  {
    if c.bindings.Some? && !AtLeast(c.bindings.value, c.floor) {
      id := OldBindingsArePublished(c);
      Snoc(c, [], Read(false));
      events := [] + [Read(false)];
    } else {
      var sid :| sid in c.scans && !AtLeast(c.scans[sid].seen, c.floor);
      events, id := OldScanIsPublished(c, sid);
    }
  }

  /** So is what a walk of this generation has read itself. */
  lemma OldWalkPublishes(c: Core, id: nat) returns (events: seq<Event>)
    requires CoreOk(c) && Current(c, id) && !AtLeast(c.walks[id].seen, c.floor)
    ensures AllQuiet(events) && Legal(c, events) && Run(c, events).floor == c.floor
    ensures AboutToPublishOld(Run(c, events), id)
  {
    events := [];
    if Scanning(c, id) {
      var sid :| sid in c.scans && c.scans[sid].owner == Some(id);
      Snoc(c, events, ScanEnd(sid));
      events := events + [ScanEnd(sid)];
      var d := Run(c, events);
      assert d == Next(c, ScanEnd(sid));
      OldStaysOld(c.walks[id].seen, c.scans[sid].seen, c.floor);
      assert d.walks[id].seen == c.walks[id].seen + c.scans[sid].seen;
    }
  }

  lemma OldStaysOld(seen: Reads, pages: Reads, floor: Reads)
    requires OnlyLive(seen) && OnlyPages(pages) && !AtLeast(seen, floor)
    ensures !AtLeast(seen + pages, floor)
  {
    var k :| k in seen && seen[k] < Get(floor, k);
    assert k !in pages;
    assert (seen + pages)[k] == seen[k];
  }
}
