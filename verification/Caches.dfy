/**
 The access review's cache, kept in process: stale while a walk refreshes it, with a generation counter. The
 result of a walk is kept unless an invalidation landed meanwhile; whether it can still hold old identities
 depends on the identity cache below.
 */
module Caches {
  import opened Prelude
  import opened Counters
  import opened Walks

  // ── The access review ─────────────────────────────────────────────────────

  datatype Review = Review(core: Core, cache: Option<Reads>)

  predicate ReviewEnabled(s: Review, e: Event) {
    Enabled(s.core, e) && (e == Read(true) ==> s.cache.Some?)
  }

  function ReviewNext(s: Review, e: Event): Review
    requires ReviewEnabled(s, e)
  {
    Review(Next(s.core, e),
           if e.Invalidate? then None
           else if e.Publish? && Current(s.core, e.id) then Some(s.core.walks[e.id].seen)
           else s.cache)
  }

  function ReviewStart(data: Reads): Review {
    Review(Start(data), None)
  }

  ghost predicate ReviewLegal(s: Review, events: seq<Event>)
    decreases |events|, 0
  {
    events == [] ||
    (ReviewLegal(s, events[..|events| - 1])
        && ReviewEnabled(ReviewRun(s, events[..|events| - 1]), events[|events| - 1]))
  }

  ghost function ReviewRun(s: Review, events: seq<Event>): Review
    requires ReviewLegal(s, events)
    decreases |events|, 1
  {
    if events == [] then s else ReviewNext(ReviewRun(s, events[..|events| - 1]), events[|events| - 1])
  }

  lemma ReviewSnoc(s: Review, events: seq<Event>, e: Event)
    requires ReviewLegal(s, events) && ReviewEnabled(ReviewRun(s, events), e)
    ensures ReviewLegal(s, events + [e]) && ReviewRun(s, events + [e]) == ReviewNext(ReviewRun(s, events), e)
  {
    assert (events + [e])[..|events|] == events;
  }

  /** The cached review is no older, in any source, than the last invalidation. */
  ghost predicate ReviewFresh(s: Review) {
    s.cache.Some? ==> AtLeast(s.cache.value, s.core.floor)
  }

  /** The last invalidation of the run, if there is one, finds no old identity page in the cache or in a scan. */
  ghost predicate LastFindsNothingOld(s: Review, events: seq<Event>)
    requires ReviewLegal(s, events)
    decreases |events|
  {
    events == [] ||
    var front, last := events[..|events| - 1], events[|events| - 1];
    if last.Invalidate? then PagesCurrent(ReviewRun(s, front).core, last.nulls) else LastFindsNothingOld(s, front)
  }

  ghost predicate ReviewOk(s: Review) {
    CoreOk(s.core) && Clean(s.core) && ReviewFresh(s)
  }

  lemma ReviewStepOk(s: Review, e: Event)
    requires ReviewOk(s) && ReviewEnabled(s, e) && !e.Invalidate?
    ensures ReviewOk(ReviewNext(s, e))
  {
    StepOk(s.core, e);
    StepKeepsClean(s.core, e);
    FloorStays(s.core, e);
  }

  /** Whatever came before it: an invalidation that finds no old page starts afresh. */
  lemma InvalidationStartsAfresh(s: Review, nulls: bool)
    requires CoreOk(s.core)
    ensures ReviewOk(ReviewNext(s, Invalidate(nulls))) <==> PagesCurrent(s.core, nulls)
  {
    StepOk(s.core, Invalidate(nulls));
    InvalidationLeavesClean(s.core, nulls);
  }

  lemma FloorStays(c: Core, e: Event)
    requires Enabled(c, e) && !e.Invalidate?
    ensures Next(c, e).floor == c.floor
  {
  }

  lemma {:induction false} ReviewCoreOk(s: Review, events: seq<Event>)
    requires CoreOk(s.core) && ReviewLegal(s, events)
    ensures CoreOk(ReviewRun(s, events).core)
  {
    if events != [] {
      ReviewCoreOk(s, events[..|events| - 1]);
      StepOk(ReviewRun(s, events[..|events| - 1]).core, events[|events| - 1]);
    }
  }

  lemma {:induction false} ReviewRunOk(s: Review, events: seq<Event>)
    requires ReviewOk(s) && ReviewLegal(s, events) && LastFindsNothingOld(s, events)
    ensures ReviewOk(ReviewRun(s, events))
  {
    if events != [] {
      var front, e := events[..|events| - 1], events[|events| - 1];
      if e.Invalidate? {
        ReviewCoreOk(s, front);
        InvalidationStartsAfresh(ReviewRun(s, front), e.nulls);
      } else {
        ReviewRunOk(s, front);
        ReviewStepOk(ReviewRun(s, front), e);
      }
    }
  }

  /**
   Over every run whose last invalidation finds no old identity page, whatever the earlier ones found: the
   cache is empty or holds a result no older, in any source, than that invalidation (and as new as the data
   itself if nothing was written since), and at most one walk is in flight.
   */
  lemma ReviewNeverStale(data: Reads, events: seq<Event>)
    requires ReviewLegal(ReviewStart(data), events) && LastFindsNothingOld(ReviewStart(data), events)
    ensures var s := ReviewRun(ReviewStart(data), events);
            && ReviewFresh(s) && |s.core.walks| <= 1
            && (s.cache.Some? && s.core.floor == s.core.data ==>
                  forall k :: k in s.cache.value ==> s.cache.value[k] >= Get(s.core.data, k))
  {
    ReviewRunOk(ReviewStart(data), events);
    OneWalk(ReviewRun(ReviewStart(data), events).core);
  }

  // ── What holds on every run, whatever the identity cache holds ────────────

  ghost predicate LiveAtLeast(a: Reads, floor: Reads) {
    forall k: Source :: k in a && k.Live? ==> a[k] >= Get(floor, k)
  }

  ghost predicate LiveOk(s: Review) {
    && CoreOk(s.core)
    && (forall id :: Current(s.core, id) ==> LiveAtLeast(s.core.walks[id].seen, s.core.floor))
    && (s.cache.Some? ==> LiveAtLeast(s.cache.value, s.core.floor))
  }

  lemma StepKeepsLive(c: Core, e: Event)
    requires CoreOk(c) && Enabled(c, e) && !e.Invalidate?
    requires forall id :: Current(c, id) ==> LiveAtLeast(c.walks[id].seen, c.floor)
    ensures forall id :: Current(Next(c, e), id) ==> LiveAtLeast(Next(c, e).walks[id].seen, c.floor)
  {
    forall id | Current(Next(c, e), id) ensures LiveAtLeast(Next(c, e).walks[id].seen, c.floor) {
      if id in c.walks {
        assert Current(c, id);
      }
    }
  }

  /**
   Over every run at all, the cached result comes from a walk of the current generation: its live
   sources are no older than the last invalidation. And never two walks at once.
   */
  lemma {:induction false} ReviewLiveNeverStale(data: Reads, events: seq<Event>)
    requires ReviewLegal(ReviewStart(data), events)
    ensures LiveOk(ReviewRun(ReviewStart(data), events))
    ensures |ReviewRun(ReviewStart(data), events).core.walks| <= 1
  {
    if events != [] {
      var front, e := events[..|events| - 1], events[|events| - 1];
      ReviewLiveNeverStale(data, front);
      LiveStep(ReviewRun(ReviewStart(data), front), e);
    }
    OneWalk(ReviewRun(ReviewStart(data), events).core);
  }

  lemma LiveStep(s: Review, e: Event)
    requires LiveOk(s) && ReviewEnabled(s, e)
    ensures LiveOk(ReviewNext(s, e))
  {
    StepOk(s.core, e);
    if e.Invalidate? {
      assert forall id :: !Current(ReviewNext(s, e).core, id);
    } else {
      StepKeepsLive(s.core, e);
      FloorStays(s.core, e);
    }
  }

  // ── Exactly when an invalidation does its work ────────────────────────────

  predicate NoneInvalidates(events: seq<Event>) {
    forall i :: 0 <= i < |events| ==> !events[i].Invalidate?
  }

  /** Quiet steps of the walks are steps of the review that leave its cache alone. */
  lemma {:induction false} QuietReview(s: Review, events: seq<Event>)
    requires Legal(s.core, events) && AllQuiet(events)
    ensures ReviewLegal(s, events) && NoneInvalidates(events)
    ensures ReviewRun(s, events) == Review(Run(s.core, events), s.cache)
  {
    if events != [] {
      QuietReview(s, events[..|events| - 1]);
      assert Quiet(events[|events| - 1]);
    }
  }

  lemma {:induction false} NoneInvalidatesIsClean(s: Review, events: seq<Event>)
    requires ReviewLegal(s, events) && NoneInvalidates(events)
    ensures LastFindsNothingOld(s, events)
  {
    if events != [] {
      NoneInvalidatesIsClean(s, events[..|events| - 1]);
    }
  }

  /** Whatever comes next, the cache stays fresh until there is another invalidation. */
  ghost predicate FreshUntilNext(s: Review) {
    forall events :: ReviewLegal(s, events) && NoneInvalidates(events) ==> ReviewFresh(ReviewRun(s, events))
  }

  /** And after others too, as long as the last one finds no old page. */
  ghost predicate FreshFromNowOn(s: Review) {
    forall events :: ReviewLegal(s, events) && LastFindsNothingOld(s, events) ==> ReviewFresh(ReviewRun(s, events))
  }

  /** A walk that publishes something older than the floor. */
  lemma OldReachesReview(s: Review, quiet: seq<Event>, id: nat)
    requires AllQuiet(quiet) && Legal(s.core, quiet) && Run(s.core, quiet).floor == s.core.floor
    requires AboutToPublishOld(Run(s.core, quiet), id)
    ensures !FreshUntilNext(s)
  {
    QuietReview(s, quiet);
    var t := ReviewRun(s, quiet);
    ReviewSnoc(s, quiet, Publish(id));
    var events := quiet + [Publish(id)];
    assert ReviewRun(s, events).cache == Some(t.core.walks[id].seen);
    assert ReviewLegal(s, events) && NoneInvalidates(events) && !ReviewFresh(ReviewRun(s, events));
  }

  /**
   In any state at all, whatever its history: the cache stays fresh on every run that follows exactly when
   neither it, nor the identity cache, nor a scan, nor a walk of this generation holds anything old.
   */
  lemma StaysFreshExactly(s: Review)
    requires CoreOk(s.core)
    ensures FreshUntilNext(s) <==> Clean(s.core) && ReviewFresh(s)
    ensures FreshFromNowOn(s) <==> Clean(s.core) && ReviewFresh(s)
  {
    if Clean(s.core) && ReviewFresh(s) {
      OkStaysFresh(s);
    } else if !ReviewFresh(s) {
      assert ReviewLegal(s, []) && NoneInvalidates([]) && ReviewRun(s, []) == s;
    } else if OldPages(s.core) {
      var quiet, id := OldPagesArePublished(s.core);
      OldReachesReview(s, quiet, id);
    } else {
      var id :| Current(s.core, id) && !AtLeast(s.core.walks[id].seen, s.core.floor);
      var quiet := OldWalkPublishes(s.core, id);
      OldReachesReview(s, quiet, id);
    }
    FromNowOnIsStronger(s);
  }

  lemma OkStaysFresh(s: Review)
    requires ReviewOk(s)
    ensures FreshUntilNext(s) && FreshFromNowOn(s)
  {
    forall events | ReviewLegal(s, events) && LastFindsNothingOld(s, events)
      ensures ReviewFresh(ReviewRun(s, events))
    {
      ReviewRunOk(s, events);
    }
    FromNowOnIsStronger(s);
  }

  lemma FromNowOnIsStronger(s: Review)
    ensures FreshFromNowOn(s) ==> FreshUntilNext(s)
  {
    forall events | ReviewLegal(s, events) && NoneInvalidates(events) ensures LastFindsNothingOld(s, events) {
      NoneInvalidatesIsClean(s, events);
    }
  }

  /**
   An invalidation of the review keeps its promise, until the next one and from then on, exactly when it
   finds no old identity page, whatever happened before it: the identity cache is dropped with it, empty or
   up to date, and no scan in flight has read an old page.
   */
  lemma InvalidationExactly(s: Review, nulls: bool)
    requires CoreOk(s.core)
    ensures FreshUntilNext(ReviewNext(s, Invalidate(nulls))) <==> PagesCurrent(s.core, nulls)
    ensures FreshFromNowOn(ReviewNext(s, Invalidate(nulls))) <==> PagesCurrent(s.core, nulls)
  {
    InvalidationStartsAfresh(s, nulls);
    StepOk(s.core, Invalidate(nulls));
    StaysFreshExactly(ReviewNext(s, Invalidate(nulls)));
  }

  // ── How it goes wrong ─────────────────────────────────────────────────────

  /** A scan overtaken by a change of membership: dropping the identity cache comes before the scan refills it. */
  function ScanOvertaken(page: nat): seq<Event> {
    [ScanStart, ScanPage(0, page), Mutate(Page(page))]
  }

  /** A user deleted after the identity cache was dropped, and another reader in between. */
  function DeletedAfterDrop(page: nat): seq<Event> {
    [DropBindings, ScanStart, ScanPage(0, page), ScanEnd(0), Mutate(Page(page))]
  }

  lemma {:induction false} RunReview(s: Review, events: seq<Event>, t: Review, more: seq<Event>)
    requires ReviewLegal(s, events) && ReviewRun(s, events) == t && ReviewLegal(t, more)
    ensures ReviewLegal(s, events + more) && ReviewRun(s, events + more) == ReviewRun(t, more)
  {
    if more == [] {
      assert events + more == events;
    } else {
      var n := |more| - 1;
      RunReview(s, events, t, more[..n]);
      ReviewSnoc(s, events + more[..n], more[n]);
      assert events + more == (events + more[..n]) + [more[n]];
    }
  }

  lemma PageReadByScan(s: Review, page: nat) returns (t: Review)
    requires s == ReviewStart(map[])
    ensures ReviewLegal(s, [ScanStart, ScanPage(0, page)])
    ensures t == ReviewRun(s, [ScanStart, ScanPage(0, page)])
    ensures t == Review(s.core.(scans := map[0 := Scan(None, map[Page(page) := 0])], nextScan := 1), None)
  {
    ReviewSnoc(s, [], ScanStart);
    assert [] + [ScanStart] == [ScanStart];
    ReviewSnoc(s, [ScanStart], ScanPage(0, page));
    assert [ScanStart] + [ScanPage(0, page)] == [ScanStart, ScanPage(0, page)];
    t := ReviewRun(s, [ScanStart, ScanPage(0, page)]);
  }

  /**
   Both happen. A membership changes while a scan is under way; even the invalidation that drops the
   identity cache cannot keep the review fresh. And an invalidation that leaves a cache filled before the
   change alone cannot either.
   */
  lemma OldScanDefeatsInvalidation(page: nat, nulls: bool)
    ensures ReviewLegal(ReviewStart(map[]), ScanOvertaken(page))
    ensures var s := ReviewRun(ReviewStart(map[]), ScanOvertaken(page));
            ReviewOk(s) && !FreshUntilNext(ReviewNext(s, Invalidate(nulls)))
  {
    var start := ReviewStart(map[]);
    var t := PageReadByScan(start, page);
    ReviewSnoc(start, [ScanStart, ScanPage(0, page)], Mutate(Page(page)));
    assert [ScanStart, ScanPage(0, page)] + [Mutate(Page(page))] == ScanOvertaken(page);
    NoneInvalidatesIsClean(start, ScanOvertaken(page));
    ReviewRunOk(start, ScanOvertaken(page));
    var s := ReviewRun(start, ScanOvertaken(page));
    assert s.core.scans[0].seen[Page(page)] == 0 && Get(s.core.data, Page(page)) == 1;
    assert !PagesCurrent(s.core, nulls);
    InvalidationExactly(s, nulls);
  }

  lemma OldBindingsDefeatInvalidation(page: nat)
    ensures ReviewLegal(ReviewStart(map[]), DeletedAfterDrop(page))
    ensures var s := ReviewRun(ReviewStart(map[]), DeletedAfterDrop(page));
            ReviewOk(s) && !FreshUntilNext(ReviewNext(s, Invalidate(false)))
  {
    var start := ReviewStart(map[]);
    var s := FilledBeforeDelete(page);
    NoneInvalidatesIsClean(start, DeletedAfterDrop(page));
    ReviewRunOk(start, DeletedAfterDrop(page));
    assert s.core.bindings.value[Page(page)] == 0 && Get(s.core.data, Page(page)) == 1;
    assert !PagesCurrent(s.core, false);
    InvalidationExactly(s, false);
  }

  lemma FilledBeforeDelete(page: nat) returns (s: Review)
    ensures ReviewLegal(ReviewStart(map[]), DeletedAfterDrop(page))
    ensures s == ReviewRun(ReviewStart(map[]), DeletedAfterDrop(page))
    ensures s.core.bindings == Some(map[Page(page) := 0]) && Get(s.core.data, Page(page)) == 1
  {
    var start := ReviewStart(map[]);
    ReviewSnoc(start, [], DropBindings);
    assert [] + [DropBindings] == [DropBindings];
    assert ReviewRun(start, [DropBindings]) == start;
    var t := PageReadByScan(start, page);
    var three := [DropBindings] + [ScanStart, ScanPage(0, page)];
    RunReview(start, [DropBindings], start, [ScanStart, ScanPage(0, page)]);
    s := ScanEndsThenChange(start, three, t, page);
    assert three + [ScanEnd(0)] + [Mutate(Page(page))] == DeletedAfterDrop(page);
  }

  lemma ScanEndsThenChange(start: Review, events: seq<Event>, t: Review, page: nat) returns (s: Review)
    requires ReviewLegal(start, events) && ReviewRun(start, events) == t
    requires t.core.scans == map[0 := Scan(None, map[Page(page) := 0])] && t.core.data == map[]
    ensures ReviewLegal(start, events + [ScanEnd(0)] + [Mutate(Page(page))])
    ensures s == ReviewRun(start, events + [ScanEnd(0)] + [Mutate(Page(page))])
    ensures s.core.bindings == Some(map[Page(page) := 0]) && Get(s.core.data, Page(page)) == 1
  {
    ReviewSnoc(start, events, ScanEnd(0));
    ReviewSnoc(start, events + [ScanEnd(0)], Mutate(Page(page)));
    s := ReviewRun(start, events + [ScanEnd(0)] + [Mutate(Page(page))]);
  }

  // ── The reader that has to wait ───────────────────────────────────────────

  /** The walk a reader without a cached value waits for: the one in the slot, if there is one. */
  function Joined(c: Core): nat {
    if c.inflight.Some? then c.inflight.value else c.nextId
  }

  /**
   Nothing the walk has read is older than `floor`, nor, while it is at work, anything its own scan has read so
   far.
   */
  ghost predicate ReadsAtLeast(c: Core, id: nat, floor: Reads) {
    && (id in c.walks ==> AtLeast(c.walks[id].seen, floor))
    && (Running(c, id) ==>
          forall sid :: sid in c.scans && c.scans[sid].owner == Some(id) ==> AtLeast(c.scans[sid].seen, floor))
  }

  lemma StepKeepsReads(c: Core, e: Event, id: nat, floor: Reads)
    requires CoreOk(c) && Enabled(c, e) && id < c.nextId && AtMost(floor, c.data) && ReadsAtLeast(c, id, floor)
    ensures ReadsAtLeast(Next(c, e), id, floor)
  {
    match e
    case Read(hit) => if !hit { RefreshKeepsReads(c, id, floor); }
    case Look(j, name) => LookKeepsReads(c, j, Live(name), id, floor);
    case ScanPage(sid, page) => PageKeepsReads(c, sid, Page(page), id, floor);
    case ScanEnd(sid) => ScanEndKeepsReads(c, sid, id, floor);
    case _ =>
  }

  lemma StepOnlyGrows(c: Core, e: Event, id: nat, floor: Reads)
    requires Enabled(c, e) && id < c.nextId && AtMost(floor, c.data)
    ensures id < Next(c, e).nextId && AtMost(floor, Next(c, e).data)
  {
  }

  lemma RefreshKeepsReads(c: Core, id: nat, floor: Reads)
    requires CoreOk(c) && id < c.nextId && ReadsAtLeast(c, id, floor)
    ensures ReadsAtLeast(Refreshed(c), id, floor)
  {
  }

  lemma LookKeepsReads(c: Core, j: nat, source: Source, id: nat, floor: Reads)
    requires Running(c, j) && AtMost(floor, c.data) && ReadsAtLeast(c, id, floor)
    ensures ReadsAtLeast(Looked(c, j, source), id, floor)
  {
    assert Get(c.data, source) >= Get(floor, source);
  }

  lemma PageKeepsReads(c: Core, sid: nat, source: Source, id: nat, floor: Reads)
    requires sid in c.scans && AtMost(floor, c.data) && ReadsAtLeast(c, id, floor)
    ensures ReadsAtLeast(PageRead(c, sid, source), id, floor)
  {
    assert Get(c.data, source) >= Get(floor, source);
  }

  lemma ScanEndKeepsReads(c: Core, sid: nat, id: nat, floor: Reads)
    requires sid in c.scans && ReadsAtLeast(c, id, floor)
    ensures ReadsAtLeast(ScanEnded(c, sid), id, floor)
  {
  }

  /** What a walk has read only gets newer. */
  lemma {:induction false} WalkStaysAtLeast(s: Review, events: seq<Event>, id: nat, floor: Reads)
    requires CoreOk(s.core) && ReviewLegal(s, events)
    requires id < s.core.nextId && AtMost(floor, s.core.data) && ReadsAtLeast(s.core, id, floor)
    ensures var t := ReviewRun(s, events);
            && CoreOk(t.core) && id < t.core.nextId && AtMost(floor, t.core.data) && ReadsAtLeast(t.core, id, floor)
  {
    if events != [] {
      var before, e := ReviewRun(s, events[..|events| - 1]), events[|events| - 1];
      WalkStaysAtLeast(s, events[..|events| - 1], id, floor);
      StepOk(before.core, e);
      StepOnlyGrows(before.core, e, id, floor);
      StepKeepsReads(before.core, e, id, floor);
    }
  }

  /** Whatever happens until the walk a reader waits for ends, its result is no older than the floor. */
  ghost predicate FreshWhenDone(s: Review, id: nat, floor: Reads) {
    forall events :: ReviewLegal(s, events) && id in ReviewRun(s, events).core.walks ==>
      AtLeast(ReviewRun(s, events).core.walks[id].seen, floor)
  }

  /**
   A reader without a cached value is sure of a result no older than the last invalidation exactly when
   the walk it joins has read nothing older so far, itself or through its own scan. Where nothing old was
   left behind, a new walk and one of this generation qualify.
   */
  lemma ColdReadFreshness(s: Review)
    requires CoreOk(s.core)
    ensures var after, id := ReviewNext(s, Read(false)), Joined(s.core);
            && id in after.core.walks
            && (FreshWhenDone(after, id, s.core.floor) <==> ReadsAtLeast(after.core, id, s.core.floor))
            && (Clean(s.core) && (s.core.inflight.None? || Current(s.core, id)) ==>
                 FreshWhenDone(after, id, s.core.floor))
  {
    var after, id := ReviewNext(s, Read(false)), Joined(s.core);
    StepOk(s.core, Read(false));
    if ReadsAtLeast(after.core, id, s.core.floor) {
      forall events | ReviewLegal(after, events) && id in ReviewRun(after, events).core.walks
        ensures AtLeast(ReviewRun(after, events).core.walks[id].seen, s.core.floor)
      {
        WalkStaysAtLeast(after, events, id, s.core.floor);
      }
    }
    if FreshWhenDone(after, id, s.core.floor) {
      FreshReadsSoFar(after, id, s.core.floor);
    }
    if Clean(s.core) && (s.core.inflight.None? || Current(s.core, id)) {
      StepKeepsClean(s.core, Read(false));
      CleanReads(s.core, id);
    }
  }

  /** In a clean state, a new walk and one of this generation have read nothing old, and their scans neither. */
  lemma CleanReads(c: Core, id: nat)
    requires CoreOk(c) && Clean(c) && Clean(Next(c, Read(false))) && id == Joined(c)
    requires c.inflight.None? || Current(c, id)
    ensures ReadsAtLeast(Next(c, Read(false)), id, c.floor)
  {
    assert Current(Next(c, Read(false)), id);
  }

  /** The walk may end now, or right after its scan. */
  lemma FreshReadsSoFar(s: Review, id: nat, floor: Reads)
    requires CoreOk(s.core) && FreshWhenDone(s, id, floor)
    ensures ReadsAtLeast(s.core, id, floor)
  {
    assert ReviewLegal(s, []) && ReviewRun(s, []) == s;
    forall sid | Running(s.core, id) && sid in s.core.scans && s.core.scans[sid].owner == Some(id)
      ensures AtLeast(s.core.scans[sid].seen, floor)
    {
      ReviewSnoc(s, [], ScanEnd(sid));
      var t := ReviewRun(s, [] + [ScanEnd(sid)]);
      assert t.core.walks[id].seen == s.core.walks[id].seen + s.core.scans[sid].seen;
      assert forall k :: k in s.core.scans[sid].seen ==> t.core.walks[id].seen[k] == s.core.scans[sid].seen[k];
    }
  }

  /** A reader that comes right after a write and its invalidation can be handed a walk that predates both. */
  lemma ColdReadJoinsStaleWalk(name: string)
    ensures var start := ReviewStart(map[]);
            var events := [Read(false), Look(0, name), Mutate(Live(name)), Invalidate(false)];
            && ReviewLegal(start, events)
            && var s := ReviewRun(start, events);
            && s.cache.None? && Joined(s.core) == 0 && 0 in s.core.walks
            && s.core.walks[0].seen == map[Live(name) := 0] && Get(s.core.floor, Live(name)) == 1
  {
    var start := ReviewStart(map[]);
    var e0, e1, e2, e3 := Read(false), Look(0, name), Mutate(Live(name)), Invalidate(false);
    ReviewSnoc(start, [], e0);
    assert [] + [e0] == [e0];
    ReviewSnoc(start, [e0], e1);
    assert [e0] + [e1] == [e0, e1];
    ReviewSnoc(start, [e0, e1], e2);
    assert [e0, e1] + [e2] == [e0, e1, e2];
    ReviewSnoc(start, [e0, e1, e2], e3);
    assert [e0, e1, e2] + [e3] == [e0, e1, e2, e3];
  }

  /**
   The service's own fields; the identity cache belongs to the directory client, `data` and `floor` are the world
   outside.
   */
  class AccessReviewCache {
    var cache: Option<(int, Reads)>
    var inflight: Option<nat>
    var epoch: nat
    var walks: map<nat, Walk>
    var nextId: nat
    var bindings: Option<Reads>
    var scans: map<nat, Scan>
    var nextScan: nat
    ghost var data: Reads
    ghost var floor: Reads

    ghost function C(): Core
      reads this
    {
      Core(epoch, data, floor, walks, inflight, nextId, bindings, scans, nextScan)
    }

    ghost function S(): Review
      reads this
    {
      Review(C(), if cache.Some? then Some(cache.value.1) else None)
    }

    constructor (ghost data: Reads)
      ensures S() == ReviewStart(data)
    {
      cache, inflight, epoch, walks, nextId := None, None, 0, map[], 0;
      bindings, scans, nextScan := None, map[], 0;
      this.data, floor := data, data;
    }

    method InvalidateAll()
      modifies this
      ensures S() == ReviewNext(old(S()), Invalidate(false))
    {
      epoch := epoch + 1;
      cache := None;
      floor := data;
    }

    /** Serve what is cached, refreshing behind the reader's back when it is old; otherwise wait for a walk. */
    method GetAccessReview(now: int, freshMs: nat) returns (served: Option<Reads>, waitFor: Option<nat>)
      modifies this
      ensures served == old(S()).cache
      ensures served.Some? <==> waitFor.None?
      ensures waitFor.Some? ==> waitFor.value == Joined(old(C()))
      ensures S() == ReviewNext(old(S()), Read(old(cache).Some? && now - old(cache).value.0 < freshMs))
    {
      if cache.Some? {
        if now - cache.value.0 >= freshMs {
          var _ := Refresh();
        }
        return Some(cache.value.1), None;
      }
      var id := Refresh();
      return None, Some(id);
    }

    method Refresh() returns (id: nat)
      modifies this
      ensures C() == Refreshed(old(C())) && cache == old(cache)
      ensures id == Joined(old(C()))
    {
      if inflight.Some? {
        return inflight.value;
      }
      id := nextId;
      walks := walks[id := Walk(epoch, bindings.GetOr(map[]), false)];
      if bindings.None? {
        scans := scans[nextScan := Scan(Some(id), map[])];
        nextScan := nextScan + 1;
      }
      nextId := nextId + 1;
      inflight := Some(id);
    }

    /** The end of a walk: its result is kept only if no invalidation landed meanwhile. */
    method Finish(id: nat, now: int)
      requires Enabled(C(), Publish(id))
      modifies this
      ensures S() == ReviewNext(old(S()), Publish(id))
    {
      if epoch == walks[id].startEpoch {
        cache := Some((now, walks[id].seen));
      }
      walks := walks[id := walks[id].(settled := true)];
    }

    method ClearSlot(id: nat)
      requires id in walks && walks[id].settled
      modifies this
      ensures S() == ReviewNext(old(S()), Clear(id))
    {
      if inflight == Some(id) {
        inflight := None;
      }
      walks := walks - {id};
    }
  }
}
