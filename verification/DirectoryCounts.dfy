/**
 The directory counts: the same walks as the access review's, but the result is stored in Redis, behind a
 queue of commands applied in issue order. Deletions that the service issues and results that it stores can
 overtake each other only as the generation counter lets them.
 */
module DirectoryCounts {
  import opened Prelude
  import opened Counters
  import opened Walks

  /** Commands on the counts key; a deletion remembers what its writer had seen. */
  datatype Command = Set(value: Reads) | Del(floor: Reads)

  /** `delivered`: the floor of the last deletion Redis has applied. */
  datatype Counts = Counts(core: Core, store: Option<Reads>, queue: seq<Command>, delivered: Reads)

  datatype CountsEvent =
    | Shared(e: Event)
    | Deliver            // Redis applies the oldest command
    | Expire             // the key's time to live ran out
    | BundleInvalidate   // the other invalidation: deletes the key without a new generation

  predicate CountsEnabled(s: Counts, e: CountsEvent) {
    match e
    case Shared(c) => Enabled(s.core, c) && (c == Read(true) ==> s.store.Some?)
    case Deliver => s.queue != []
    case _ => true
  }

  function CountsNext(s: Counts, e: CountsEvent): Counts
    requires CountsEnabled(s, e)
  {
    match e
    case Shared(c) =>
      s.(core := Next(s.core, c),
         queue := if c.Invalidate? then s.queue + [Del(s.core.data)]
                  else if c.Publish? && Current(s.core, c.id) then s.queue + [Set(s.core.walks[c.id].seen)]
                  else s.queue)
    case Deliver => Delivered(s)
    case Expire => s.(store := None)
    case BundleInvalidate => s.(core := s.core.(floor := s.core.data), queue := s.queue + [Del(s.core.data)])
  }

  function Delivered(s: Counts): Counts
    requires s.queue != []
  {
    match s.queue[0]
    case Set(value) => s.(store := Some(value), queue := s.queue[1..])
    case Del(floor) => s.(store := None, queue := s.queue[1..], delivered := floor)
  }

  // ── The queue ─────────────────────────────────────────────────────────────

  /** The floor in force once every queued command has been applied. */
  function LastFloor(delivered: Reads, queue: seq<Command>): Reads {
    if queue == [] then delivered
    else match queue[|queue| - 1]
      case Del(floor) => floor
      case Set(_) => LastFloor(delivered, queue[..|queue| - 1])
  }

  /** No queued write brings a value older than the deletions queued before it. */
  ghost predicate QueueOk(delivered: Reads, queue: seq<Command>) {
    forall i :: 0 <= i < |queue| && queue[i].Set? ==> AtLeast(queue[i].value, LastFloor(delivered, queue[..i]))
  }

  lemma {:induction false} LastFloorTail(delivered: Reads, queue: seq<Command>)
    requires queue != []
    ensures LastFloor(delivered, queue)
            == LastFloor(if queue[0].Del? then queue[0].floor else delivered, queue[1..])
  {
    var n := |queue| - 1;
    if n > 0 {
      assert queue[1..][..n - 1] == queue[..n][1..];
      LastFloorTail(delivered, queue[..n]);
    } else {
      assert queue[..0] == [];
    }
  }

  lemma EnqueueOk(delivered: Reads, queue: seq<Command>, c: Command)
    requires QueueOk(delivered, queue) && (c.Set? ==> AtLeast(c.value, LastFloor(delivered, queue)))
    ensures QueueOk(delivered, queue + [c])
    ensures LastFloor(delivered, queue + [c]) == if c.Del? then c.floor else LastFloor(delivered, queue)
  {
    assert (queue + [c])[..|queue|] == queue;
    forall i | 0 <= i < |queue| && queue[i].Set?
      ensures AtLeast(queue[i].value, LastFloor(delivered, (queue + [c])[..i]))
    {
      assert (queue + [c])[..i] == queue[..i];
    }
  }

  // ── What clean steps keep ─────────────────────────────────────────────────

  /** The stored counts are no older, in any source, than the last deletion Redis applied. */
  ghost predicate CountsFresh(s: Counts) {
    s.store.Some? ==> AtLeast(s.store.value, s.delivered)
  }

  /** What holds on every run: the last deletion issued carries the floor. */
  ghost predicate Synced(s: Counts) {
    CoreOk(s.core) && LastFloor(s.delivered, s.queue) == s.core.floor
  }

  ghost predicate CountsOk(s: Counts) {
    Synced(s) && Clean(s.core) && CountsFresh(s) && QueueOk(s.delivered, s.queue)
  }

  function CountsStart(data: Reads): Counts {
    Counts(Start(data), None, [], data)
  }

  /** No walk of this generation still at work has read anything old. */
  ghost predicate WalksCurrent(c: Core) {
    forall id :: Current(c, id) ==> AtLeast(c.walks[id].seen, c.data)
  }

  /** What an invalidation must find so that nothing old is stored after it. */
  ghost predicate FindsNothingOld(c: Core, e: CountsEvent) {
    && (e.Shared? && e.e.Invalidate? ==> PagesCurrent(c, e.e.nulls))
    && (e.BundleInvalidate? ==> PagesCurrent(c, false) && WalksCurrent(c))
  }

  lemma DeliverOk(s: Counts)
    requires CountsFresh(s) && QueueOk(s.delivered, s.queue) && s.queue != []
    ensures CountsFresh(Delivered(s)) && QueueOk(Delivered(s).delivered, Delivered(s).queue)
    ensures LastFloor(Delivered(s).delivered, Delivered(s).queue) == LastFloor(s.delivered, s.queue)
  {
    LastFloorTail(s.delivered, s.queue);
    assert s.queue[..0] == [];
    RestOk(s.delivered, s.queue, Delivered(s).delivered);
  }

  lemma RestOk(delivered: Reads, queue: seq<Command>, delivered': Reads)
    requires queue != [] && QueueOk(delivered, queue)
    requires delivered' == if queue[0].Del? then queue[0].floor else delivered
    ensures QueueOk(delivered', queue[1..])
  {
    var rest := queue[1..];
    forall i | 0 <= i < |rest| && rest[i].Set? ensures AtLeast(rest[i].value, LastFloor(delivered', rest[..i])) {
      assert queue[i + 1] == rest[i];
      assert queue[..i + 1][1..] == rest[..i];
      LastFloorTail(delivered, queue[..i + 1]);
    }
  }

  lemma SharedOk(s: Counts, e: Event)
    requires CountsOk(s) && CountsEnabled(s, Shared(e)) && FindsNothingOld(s.core, Shared(e))
    ensures CountsOk(CountsNext(s, Shared(e)))
  {
    StepOk(s.core, e);
    if e.Invalidate? {
      InvalidationLeavesClean(s.core, e.nulls);
      EnqueueOk(s.delivered, s.queue, Del(s.core.data));
    } else {
      StepKeepsClean(s.core, e);
      SameFloor(s.core, e);
      if e.Publish? && Current(s.core, e.id) {
        EnqueueOk(s.delivered, s.queue, Set(s.core.walks[e.id].seen));
      }
    }
  }

  lemma SameFloor(c: Core, e: Event)
    requires Enabled(c, e) && !e.Invalidate?
    ensures Next(c, e).floor == c.floor
  {
  }

  lemma BundleInvalidateOk(s: Counts)
    requires CountsOk(s) && FindsNothingOld(s.core, BundleInvalidate)
    ensures CountsOk(CountsNext(s, BundleInvalidate))
  {
    FloorRaised(s.core);
    EnqueueOk(s.delivered, s.queue, Del(s.core.data));
  }

  lemma FloorRaised(c: Core)
    requires CoreOk(c)
    ensures CoreOk(c.(floor := c.data))
    ensures PagesCurrent(c, false) && WalksCurrent(c) ==> Clean(c.(floor := c.data))
  {
    var d := c.(floor := c.data);
    assert forall id :: Current(d, id) <==> Current(c, id);
  }

  lemma CountsStepOk(s: Counts, e: CountsEvent)
    requires CountsOk(s) && CountsEnabled(s, e) && FindsNothingOld(s.core, e)
    ensures CountsOk(CountsNext(s, e))
  {
    match e
    case Shared(c) => SharedOk(s, c);
    case Deliver => DeliverOk(s);
    case Expire =>
    case BundleInvalidate => BundleInvalidateOk(s);
  }

  lemma SyncedStep(s: Counts, e: CountsEvent)
    requires Synced(s) && CountsEnabled(s, e)
    ensures Synced(CountsNext(s, e))
  {
    match e
    case Shared(c) =>
      StepOk(s.core, c);
      if !c.Invalidate? { SameFloor(s.core, c); }
      LastFloorGrows(s.delivered, s.queue, CountsNext(s, e).queue);
    case Deliver => LastFloorTail(s.delivered, s.queue);
    case Expire =>
    case BundleInvalidate =>
      FloorRaised(s.core);
      LastFloorGrows(s.delivered, s.queue, CountsNext(s, e).queue);
  }

  lemma LastFloorGrows(delivered: Reads, queue: seq<Command>, queue': seq<Command>)
    requires queue' == queue || (exists c :: queue' == queue + [c])
    ensures LastFloor(delivered, queue')
            == if queue' != queue && queue'[|queue|].Del? then queue'[|queue|].floor else LastFloor(delivered, queue)
  {
    if queue' != queue {
      assert queue'[..|queue|] == queue;
    }
  }

  // ── Runs ──────────────────────────────────────────────────────────────────

  ghost predicate CountsLegal(s: Counts, events: seq<CountsEvent>)
    decreases |events|, 0
  {
    events == [] ||
    (CountsLegal(s, events[..|events| - 1])
     && CountsEnabled(CountsRun(s, events[..|events| - 1]), events[|events| - 1]))
  }

  ghost function CountsRun(s: Counts, events: seq<CountsEvent>): Counts
    requires CountsLegal(s, events)
    decreases |events|, 1
  {
    if events == [] then s else CountsNext(CountsRun(s, events[..|events| - 1]), events[|events| - 1])
  }

  /** Every invalidation of the run finds nothing old. */
  ghost predicate CountsClean(s: Counts, events: seq<CountsEvent>)
    requires CountsLegal(s, events)
    decreases |events|
  {
    events == [] ||
    (CountsClean(s, events[..|events| - 1])
     && FindsNothingOld(CountsRun(s, events[..|events| - 1]).core, events[|events| - 1]))
  }

  lemma CountsSnoc(s: Counts, events: seq<CountsEvent>, e: CountsEvent)
    requires CountsLegal(s, events) && CountsEnabled(CountsRun(s, events), e)
    ensures CountsLegal(s, events + [e]) && CountsRun(s, events + [e]) == CountsNext(CountsRun(s, events), e)
    ensures CountsClean(s, events) && FindsNothingOld(CountsRun(s, events).core, e) ==> CountsClean(s, events + [e])
  {
    assert (events + [e])[..|events|] == events;
  }

  lemma {:induction false} CountsRunOk(s: Counts, events: seq<CountsEvent>)
    requires CountsOk(s) && CountsLegal(s, events) && CountsClean(s, events)
    ensures CountsOk(CountsRun(s, events))
  {
    if events != [] {
      CountsRunOk(s, events[..|events| - 1]);
      CountsStepOk(CountsRun(s, events[..|events| - 1]), events[|events| - 1]);
    }
  }

  lemma {:induction false} SyncedRun(s: Counts, events: seq<CountsEvent>)
    requires Synced(s) && CountsLegal(s, events)
    ensures Synced(CountsRun(s, events))
  {
    if events != [] {
      SyncedRun(s, events[..|events| - 1]);
      SyncedStep(CountsRun(s, events[..|events| - 1]), events[|events| - 1]);
    }
  }

  // ── From the delivery of a deletion on ────────────────────────────────────

  /** The state once Redis has applied the first `k` commands, the last of them a deletion. */
  function Ahead(s: Counts, k: nat): Counts
    requires k <= |s.queue| && (k > 0 ==> s.queue[k - 1].Del?)
  {
    if k == 0 then s else s.(store := None, queue := s.queue[k..], delivered := s.queue[k - 1].floor)
  }

  /** All is well once the deletion at place `k` is delivered, whatever is stored or queued before it. */
  ghost predicate OkAfter(s: Counts, k: nat) {
    k <= |s.queue| && (k > 0 ==> s.queue[k - 1].Del?) && CountsOk(Ahead(s, k))
  }

  function OneLess(k: nat, e: CountsEvent): nat {
    if e.Deliver? && k > 0 then k - 1 else k
  }

  lemma AheadStep(s: Counts, k: nat, e: CountsEvent)
    requires OkAfter(s, k) && CountsEnabled(s, e) && FindsNothingOld(s.core, e)
    ensures OkAfter(CountsNext(s, e), OneLess(k, e))
  {
    if k == 0 {
      CountsStepOk(s, e);
    } else if e.Deliver? || e.Expire? || e == Shared(Read(true)) {
      AheadUnmoved(s, k, e);
    } else {
      AheadCommutes(s, k, e);
      CountsStepOk(Ahead(s, k), e);
    }
  }

  /** A delivery before the deletion, or a change to what it will drop, is already accounted for. */
  lemma AheadUnmoved(s: Counts, k: nat, e: CountsEvent)
    requires 0 < k <= |s.queue| && s.queue[k - 1].Del? && CountsEnabled(s, e)
    requires e.Deliver? || e.Expire? || e == Shared(Read(true))
    ensures var t, n := CountsNext(s, e), OneLess(k, e);
            n <= |t.queue| && (n > 0 ==> t.queue[n - 1].Del?) && Ahead(t, n) == Ahead(s, k)
  {
  }

  lemma AheadCommutes(s: Counts, k: nat, e: CountsEvent)
    requires 0 < k <= |s.queue| && s.queue[k - 1].Del?
    requires CountsEnabled(s, e) && (e.BundleInvalidate? || (e.Shared? && e.e != Read(true)))
    ensures |CountsNext(s, e).queue| >= k && CountsNext(s, e).queue[k - 1] == s.queue[k - 1]
    ensures CountsEnabled(Ahead(s, k), e) && Ahead(CountsNext(s, e), k) == CountsNext(Ahead(s, k), e)
  {
    assert forall c: Command :: (s.queue + [c])[k..] == s.queue[k..] + [c];
  }

  /** How often Redis applies a command. */
  function Deliveries(events: seq<CountsEvent>): nat {
    if events == [] then 0
    else Deliveries(events[..|events| - 1]) + if events[|events| - 1].Deliver? then 1 else 0
  }

  function LeftOf(k: nat, done: nat): nat {
    if done < k then k - done else 0
  }

  lemma {:induction false} AheadRun(s: Counts, k: nat, events: seq<CountsEvent>)
    requires OkAfter(s, k) && CountsLegal(s, events) && CountsClean(s, events)
    ensures OkAfter(CountsRun(s, events), LeftOf(k, Deliveries(events)))
  {
    if events != [] {
      var front, e := events[..|events| - 1], events[|events| - 1];
      AheadRun(s, k, front);
      AheadStep(CountsRun(s, front), LeftOf(k, Deliveries(front)), e);
    }
  }

  predicate Invalidates(e: CountsEvent) {
    e.BundleInvalidate? || (e.Shared? && e.e.Invalidate?)
  }

  /** The last invalidation of the run, of either kind, finds nothing old. */
  ghost predicate LastCountsFindNothingOld(s: Counts, events: seq<CountsEvent>)
    requires CountsLegal(s, events)
    decreases |events|
  {
    events == [] ||
    var front, last := events[..|events| - 1], events[|events| - 1];
    if Invalidates(last) then FindsNothingOld(CountsRun(s, front).core, last) else LastCountsFindNothingOld(s, front)
  }

  /** An invalidation that finds nothing old starts afresh: all is well once its deletion is delivered. */
  lemma InvalidationStartsAfresh(s: Counts, e: CountsEvent)
    requires Synced(s) && Invalidates(e)
    ensures var t := CountsNext(s, e);
            && t.queue == s.queue + [Del(s.core.data)] && t.core.floor == s.core.data
            && (OkAfter(t, |t.queue|) <==> FindsNothingOld(s.core, e))
  {
    var t := CountsNext(s, e);
    SyncedStep(s, e);
    assert t.queue[|t.queue|..] == [];
    if e.BundleInvalidate? {
      FloorRaised(s.core);
    } else {
      InvalidationLeavesClean(s.core, e.e.nulls);
    }
  }

  lemma {:induction false} LastRunOk(s: Counts, events: seq<CountsEvent>) returns (k: nat)
    requires CountsOk(s) && CountsLegal(s, events) && LastCountsFindNothingOld(s, events)
    ensures OkAfter(CountsRun(s, events), k)
  {
    k := 0;
    if events != [] {
      var front, e := events[..|events| - 1], events[|events| - 1];
      if Invalidates(e) {
        SyncedRun(s, front);
        InvalidationStartsAfresh(CountsRun(s, front), e);
        k := |CountsRun(s, events).queue|;
      } else {
        k := LastRunOk(s, front);
        AheadStep(CountsRun(s, front), k, e);
        k := OneLess(k, e);
      }
    }
  }

  predicate NoDeletionQueued(queue: seq<Command>) {
    forall i :: 0 <= i < |queue| ==> queue[i].Set?
  }

  /**
   Over every run whose last invalidation finds nothing old, whatever the earlier ones found: once its
   deletion is delivered, the stored counts are no older, in any source, than that invalidation. If every
   invalidation of the run finds nothing old, they are at no moment older than the last deletion Redis
   applied. And at most one walk is in flight.
   */
  lemma CountsNeverStale(data: Reads, events: seq<CountsEvent>)
    requires CountsLegal(CountsStart(data), events)
    ensures var s := CountsRun(CountsStart(data), events);
            && |s.core.walks| <= 1
            && (LastCountsFindNothingOld(CountsStart(data), events) && NoDeletionQueued(s.queue) && s.store.Some? ==>
                  AtLeast(s.store.value, s.core.floor))
            && (CountsClean(CountsStart(data), events) ==> CountsFresh(s))
  {
    var start, s := CountsStart(data), CountsRun(CountsStart(data), events);
    SyncedRun(start, events);
    OneWalk(s.core);
    if LastCountsFindNothingOld(start, events) && NoDeletionQueued(s.queue) {
      var k := LastRunOk(start, events);
      assert k == 0;
      NothingDeleted(s.delivered, s.queue);
    }
    if CountsClean(start, events) {
      CountsRunOk(start, events);
    }
  }

  lemma {:induction false} NothingDeleted(delivered: Reads, queue: seq<Command>)
    requires NoDeletionQueued(queue)
    ensures LastFloor(delivered, queue) == delivered
  {
    if queue != [] {
      NothingDeleted(delivered, queue[..|queue| - 1]);
    }
  }

  // ── What holds whatever the identity cache holds ──────────────────────────

  function LivePart(r: Reads): Reads {
    map k: Source | k in r && k.Live? :: r[k]
  }

  function LiveCommand(c: Command): Command {
    if c.Set? then Set(LivePart(c.value)) else c
  }

  function LiveQueue(queue: seq<Command>): (r: seq<Command>)
    ensures |r| == |queue| && forall i :: 0 <= i < |queue| ==> r[i] == LiveCommand(queue[i])
  {
    seq(|queue|, i requires 0 <= i < |queue| => LiveCommand(queue[i]))
  }

  /** The state as far as the live sources go. */
  function LiveView(s: Counts): Counts {
    s.(store := if s.store.Some? then Some(LivePart(s.store.value)) else None, queue := LiveQueue(s.queue))
  }

  /** No walk of this generation at work has read a live source before the floor. */
  ghost predicate LiveWalks(c: Core, floor: Reads) {
    forall id :: Current(c, id) ==> AtLeast(LivePart(c.walks[id].seen), floor)
  }

  /**
   In every live source: stored counts are no older than the last deletion delivered, queued writes no older
   than the deletion before them, walks of this generation no older than the floor.
   */
  ghost predicate CountsLiveOk(s: Counts) {
    && Synced(s) && LiveWalks(s.core, s.core.floor)
    && CountsFresh(LiveView(s)) && QueueOk(s.delivered, LiveView(s).queue)
  }

  /** What the invalidation without a new generation must find for that. */
  ghost predicate BundlesFindLiveWalks(s: Counts, events: seq<CountsEvent>)
    requires CountsLegal(s, events)
    decreases |events|
  {
    events == [] ||
    var front, last := events[..|events| - 1], events[|events| - 1];
    && BundlesFindLiveWalks(s, front)
    && (last.BundleInvalidate? ==> LiveWalks(CountsRun(s, front).core, CountsRun(s, front).core.data))
  }

  lemma LiveWalksStep(c: Core, e: Event)
    requires CoreOk(c) && Enabled(c, e) && !e.Invalidate? && LiveWalks(c, c.floor)
    ensures LiveWalks(Next(c, e), c.floor)
  {
    match e
    case Invalidate(_) =>
    case Look(id, name) => LiveWalksLook(c, id, name);
    case ScanEnd(sid) => LiveWalksScanEnd(c, sid);
    case Read(hit) => if !hit { LiveWalksRead(c); }
    case _ => LiveWalksFewer(c, Next(c, e));
  }

  lemma LiveWalksFewer(c: Core, d: Core)
    requires LiveWalks(c, c.floor)
    requires forall id :: Current(d, id) ==> Current(c, id) && d.walks[id].seen == c.walks[id].seen
    ensures LiveWalks(d, c.floor)
  {
  }

  lemma LiveWalksLook(c: Core, id: nat, name: string)
    requires CoreOk(c) && Running(c, id) && LiveWalks(c, c.floor)
    ensures LiveWalks(Looked(c, id, Live(name)), c.floor)
  {
    var d := Looked(c, id, Live(name));
    forall j | Current(d, j) ensures AtLeast(LivePart(d.walks[j].seen), c.floor) {
      assert Current(c, j);
      assert Get(c.data, Live(name)) >= Get(c.floor, Live(name));
    }
  }

  lemma LiveWalksScanEnd(c: Core, sid: nat)
    requires CoreOk(c) && sid in c.scans && LiveWalks(c, c.floor)
    ensures LiveWalks(ScanEnded(c, sid), c.floor)
  {
    var d := ScanEnded(c, sid);
    forall j | Current(d, j) ensures AtLeast(LivePart(d.walks[j].seen), c.floor) {
      assert Current(c, j);
      PagesAside(c.walks[j].seen, c.scans[sid].seen);
    }
  }

  lemma PagesAside(seen: Reads, pages: Reads)
    requires OnlyPages(pages)
    ensures LivePart(seen + pages) == LivePart(seen)
  {
  }

  lemma LiveWalksRead(c: Core)
    requires CoreOk(c) && LiveWalks(c, c.floor)
    ensures LiveWalks(Refreshed(c), c.floor)
  {
    var d := Refreshed(c);
    forall j | Current(d, j) ensures AtLeast(LivePart(d.walks[j].seen), c.floor) {
      if j in c.walks {
        assert Current(c, j);
      } else {
        PagesAside(map[], c.bindings.GetOr(map[]));
        assert map[] + c.bindings.GetOr(map[]) == c.bindings.GetOr(map[]);
      }
    }
  }

  lemma {:induction false} LiveLastFloor(delivered: Reads, queue: seq<Command>)
    ensures LastFloor(delivered, LiveQueue(queue)) == LastFloor(delivered, queue)
  {
    if queue != [] {
      LiveLastFloor(delivered, queue[..|queue| - 1]);
      assert LiveQueue(queue)[..|queue| - 1] == LiveQueue(queue[..|queue| - 1]);
    }
  }

  /** One more command: a write must not be older, in any live source, than the floor. */
  lemma LiveEnqueueOk(s: Counts, c: Command)
    requires Synced(s) && QueueOk(s.delivered, LiveQueue(s.queue))
    requires c.Set? ==> AtLeast(LivePart(c.value), s.core.floor)
    ensures QueueOk(s.delivered, LiveQueue(s.queue + [c]))
  {
    LiveLastFloor(s.delivered, s.queue);
    EnqueueOk(s.delivered, LiveQueue(s.queue), LiveCommand(c));
    assert LiveQueue(s.queue + [c]) == LiveQueue(s.queue) + [LiveCommand(c)];
  }

  lemma LiveSharedOk(s: Counts, e: Event)
    requires CountsLiveOk(s) && CountsEnabled(s, Shared(e))
    ensures CountsLiveOk(CountsNext(s, Shared(e)))
  {
    SyncedStep(s, Shared(e));
    if e.Invalidate? {
      assert forall id :: !Current(Next(s.core, e), id);
      LiveEnqueueOk(s, Del(s.core.data));
    } else {
      LiveWalksStep(s.core, e);
      SameFloor(s.core, e);
      if e.Publish? && Current(s.core, e.id) {
        LiveEnqueueOk(s, Set(s.core.walks[e.id].seen));
      }
    }
  }

  lemma LiveStepOk(s: Counts, e: CountsEvent)
    requires CountsLiveOk(s) && CountsEnabled(s, e)
    requires e.BundleInvalidate? ==> LiveWalks(s.core, s.core.data)
    ensures CountsLiveOk(CountsNext(s, e))
  {
    SyncedStep(s, e);
    match e
    case Shared(c) => LiveSharedOk(s, c);
    case Deliver =>
      DeliverOk(LiveView(s));
      assert LiveQueue(s.queue)[1..] == LiveQueue(s.queue[1..]);
    case Expire =>
    case BundleInvalidate =>
      assert forall id :: Current(CountsNext(s, e).core, id) <==> Current(s.core, id);
      LiveEnqueueOk(s, Del(s.core.data));
  }

  /**
   Over every run, with no condition on what its invalidations with a new generation find: in every live
   source the stored counts are no older than the last deletion Redis applied, and queued writes no older than
   the deletion before them; the last deletion issued carries the floor; and there are never two walks at
   once. The invalidation without a new generation may occur where no walk at work has read an old live source.
   */
  lemma {:induction false} CountsLiveNeverStale(data: Reads, events: seq<CountsEvent>)
    requires CountsLegal(CountsStart(data), events) && BundlesFindLiveWalks(CountsStart(data), events)
    ensures CountsLiveOk(CountsRun(CountsStart(data), events))
    ensures |CountsRun(CountsStart(data), events).core.walks| <= 1
  {
    if events != [] {
      var front, e := events[..|events| - 1], events[|events| - 1];
      CountsLiveNeverStale(data, front);
      LiveStepOk(CountsRun(CountsStart(data), front), e);
    }
    OneWalk(CountsRun(CountsStart(data), events).core);
  }

  // ── Exactly when an invalidation does its work ────────────────────────────

  /** Whatever comes next, from the `k`th delivery on, the stored counts stay fresh until another invalidation. */
  ghost predicate CountsFreshUntilNext(s: Counts, k: nat) {
    forall events :: CountsLegal(s, events) && Uninvalidated(events) && Deliveries(events) >= k ==>
      CountsFresh(CountsRun(s, events))
  }

  /** And through later ones that find nothing old. */
  ghost predicate CountsFreshFromNowOn(s: Counts, k: nat) {
    forall events :: CountsLegal(s, events) && CountsClean(s, events) && Deliveries(events) >= k ==>
      CountsFresh(CountsRun(s, events))
  }

  predicate Uninvalidated(events: seq<CountsEvent>) {
    forall i :: 0 <= i < |events| ==> !Invalidates(events[i])
  }

  lemma {:induction false} UninvalidatedIsClean(s: Counts, events: seq<CountsEvent>)
    requires CountsLegal(s, events) && Uninvalidated(events)
    ensures CountsClean(s, events)
  {
    if events != [] {
      UninvalidatedIsClean(s, events[..|events| - 1]);
    }
  }

  lemma OkStaysFresh(s: Counts, k: nat)
    requires OkAfter(s, k)
    ensures CountsFreshUntilNext(s, k) && CountsFreshFromNowOn(s, k)
  {
    forall events | CountsLegal(s, events) && CountsClean(s, events) && Deliveries(events) >= k
      ensures CountsFresh(CountsRun(s, events))
    {
      AheadRun(s, k, events);
    }
    FromNowOnIsStronger(s, k);
  }

  lemma FromNowOnIsStronger(s: Counts, k: nat)
    ensures CountsFreshFromNowOn(s, k) ==> CountsFreshUntilNext(s, k)
  {
    forall events | CountsLegal(s, events) && Uninvalidated(events) ensures CountsClean(s, events) {
      UninvalidatedIsClean(s, events);
    }
  }

  function Lifted(events: seq<Event>): (r: seq<CountsEvent>)
    ensures |r| == |events| && forall i :: 0 <= i < |events| ==> r[i] == Shared(events[i])
  {
    seq(|events|, i requires 0 <= i < |events| => Shared(events[i]))
  }

  lemma LaterIsWeaker(s: Counts, k: nat)
    ensures CountsFreshFromNowOn(s, 0) ==> CountsFreshFromNowOn(s, k)
  {
  }

  /** Quiet steps of the walks touch neither the stored counts nor the queue. */
  lemma {:induction false} QuietCounts(s: Counts, events: seq<Event>)
    requires Legal(s.core, events) && AllQuiet(events)
    ensures CountsLegal(s, Lifted(events)) && Uninvalidated(Lifted(events))
    ensures CountsRun(s, Lifted(events)) == s.(core := Run(s.core, events))
  {
    if events != [] {
      var n := |events| - 1;
      QuietCounts(s, events[..n]);
      assert Quiet(events[n]);
      CountsSnoc(s, Lifted(events[..n]), Shared(events[n]));
      assert Lifted(events[..n]) + [Shared(events[n])] == Lifted(events);
    }
  }

  /** Redis catching up: after as many deliveries as there are commands, the last write is stored. */
  lemma {:induction false} Drain(s: Counts, events: seq<CountsEvent>) returns (more: seq<CountsEvent>)
    requires CountsLegal(s, events) && Uninvalidated(events)
    requires var t := CountsRun(s, events); t.queue != [] && t.queue[|t.queue| - 1].Set?
    ensures CountsLegal(s, more) && Uninvalidated(more)
    ensures var t, u := CountsRun(s, events), CountsRun(s, more);
            && u.queue == [] && u.store == Some(t.queue[|t.queue| - 1].value)
            && u.delivered == LastFloor(t.delivered, t.queue)
    decreases |CountsRun(s, events).queue|
  {
    var t := CountsRun(s, events);
    CountsSnoc(s, events, Deliver);
    LastFloorTail(t.delivered, t.queue);
    more := events + [Deliver];
    if |t.queue| > 1 {
      more := Drain(s, more);
    }
  }

  /** Nothing queued is lost: it is delivered, or still queued. */
  lemma {:induction false} QueueLeft(s: Counts, events: seq<CountsEvent>)
    requires CountsLegal(s, events)
    ensures Deliveries(events) + |CountsRun(s, events).queue| >= |s.queue|
  {
    if events != [] {
      QueueLeft(s, events[..|events| - 1]);
    }
  }

  /** A walk about to publish something old will have it stored. */
  lemma OldIsStored(s: Counts, quiet: seq<Event>, id: nat) returns (events: seq<CountsEvent>)
    requires Synced(s)
    requires AllQuiet(quiet) && Legal(s.core, quiet) && Run(s.core, quiet).floor == s.core.floor
    requires AboutToPublishOld(Run(s.core, quiet), id)
    ensures CountsLegal(s, events) && Uninvalidated(events) && Deliveries(events) >= |s.queue|
    ensures !CountsFresh(CountsRun(s, events))
  {
    QuietCounts(s, quiet);
    var t := CountsRun(s, Lifted(quiet));
    CountsSnoc(s, Lifted(quiet), Shared(Publish(id)));
    var u := CountsRun(s, Lifted(quiet) + [Shared(Publish(id))]);
    assert u.queue == s.queue + [Set(t.core.walks[id].seen)];
    assert u.queue[..|u.queue| - 1] == s.queue;
    events := Drain(s, Lifted(quiet) + [Shared(Publish(id))]);
    QueueLeft(s, events);
  }

  /** Something old left behind is stored in the end, however long one waits. */
  lemma DirtyIsStored(s: Counts)
    requires Synced(s) && !Clean(s.core)
    ensures !CountsFreshUntilNext(s, |s.queue|)
  {
    var events: seq<CountsEvent>;
    if OldPages(s.core) {
      var quiet, id := OldPagesArePublished(s.core);
      events := OldIsStored(s, quiet, id);
    } else {
      var id :| Current(s.core, id) && !AtLeast(s.core.walks[id].seen, s.core.floor);
      var quiet := OldWalkPublishes(s.core, id);
      events := OldIsStored(s, quiet, id);
    }
  }

  /**
   Any invalidation, after whatever history: it keeps its promise from the delivery of its deletion on,
   until the next one and from then on, exactly when it finds nothing old.
   */
  lemma InvalidationExactly(s: Counts, e: CountsEvent)
    requires Synced(s) && Invalidates(e)
    ensures var t := CountsNext(s, e);
            && (CountsFreshUntilNext(t, |t.queue|) <==> FindsNothingOld(s.core, e))
            && (CountsFreshFromNowOn(t, |t.queue|) <==> FindsNothingOld(s.core, e))
            && (CountsOk(s) ==> (CountsFreshFromNowOn(t, 0) <==> FindsNothingOld(s.core, e)))
  {
    var t := CountsNext(s, e);
    SyncedStep(s, e);
    InvalidationStartsAfresh(s, e);
    if FindsNothingOld(s.core, e) {
      OkStaysFresh(t, |t.queue|);
      if CountsOk(s) {
        CountsStepOk(s, e);
        OkStaysFresh(t, 0);
      }
    } else {
      assert !Clean(t.core) by {
        assert t.queue[|t.queue|..] == [];
      }
      DirtyIsStored(t);
      FromNowOnIsStronger(t, |t.queue|);
      LaterIsWeaker(t, |t.queue|);
    }
  }

  /**
   The invalidation with a new generation keeps its promise, on every run that follows the delivery of its
   deletion, exactly when it finds no old identity page.
   */
  lemma StatsInvalidationExactly(s: Counts, nulls: bool)
    requires Synced(s)
    ensures var t := CountsNext(s, Shared(Invalidate(nulls)));
            && (CountsFreshUntilNext(t, |t.queue|) <==> PagesCurrent(s.core, nulls))
            && (CountsFreshFromNowOn(t, |t.queue|) <==> PagesCurrent(s.core, nulls))
            && (CountsOk(s) ==> (CountsFreshFromNowOn(t, 0) <==> PagesCurrent(s.core, nulls)))
  {
    InvalidationExactly(s, Shared(Invalidate(nulls)));
  }

  /**
   The invalidation without one keeps it exactly when, besides, no walk of this generation still at work
   has read anything old. A walk that is settled does no harm: its result is queued before the deletion.
   */
  lemma BundleInvalidateExactly(s: Counts)
    requires Synced(s)
    ensures var t, clean := CountsNext(s, BundleInvalidate), PagesCurrent(s.core, false) && WalksCurrent(s.core);
            && (CountsFreshUntilNext(t, |t.queue|) <==> clean)
            && (CountsFreshFromNowOn(t, |t.queue|) <==> clean)
            && (CountsOk(s) ==> (CountsFreshFromNowOn(t, 0) <==> clean))
  {
    InvalidationExactly(s, BundleInvalidate);
  }

  /** What goes wrong otherwise, whatever is queued: the walk's old result is stored after the deletion. */
  lemma BundleInvalidateOvertaken(s: Counts, id: nat) returns (events: seq<CountsEvent>)
    requires Synced(s) && Current(s.core, id) && !AtLeast(s.core.walks[id].seen, s.core.data)
    ensures var t := CountsNext(s, BundleInvalidate);
            && CountsLegal(t, events) && Uninvalidated(events) && Deliveries(events) >= |t.queue|
            && var u := CountsRun(t, events);
            u.store.Some? && !AtLeast(u.store.value, u.delivered)
  {
    var t := CountsNext(s, BundleInvalidate);
    SyncedStep(s, BundleInvalidate);
    assert Current(t.core, id);
    var quiet := OldWalkPublishes(t.core, id);
    events := OldIsStored(t, quiet, id);
  }

  /** It happens: a membership changes under a scan, and not even dropping the identity cache helps. */
  lemma OldScanDefeatsStatsInvalidation(page: nat)
    ensures var events := [Shared(ScanStart), Shared(ScanPage(0, page)), Shared(Mutate(Page(page)))];
            && CountsLegal(CountsStart(map[]), events)
            && var s := CountsRun(CountsStart(map[]), events);
            CountsOk(s) && !CountsFreshUntilNext(CountsNext(s, Shared(Invalidate(true))), |s.queue| + 1)
  {
    var s := ChangeUnderScan(page);
    CountsRunOk(CountsStart(map[]), [Shared(ScanStart), Shared(ScanPage(0, page)), Shared(Mutate(Page(page)))]);
    assert !PagesCurrent(s.core, true);
    StatsInvalidationExactly(s, true);
  }

  lemma ChangeUnderScan(page: nat) returns (s: Counts)
    ensures var events := [Shared(ScanStart), Shared(ScanPage(0, page)), Shared(Mutate(Page(page)))];
            && CountsLegal(CountsStart(map[]), events) && CountsClean(CountsStart(map[]), events)
            && s == CountsRun(CountsStart(map[]), events)
    ensures 0 in s.core.scans && !AtLeast(s.core.scans[0].seen, s.core.data)
  {
    var start := CountsStart(map[]);
    var e0, e1, e2 := Shared(ScanStart), Shared(ScanPage(0, page)), Shared(Mutate(Page(page)));
    CountsSnoc(start, [], e0);
    assert [] + [e0] == [e0];
    CountsSnoc(start, [e0], e1);
    assert [e0] + [e1] == [e0, e1];
    CountsSnoc(start, [e0, e1], e2);
    assert [e0, e1] + [e2] == [e0, e1, e2];
    s := CountsRun(start, [e0, e1, e2]);
    assert s.core.scans[0].seen[Page(page)] == 0 && Get(s.core.data, Page(page)) == 1;
  }

  // ── The service ───────────────────────────────────────────────────────────

  /**
   The statistics side of the service; `store`, `queue` and `delivered` stand for Redis, `bindings` and
   `scans` for the directory client, `data` and `floor` for the sources.
   */
  class DirectoryStatsCache {
    var statsRefresh: Option<nat>
    var statsEpoch: nat
    var walks: map<nat, Walk>
    var nextId: nat
    var bindings: Option<Reads>
    var scans: map<nat, Scan>
    var nextScan: nat
    var store: Option<Reads>
    var queue: seq<Command>
    var data: Reads
    var floor: Reads
    var delivered: Reads

    ghost function C(): Core
      reads this
    {
      Core(statsEpoch, data, floor, walks, statsRefresh, nextId, bindings, scans, nextScan)
    }

    ghost function S(): Counts
      reads this
    {
      Counts(C(), store, queue, delivered)
    }

    constructor (data: Reads)
      ensures S() == CountsStart(data)
    {
      statsRefresh, statsEpoch, walks, nextId, store, queue := None, 0, map[], 0, None, [];
      bindings, scans, nextScan := None, map[], 0;
      this.data, floor, delivered := data, data, data;
    }

    /** The generation moves before the deletion is issued; the identity cache is dropped in between. */
    method InvalidateDirectoryStats()
      modifies this
      ensures S() == CountsNext(old(S()), Shared(Invalidate(true)))
    {
      statsEpoch := statsEpoch + 1;
      bindings := None;
      queue := queue + [Del(data)];
      floor := data;
    }

    method InvalidateBundle()
      modifies this
      ensures S() == CountsNext(old(S()), BundleInvalidate)
    {
      queue := queue + [Del(data)];
      floor := data;
    }

    method GetDirectoryStats(stale: bool) returns (served: Option<Reads>, waitFor: Option<nat>)
      modifies this
      ensures served == old(store) && (served.Some? <==> waitFor.None?)
      ensures S() == CountsNext(old(S()), Shared(Read(old(store).Some? && !stale)))
    {
      if store.Some? {
        if stale {
          var _ := RefreshDirectoryStats();
        }
        return store, None;
      }
      var id := RefreshDirectoryStats();
      return None, Some(id);
    }

    method RefreshDirectoryStats() returns (id: nat)
      modifies this
      ensures S() == old(S()).(core := Refreshed(old(C())))
    {
      if statsRefresh.Some? {
        return statsRefresh.value;
      }
      id := nextId;
      walks := walks[id := Walk(statsEpoch, bindings.GetOr(map[]), false)];
      if bindings.None? {
        scans := scans[nextScan := Scan(Some(id), map[])];
        nextScan := nextScan + 1;
      }
      nextId := nextId + 1;
      statsRefresh := Some(id);
    }

    method Finish(id: nat)
      requires Enabled(C(), Publish(id))
      modifies this
      ensures S() == CountsNext(old(S()), Shared(Publish(id)))
    {
      if statsEpoch == walks[id].startEpoch {
        queue := queue + [Set(walks[id].seen)];
      }
      walks := walks[id := walks[id].(settled := true)];
    }

    method ClearSlot(id: nat)
      requires id in walks && walks[id].settled
      modifies this
      ensures S() == CountsNext(old(S()), Shared(Clear(id)))
    {
      if statsRefresh == Some(id) {
        statsRefresh := None;
      }
      walks := walks - {id};
    }
  }
}
