/**
 The two caches do fill: what a walk that nothing disturbs has read, live or from the identity cache, is what the next
 reader is served.
 */
module CacheProgress {
  import opened Prelude
  import opened Counters
  import opened Walks
  import opened Caches
  import opened DirectoryCounts

  /**
   The walk a waiting reader starts: it reads one live source, and one identity page through a scan of its own unless
   the identity cache spares it that.
   */
  function Walked(c: Core, name: string, page: nat): Core
    requires c.inflight.None? && Enabled(c, Read(false))
  {
    var begun := Next(c, Event.Read(false));
    var looked := Looked(begun, c.nextId, Live(name));
    if c.bindings.Some? then looked
    else ScanEnded(PageRead(looked, c.nextScan, Page(page)), c.nextScan)
  }

  /** The identity pages that walk is given. */
  function PagesGiven(c: Core, page: nat): Reads {
    if c.bindings.Some? then c.bindings.value else map[Page(page) := Get(c.data, Page(page))]
  }

  /** What a finished walk of `c` looks like. */
  ghost predicate HasRead(c: Core, w: Core, name: string, page: nat) {
    var id := c.nextId;
    && Current(w, id) && !Scanning(w, id) && w.inflight == Some(id)
    && w.walks[id].seen == PagesGiven(c, page)[Live(name) := Get(c.data, Live(name))]
    && w.bindings == Some(PagesGiven(c, page))
    && w.data == c.data && w.floor == c.floor && w.epoch == c.epoch
  }

  /** It has read what was there, and the identity cache holds the pages it was given. */
  lemma WalkReadsWhatIsThere(c: Core, name: string, page: nat)
    requires CoreOk(c) && c.inflight.None?
    ensures HasRead(c, Walked(c, name, page), name, page)
  {
    if c.bindings.Some? {
      FromTheCache(c, name, page);
    } else {
      ByItsOwnScan(c, name, page);
    }
  }

  lemma FromTheCache(c: Core, name: string, page: nat)
    requires CoreOk(c) && c.inflight.None? && c.bindings.Some?
    ensures HasRead(c, Walked(c, name, page), name, page)
  {
    NobodyElseScans(c, c.scans);
  }

  lemma ByItsOwnScan(c: Core, name: string, page: nat)
    requires CoreOk(c) && c.inflight.None? && c.bindings.None?
    ensures HasRead(c, Walked(c, name, page), name, page)
  {
    var looked := Looked(Next(c, Event.Read(false)), c.nextId, Live(name));
    LookedAlone(c, name);
    ScanHandsOver(c, looked, name, page);
  }

  /** A walk with a scan of its own that has read the one live source. */
  ghost predicate HasLooked(c: Core, w: Core, name: string) {
    w == c.(walks := c.walks[c.nextId := Walk(c.epoch, map[Live(name) := Get(c.data, Live(name))], false)],
            inflight := Some(c.nextId), nextId := c.nextId + 1,
            scans := c.scans[c.nextScan := Scan(Some(c.nextId), map[])], nextScan := c.nextScan + 1)
  }

  lemma LookedAlone(c: Core, name: string)
    requires c.inflight.None? && c.bindings.None?
    ensures HasLooked(c, Looked(Next(c, Event.Read(false)), c.nextId, Live(name)), name)
  {
    assert map[][Live(name) := Get(c.data, Live(name))] == map[Live(name) := Get(c.data, Live(name))];
  }

  lemma ScanHandsOver(c: Core, looked: Core, name: string, page: nat)
    requires CoreOk(c) && c.inflight.None? && c.bindings.None? && HasLooked(c, looked, name)
    ensures HasRead(c, ScanEnded(PageRead(looked, c.nextScan, Page(page)), c.nextScan), name, page)
  {
    var live, at := Get(c.data, Live(name)), Get(c.data, Page(page));
    var read := PageRead(looked, c.nextScan, Page(page));
    assert read.scans == c.scans[c.nextScan := Scan(Some(c.nextId), map[Page(page) := at])];
    assert map[Live(name) := live] + map[Page(page) := at] == map[Page(page) := at][Live(name) := live];
    assert read.scans - {c.nextScan} == c.scans by {
      assert c.nextScan !in c.scans;
    }
    NobodyElseScans(c, c.scans);
  }

  /** No scan is for a walk that has not begun. */
  lemma NobodyElseScans(c: Core, scans: map<nat, Scan>)
    requires ScansOk(c) && scans == c.scans
    ensures forall sid :: sid in scans ==> scans[sid].owner != Some(c.nextId)
  {
  }

  /** The review: the finished walk is cached, its slot is freed, and a reader is served without another walk. */
  lemma ReviewFills(s: Review, name: string, page: nat)
    requires CoreOk(s.core) && s.core.inflight.None?
    ensures var id, walked := s.core.nextId, Review(Walked(s.core, name, page), s.cache);
            && ReviewEnabled(walked, Publish(id))
            && var kept := ReviewNext(walked, Publish(id));
            && kept.cache == Some(PagesGiven(s.core, page)[Live(name) := Get(s.core.data, Live(name))])
            && ReviewEnabled(kept, Clear(id))
            && var free := ReviewNext(kept, Clear(id));
            && free.core.inflight.None? && free.cache == kept.cache
            && ReviewEnabled(free, Event.Read(true)) && ReviewNext(free, Event.Read(true)) == free
  {
    WalkReadsWhatIsThere(s.core, name, page);
    PublishedAndFreed(Review(Walked(s.core, name, page), s.cache), s.core.nextId);
  }

  /** A finished walk of this generation, on its own in the slot. */
  lemma PublishedAndFreed(s: Review, id: nat)
    requires Current(s.core, id) && !Scanning(s.core, id) && s.core.inflight == Some(id)
    ensures ReviewEnabled(s, Publish(id))
    ensures var kept := ReviewNext(s, Publish(id));
            && kept.cache == Some(s.core.walks[id].seen) && ReviewEnabled(kept, Clear(id))
            && var free := ReviewNext(kept, Clear(id));
            && free.core.inflight.None? && free.cache == kept.cache
            && ReviewEnabled(free, Event.Read(true)) && ReviewNext(free, Event.Read(true)) == free
  {
  }

  /** The counts: the same, once Redis has applied the one command. */
  lemma CountsFill(s: Counts, name: string, page: nat)
    requires CoreOk(s.core) && s.core.inflight.None? && s.queue == []
    ensures var id, walked := s.core.nextId, s.(core := Walked(s.core, name, page));
            && CountsEnabled(walked, Shared(Publish(id)))
            && var kept := CountsNext(walked, Shared(Publish(id)));
            && CountsEnabled(kept, Deliver)
            && var stored := CountsNext(kept, Deliver);
            && stored.store == Some(PagesGiven(s.core, page)[Live(name) := Get(s.core.data, Live(name))])
            && stored.queue == [] && stored.delivered == s.delivered
  {
    WalkReadsWhatIsThere(s.core, name, page);
  }

  /** A second reader joins the walk under way, and a walk overtaken by an invalidation publishes nothing. */
  lemma OvertakenPublishesNothing(s: Review, id: nat, nulls: bool)
    requires CoreOk(s.core) && Running(s.core, id) && !Scanning(s.core, id)
    ensures ReviewNext(s, Event.Read(false)) == s
    ensures var gone := ReviewNext(s, Invalidate(nulls));
            && gone.cache.None? && ReviewEnabled(gone, Publish(id)) && ReviewNext(gone, Publish(id)).cache.None?
            && gone.core.bindings == if nulls then None else s.core.bindings
  {
  }
}
