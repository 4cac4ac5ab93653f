/**
 The windowed audit summary: one pass over the rows of the stream, many counters, and the laws that tie them
 together.
 */
module AuditSummary {
  import opened Prelude
  import opened Counters
  import opened Ranking

  /**
   A stream row; an absent field is the empty string. `actor`: the email in the actor document, if it parses to
   one.
   */
  datatype Row = Row(ms: nat, category: string, kind: string, result: string, target: string, actor: Option<string>)

  datatype Tallies = Tallies(total: nat, failed: nat)

  datatype Summary = Summary(
    total: nat, prevTotal: nat, failed: nat,
    byKind: map<string, nat>, byCategory: map<string, Tallies>, byResult: map<string, nat>,
    denied: map<string, nat>, actors: map<string, nat>, activeActors: set<string>, series: map<nat, nat>,
    failureRate: real)

  // ── How a row is read ─────────────────────────────────────────────────────

  /** Legacy categories folded into the canonical ones. */
  function FoldCategory(c: string): (r: string)
    ensures r !in {"roles", "api_key", "user", "organization_user"}
    ensures c !in {"roles", "api_key", "user", "organization_user"} ==> r == c
  {
    if c == "roles" then "rbac"
    else if c == "api_key" then "secret"
    else if c == "user" || c == "organization_user" then "access"
    else c
  }

  function Or(s: string, default: string): string {
    if s == "" then default else s
  }

  function CategoryOf(r: Row): string {
    FoldCategory(Or(r.category, "system"))
  }

  /** A row without a kind gets one from its category. */
  function KindOf(r: Row): string {
    var cat := CategoryOf(r);
    Or(r.kind, if cat == "access" || cat == "auth" || cat == "system" then cat else "change")
  }

  function ResultOf(r: Row): string {
    Or(r.result, "ok")
  }

  predicate Failing(result: string) {
    result == "denied" || result == "error" || result == "failed"
  }

  function BucketMs(windowMs: nat): (b: nat)
    ensures b >= 60_000
  {
    if windowMs / 24 >= 60_000 then windowMs / 24 else 60_000
  }

  /** What one row contributes. */
  datatype Reading = Reading(
    current: bool, kind: string, result: string, category: string, target: string, actor: Option<string>, bucket: nat)

  function ReadingOf(r: Row, now: int, windowMs: nat): Reading {
    Reading(r.ms >= now - windowMs, KindOf(r), ResultOf(r), CategoryOf(r), Or(r.target, "—"),
            if r.actor == Some("") then None else r.actor, r.ms / BucketMs(windowMs) * BucketMs(windowMs))
  }

  function Readings(rows: seq<Row>, now: int, windowMs: nat): seq<Reading> {
    seq(|rows|, i requires 0 <= i < |rows| => ReadingOf(rows[i], now, windowMs))
  }

  /**
   How a row is read. The window reaches back to its limit inclusive; an absent result is a success, an absent
   category the system's, an absent kind the category's own or else a change; legacy categories are folded; the
   bucket is the row's time rounded down to a 24th of the window, at least a minute.
   */
  lemma ReadAs(r: Row, now: int, windowMs: nat)
    ensures var x := ReadingOf(r, now, windowMs);
            && (x.current <==> now - r.ms <= windowMs)
            && x.result == (if r.result == "" then "ok" else r.result)
            && (x.category == "rbac" <==> r.category == "rbac" || r.category == "roles")
            && (x.category == "secret" <==> r.category == "secret" || r.category == "api_key")
            && (x.category == "access" <==>
                 r.category == "access" || r.category == "user" || r.category == "organization_user")
            && (x.category == "system" <==> r.category == "system" || r.category == "")
            && (x.category !in {"rbac", "secret", "access", "system"} ==> x.category == r.category)
            && x.kind == (if r.kind != "" then r.kind
                          else if x.category in {"access", "auth", "system"} then x.category else "change")
            && x.target == (if r.target == "" then "—" else r.target)
            && (forall a :: x.actor == Some(a) <==> r.actor == Some(a) && a != "")
    ensures var x, width := ReadingOf(r, now, windowMs), if windowMs / 24 >= 60_000 then windowMs / 24 else 60_000;
            x.bucket == r.ms - r.ms % width
  {
  }

  // ── Which readings each counter counts ────────────────────────────────────

  predicate Current(r: Reading) { r.current }
  predicate CurrentFailing(r: Reading) { r.current && Failing(r.result) }
  predicate CurrentDenied(r: Reading) { r.current && r.result == "denied" }

  /** A change or a sign-in by somebody other than the system itself. */
  predicate CurrentChange(r: Reading) {
    r.current && r.actor.Some? && (r.kind == "change" || r.kind == "auth") && r.actor.value != "system"
  }

  function Kind(r: Reading): string { r.kind }
  function ResultKey(r: Reading): string { r.result }
  function Category(r: Reading): string { r.category }
  function Target(r: Reading): string { r.target }
  function Actor(r: Reading): string { r.actor.GetOr("") }
  function Bucket(r: Reading): nat { r.bucket }

  function With<K(==)>(sel: Reading -> bool, key: Reading -> K, k: K): Reading -> bool {
    (r: Reading) => sel(r) && key(r) == k
  }

  /**
   The counter holds, key by key, the number of selected readings with that key; so its values sum to the number
   selected.
   */
  ghost predicate Counts<K(!new)>(counts: map<K, nat>, rs: seq<Reading>, sel: Reading -> bool, key: Reading -> K) {
    && (forall k :: Get(counts, k) == Count(rs, With(sel, key, k)))
    && Sum(counts) == Count(rs, sel)
  }

  function BumpIf<K>(m: map<K, nat>, k: K, yes: bool): map<K, nat> {
    if yes then Bump(m, k) else m
  }

  /** Counting one more reading: the counter of its key moves if the reading is selected. */
  lemma CountsMore<K(!new)>(before: map<K, nat>, after: map<K, nat>, rs: seq<Reading>, i: nat, sel: Reading -> bool,
      key: Reading -> K)
    requires i < |rs| && Counts(before, rs[..i], sel, key)
    requires after == BumpIf(before, key(rs[i]), sel(rs[i]))
             || after == before[key(rs[i]) := Get(before, key(rs[i])) + if sel(rs[i]) then 1 else 0]
    ensures Counts(after, rs[..i + 1], sel, key)
  {
    CountSnoc(rs, i, sel);
    var k0 := key(rs[i]);
    SumUpdate(before, k0, Get(after, k0));
    forall k ensures Get(after, k) == Count(rs[..i + 1], With(sel, key, k)) {
      CountSnoc(rs, i, With(sel, key, k));
    }
  }

  function Totals(m: map<string, Tallies>): map<string, nat> {
    map c | c in m :: m[c].total
  }

  function Fails(m: map<string, Tallies>): map<string, nat> {
    map c | c in m :: m[c].failed
  }

  // ── What every counter says about the readings ────────────────────────────

  ghost predicate Describes(s: Summary, rs: seq<Reading>) {
    && CountersDescribe(s, rs)
    && CategoriesDescribe(s.byCategory, rs)
    && (forall a :: a in s.activeActors <==> ActiveIn(rs, a))
  }

  ghost predicate CountersDescribe(s: Summary, rs: seq<Reading>) {
    NumbersDescribe(s, rs) && KeysDescribe(s, rs) && PeopleDescribe(s, rs)
  }

  ghost predicate NumbersDescribe(s: Summary, rs: seq<Reading>) {
    && s.total == Count(rs, Current) && s.prevTotal == |rs| - s.total
    && s.failed == Count(rs, CurrentFailing)
  }

  ghost predicate KeysDescribe(s: Summary, rs: seq<Reading>) {
    && Counts(s.byKind, rs, Current, Kind)
    && Counts(s.byResult, rs, Current, ResultKey)
    && Counts(s.series, rs, Current, Bucket)
  }

  ghost predicate PeopleDescribe(s: Summary, rs: seq<Reading>) {
    && Counts(s.denied, rs, CurrentDenied, Target)
    && Counts(s.actors, rs, CurrentChange, Actor)
  }

  ghost predicate CategoriesDescribe(m: map<string, Tallies>, rs: seq<Reading>) {
    Counts(Totals(m), rs, Current, Category) && Counts(Fails(m), rs, CurrentFailing, Category)
  }

  predicate ActiveIn(rs: seq<Reading>, a: string) {
    exists r :: r in rs && r.current && r.actor == Some(a)
  }

  // ── The pass ──────────────────────────────────────────────────────────────

  const EMPTY := Summary(0, 0, 0, map[], map[], map[], map[], map[], {}, map[], 0.0)

  lemma EmptyDescribes()
    ensures Describes(EMPTY, [])
  {
    assert Totals(map[]) == map[] && Fails(map[]) == map[];
  }

  /** The counters after one reading. */
  function Added(s: Summary, r: Reading): Summary {
    s.(total := s.total + if r.current then 1 else 0,
       prevTotal := s.prevTotal + if r.current then 0 else 1,
       failed := s.failed + if CurrentFailing(r) then 1 else 0,
       byKind := BumpIf(s.byKind, r.kind, r.current),
       byResult := BumpIf(s.byResult, r.result, r.current),
       byCategory := if r.current then AddedCategory(s.byCategory, r) else s.byCategory,
       denied := BumpIf(s.denied, r.target, CurrentDenied(r)),
       actors := BumpIf(s.actors, Actor(r), CurrentChange(r)),
       activeActors := if r.current && r.actor.Some? then s.activeActors + {r.actor.value} else s.activeActors,
       series := BumpIf(s.series, r.bucket, r.current))
  }

  lemma AddedByCase(s: Summary, r: Reading)
    ensures Added(s, r) == if r.current then AddedCurrent(s, r) else s.(prevTotal := s.prevTotal + 1)
  {
  }

  function AddedCurrent(s: Summary, r: Reading): Summary {
    s.(total := s.total + 1,
       failed := if Failing(r.result) then s.failed + 1 else s.failed,
       byKind := Bump(s.byKind, r.kind),
       byResult := Bump(s.byResult, r.result),
       byCategory := AddedCategory(s.byCategory, r),
       denied := BumpIf(s.denied, r.target, r.result == "denied"),
       actors := BumpIf(s.actors, Actor(r), CurrentChange(r)),
       activeActors := if r.actor.Some? then s.activeActors + {r.actor.value} else s.activeActors,
       series := Bump(s.series, r.bucket))
  }

  function AddedCategory(m: map<string, Tallies>, r: Reading): map<string, Tallies> {
    var t := if r.category in m then m[r.category] else Tallies(0, 0);
    m[r.category := Tallies(t.total + 1, t.failed + if Failing(r.result) then 1 else 0)]
  }

  lemma TotalsAdded(m: map<string, Tallies>, r: Reading)
    ensures Totals(AddedCategory(m, r)) == Bump(Totals(m), r.category)
  {
  }

  lemma FailsAdded(m: map<string, Tallies>, r: Reading)
    ensures Fails(AddedCategory(m, r))
            == Fails(m)[r.category := Get(Fails(m), r.category) + if Failing(r.result) then 1 else 0]
  {
  }

  lemma CategoriesMore(m: map<string, Tallies>, rs: seq<Reading>, i: nat)
    requires i < |rs| && CategoriesDescribe(m, rs[..i])
    ensures CategoriesDescribe(if rs[i].current then AddedCategory(m, rs[i]) else m, rs[..i + 1])
  {
    var after := if rs[i].current then AddedCategory(m, rs[i]) else m;
    CategoryTotalsMore(m, after, rs, i);
    CategoryFailsMore(m, after, rs, i);
  }

  lemma CategoryTotalsMore(m: map<string, Tallies>, after: map<string, Tallies>, rs: seq<Reading>, i: nat)
    requires i < |rs| && Counts(Totals(m), rs[..i], Current, Category)
    requires after == if rs[i].current then AddedCategory(m, rs[i]) else m
    ensures Counts(Totals(after), rs[..i + 1], Current, Category)
  {
    TotalsAdded(m, rs[i]);
    CountsMore(Totals(m), Totals(after), rs, i, Current, Category);
  }

  lemma CategoryFailsMore(m: map<string, Tallies>, after: map<string, Tallies>, rs: seq<Reading>, i: nat)
    requires i < |rs| && Counts(Fails(m), rs[..i], CurrentFailing, Category)
    requires after == if rs[i].current then AddedCategory(m, rs[i]) else m
    ensures Counts(Fails(after), rs[..i + 1], CurrentFailing, Category)
  {
    FailsAdded(m, rs[i]);
    CountsMore(Fails(m), Fails(after), rs, i, CurrentFailing, Category);
  }

  lemma ActiveMore(active: set<string>, rs: seq<Reading>, i: nat)
    requires i < |rs| && forall a :: a in active <==> ActiveIn(rs[..i], a)
    ensures var r := rs[i];
            var after := if r.current && r.actor.Some? then active + {r.actor.value} else active;
            forall a :: a in after <==> ActiveIn(rs[..i + 1], a)
  {
    assert rs[..i + 1] == rs[..i] + [rs[i]];
  }

  lemma NumbersMore(s: Summary, rs: seq<Reading>, i: nat)
    requires i < |rs| && NumbersDescribe(s, rs[..i])
    ensures NumbersDescribe(Added(s, rs[i]), rs[..i + 1])
  {
    CountSnoc(rs, i, Current);
    CountSnoc(rs, i, CurrentFailing);
  }

  lemma KeysMore(s: Summary, rs: seq<Reading>, i: nat)
    requires i < |rs| && KeysDescribe(s, rs[..i])
    ensures KeysDescribe(Added(s, rs[i]), rs[..i + 1])
  {
    var t := Added(s, rs[i]);
    CountsMore(s.byKind, t.byKind, rs, i, Current, Kind);
    CountsMore(s.byResult, t.byResult, rs, i, Current, ResultKey);
    CountsMore(s.series, t.series, rs, i, Current, Bucket);
  }

  lemma PeopleMore(s: Summary, rs: seq<Reading>, i: nat)
    requires i < |rs| && PeopleDescribe(s, rs[..i])
    ensures PeopleDescribe(Added(s, rs[i]), rs[..i + 1])
  {
    var t := Added(s, rs[i]);
    CountsMore(s.denied, t.denied, rs, i, CurrentDenied, Target);
    CountsMore(s.actors, t.actors, rs, i, CurrentChange, Actor);
  }

  lemma CountersMore(s: Summary, rs: seq<Reading>, i: nat)
    requires i < |rs| && CountersDescribe(s, rs[..i])
    ensures CountersDescribe(Added(s, rs[i]), rs[..i + 1])
  {
    NumbersMore(s, rs, i);
    KeysMore(s, rs, i);
    PeopleMore(s, rs, i);
  }

  lemma AddedDescribes(s: Summary, rs: seq<Reading>, i: nat)
    requires i < |rs| && Describes(s, rs[..i])
    ensures Describes(Added(s, rs[i]), rs[..i + 1])
  {
    CountersMore(s, rs, i);
    CategoriesMore(s.byCategory, rs, i);
    ActiveMore(s.activeActors, rs, i);
  }

  method Summarize(rows: seq<Row>, now: int, windowMs: nat) returns (s: Summary)
    ensures Describes(s, Readings(rows, now, windowMs))
    ensures s.failureRate == if s.total > 0 then s.failed as real / s.total as real else 0.0
  {
    ghost var rs := Readings(rows, now, windowMs);
    s := EMPTY;
    EmptyDescribes();
    for i := 0 to |rows|
      invariant Describes(s, rs[..i])
    {
      AddedDescribes(s, rs, i);
      s := CountReading(s, ReadingOf(rows[i], now, windowMs));
    }
    assert rs[..|rows|] == rs;
    s := s.(failureRate := if s.total > 0 then s.failed as real / s.total as real else 0.0);
  }

  /** The body of the pass, counter by counter. */
  method CountReading(s: Summary, r: Reading) returns (t: Summary)
    ensures t == Added(s, r)
  {
    AddedByCase(s, r);
    if !r.current {
      return s.(prevTotal := s.prevTotal + 1);
    }
    t := CountCurrent(s, r);
  }

  method CountCurrent(s: Summary, r: Reading) returns (t: Summary)
    requires r.current
    ensures t == AddedCurrent(s, r)
  {
    var byCategory := CountCategory(s.byCategory, r);
    var actors, activeActors := CountActor(s.actors, s.activeActors, r);
    var failed := if Failing(r.result) then s.failed + 1 else s.failed;
    var denied := CountDenied(s.denied, r);
    return s.(
      total := s.total + 1, failed := failed, byKind := Bump(s.byKind, r.kind), byCategory := byCategory,
      byResult := Bump(s.byResult, r.result), denied := denied, actors := actors, activeActors := activeActors,
      series := Bump(s.series, r.bucket));
  }

  method CountDenied(denied: map<string, nat>, r: Reading) returns (denied': map<string, nat>)
    ensures denied' == BumpIf(denied, r.target, r.result == "denied")
  {
    denied' := if r.result == "denied" then Bump(denied, r.target) else denied;
  }

  method CountCategory(m: map<string, Tallies>, r: Reading) returns (n: map<string, Tallies>)
    ensures n == AddedCategory(m, r)
  {
    n := m;
    if r.category !in n {
      n := n[r.category := Tallies(0, 0)];
    }
    n := n[r.category := n[r.category].(total := n[r.category].total + 1)];
    if Failing(r.result) {
      n := n[r.category := n[r.category].(failed := n[r.category].failed + 1)];
    }
  }

  method CountActor(actors: map<string, nat>, active: set<string>, r: Reading)
    returns (actors': map<string, nat>, active': set<string>)
    requires r.current
    ensures actors' == BumpIf(actors, Actor(r), CurrentChange(r))
    ensures active' == if r.actor.Some? then active + {r.actor.value} else active
  {
    actors', active' := actors, active;
    if r.actor.Some? {
      active' := active' + {r.actor.value};
      if (r.kind == "change" || r.kind == "auth") && r.actor.value != "system" {
        actors' := Bump(actors', r.actor.value);
      }
    }
  }

  // ── The lists ─────────────────────────────────────────────────────────────

  const TOP: nat := 10

  /** A counter's entries, each key once, in some order. */
  ghost predicate Listing<K(!new)>(es: seq<(K, nat)>, m: map<K, nat>) {
    && Distinct(es) && |es| == |m|
    && forall k, n :: (k, n) in es <==> k in m && m[k] == n
  }

  method EntriesOf<K(==,!new)>(m: map<K, nat>) returns (es: seq<(K, nat)>)
    ensures Listing(es, m)
  {
    es := [];
    var todo := m.Keys;
    while todo != {}
      invariant todo <= m.Keys && Distinct(es) && |es| + |todo| == |m.Keys|
      invariant forall k, n :: (k, n) in es <==> k in m && k !in todo && m[k] == n
    {
      var k :| k in todo;
      es, todo := es + [(k, m[k])], todo - {k};
    }
    assert |m| == |m.Keys|;
  }

  function MoreFirst<K>(): ((K, nat), (K, nat)) -> bool {
    (a: (K, nat), b: (K, nat)) => a.1 >= b.1
  }

  function EarlierFirst(): ((nat, nat), (nat, nat)) -> bool {
    (a: (nat, nat), b: (nat, nat)) => a.0 <= b.0
  }

  /** The ten largest entries of a counter, or all of them, largest first: whatever is left out is no larger. */
  ghost predicate TopOf(top: seq<(string, nat)>, counts: map<string, nat>) {
    && |top| == (if |counts| <= TOP then |counts| else TOP)
    && Distinct(top) && InOrder(top, MoreFirst())
    && (forall e :: e in top ==> e.0 in counts && counts[e.0] == e.1)
    && (forall k, e :: k in counts && (k, counts[k]) !in top && e in top ==> counts[k] <= e.1)
  }

  method TopTen(counts: map<string, nat>) returns (top: seq<(string, nat)>)
    ensures TopOf(top, counts)
  {
    var es := EntriesOf(counts);
    top := First(Ranked(es, MoreFirst()), TOP);
    FrontIsTop(es, counts);
  }

  lemma FrontIsTop(es: seq<(string, nat)>, counts: map<string, nat>)
    requires Listing(es, counts)
    ensures TopOf(First(Ranked(es, MoreFirst()), TOP), counts)
  {
    var ranked := Ranked(es, MoreFirst());
    RankedInOrder(es, MoreFirst());
    RankedDistinct(es, MoreFirst());
    RankedElements(es, MoreFirst());
    SameMembers(es, ranked);
    var top := First(ranked, TOP);
    assert forall e :: e in top ==> e in ranked && (e.0, e.1) == e;
    forall k, e | k in counts && (k, counts[k]) !in top && e in top ensures counts[k] <= e.1 {
      LeftOutIsSmaller(ranked, |top|, (k, counts[k]), e);
    }
  }

  lemma LeftOutIsSmaller(ranked: seq<(string, nat)>, n: nat, out: (string, nat), kept: (string, nat))
    requires n <= |ranked| && InOrder(ranked, MoreFirst())
    requires out in ranked && out !in ranked[..n] && kept in ranked[..n]
    ensures out.1 <= kept.1
  {
    var i :| 0 <= i < |ranked| && ranked[i] == out;
    var j :| 0 <= j < n && ranked[..n][j] == kept;
    assert MoreFirst()(ranked[j], ranked[i]);
  }

  /** The series: every bucket once, in time order. */
  method InTimeOrder(series: map<nat, nat>) returns (points: seq<(nat, nat)>)
    ensures Listing(points, series) && InOrder(points, EarlierFirst())
  {
    var es := EntriesOf(series);
    points := Ranked(es, EarlierFirst());
    RankedInOrder(es, EarlierFirst());
    RankedDistinct(es, EarlierFirst());
    RankedElements(es, EarlierFirst());
    SameMembers(es, points);
  }

  datatype Lists = Lists(series: seq<(nat, nat)>, topDenied: seq<(string, nat)>, topActors: seq<(string, nat)>)

  /** The whole reply: the counters, and the lists drawn from them. */
  method SummaryReply(rows: seq<Row>, now: int, windowMs: nat) returns (s: Summary, lists: Lists)
    ensures Describes(s, Readings(rows, now, windowMs))
    ensures s.failureRate == if s.total > 0 then s.failed as real / s.total as real else 0.0
    ensures Listing(lists.series, s.series) && InOrder(lists.series, EarlierFirst())
    ensures TopOf(lists.topDenied, s.denied) && TopOf(lists.topActors, s.actors)
    ensures |lists.topDenied| <= 10 && |lists.topActors| <= 10
  {
    s := Summarize(rows, now, windowMs);
    var series := InTimeOrder(s.series);
    var denied := TopTen(s.denied);
    var actors := TopTen(s.actors);
    return s, Lists(series, denied, actors);
  }

  // ── Conservation ──────────────────────────────────────────────────────────

  function IsResult(result: string): Reading -> bool {
    With(Current, ResultKey, result)
  }

  /** A failing result is denied, error or failed, and nothing else. */
  lemma {:induction false} FailuresByResult(rs: seq<Reading>)
    ensures Count(rs, CurrentFailing)
            == Count(rs, IsResult("denied")) + Count(rs, IsResult("error")) + Count(rs, IsResult("failed"))
  {
    if rs != [] {
      FailuresByResult(rs[1..]);
      OneFailure(rs[0]);
    }
  }

  lemma IsResultMeans(r: Reading, result: string)
    ensures IsResult(result)(r) <==> r.current && r.result == result
  {
    assert Current(r) == r.current && ResultKey(r) == r.result;
  }

  lemma OneFailure(r: Reading)
    ensures (if CurrentFailing(r) then 1 else 0)
            == (if IsResult("denied")(r) then 1 else 0) + (if IsResult("error")(r) then 1 else 0)
                + (if IsResult("failed")(r) then 1 else 0)
  {
    assert "denied" != "error" && "error" != "failed" && "denied" != "failed";
    IsResultMeans(r, "denied");
    IsResultMeans(r, "error");
    IsResultMeans(r, "failed");
  }

  lemma {:induction false} CountWithin(rs: seq<Reading>, p: Reading -> bool, q: Reading -> bool)
    requires forall r :: p(r) ==> q(r)
    ensures Count(rs, p) <= Count(rs, q)
  {
    if rs != [] {
      CountWithin(rs[1..], p, q);
    }
  }

  lemma FailedWithinTotal(m: map<string, Tallies>, rs: seq<Reading>, c: string)
    requires CategoriesDescribe(m, rs) && c in m
    ensures m[c].failed <= m[c].total
  {
    CountWithin(rs, With(CurrentFailing, Category, c), With(Current, Category, c));
    assert Get(Fails(m), c) == m[c].failed && Get(Totals(m), c) == m[c].total;
  }

  /**
   The same rows counted by kind, by result, by category and over time give the same total; failures agree
   likewise; the rate is a ratio.
   */
  lemma SummaryAddsUp(s: Summary, rs: seq<Reading>)
    requires Describes(s, rs)
    ensures s.total + s.prevTotal == |rs|
    ensures s.total == Sum(s.byKind) == Sum(s.byResult) == Sum(Totals(s.byCategory)) == Sum(s.series)
    ensures s.failed == Sum(Fails(s.byCategory)) <= s.total
    ensures s.failed == Get(s.byResult, "denied") + Get(s.byResult, "error") + Get(s.byResult, "failed")
    ensures Sum(s.denied) == Get(s.byResult, "denied")
    ensures forall c :: c in s.byCategory ==> s.byCategory[c].failed <= s.byCategory[c].total
  {
    FailuresByResult(rs);
    CountWithin(rs, CurrentFailing, Current);
    CountSame(rs, CurrentDenied, IsResult("denied"));
    forall c | c in s.byCategory ensures s.byCategory[c].failed <= s.byCategory[c].total {
      FailedWithinTotal(s.byCategory, rs, c);
    }
  }

  /** And the failure rate lies between none and all. */
  lemma FailureRateIsRatio(s: Summary, rs: seq<Reading>)
    requires Describes(s, rs)
    requires s.failureRate == if s.total > 0 then s.failed as real / s.total as real else 0.0
    ensures 0.0 <= s.failureRate <= 1.0
    ensures s.total > 0 ==> (s.failureRate == 1.0 <==> s.failed == s.total) && (s.failureRate == 0.0 <==> s.failed == 0)
  {
    CountWithin(rs, CurrentFailing, Current);
    assert s.failed <= s.total;
    RatioBounds(s.failed, s.total);
  }

  lemma RatioBounds(a: nat, b: nat)
    requires a <= b
    ensures b > 0 ==> 0.0 <= a as real / b as real <= 1.0
    ensures b > 0 ==> (a as real / b as real == 1.0 <==> a == b) && (a as real / b as real == 0.0 <==> a == 0)
  {
  }

  // ── The counters against the rows ─────────────────────────────────────────

  /** The places of the rows that satisfy `p`. */
  function Places(rows: seq<Row>, p: Row -> bool): set<nat> {
    set i: nat | i < |rows| && p(rows[i])
  }

  lemma CountOfRows(rows: seq<Row>, now: int, windowMs: nat, sel: Reading -> bool, p: Row -> bool)
    requires forall r :: sel(ReadingOf(r, now, windowMs)) <==> p(r)
    ensures Count(Readings(rows, now, windowMs), sel) == |Places(rows, p)|
  {
    CountByPlace(Readings(rows, now, windowMs), sel, Places(rows, p));
  }

  /** In the window, and with a result that says it did not work. */
  predicate FailedRow(r: Row, now: int, windowMs: nat) {
    now - r.ms <= windowMs && (r.result == "denied" || r.result == "error" || r.result == "failed")
  }

  /**
   In the window, by this actor, and a change or a sign-in: by its kind, or, without one, by a category that is
   neither the system's nor access.
   */
  predicate ChangeBy(r: Row, now: int, windowMs: nat, actor: string) {
    && now - r.ms <= windowMs && r.actor == Some(actor) && actor != "" && actor != "system"
    && if r.kind != "" then r.kind == "change" || r.kind == "auth"
       else r.category !in {"", "system", "access", "user", "organization_user"}
  }

  predicate DeniedOn(r: Row, now: int, windowMs: nat, target: string) {
    now - r.ms <= windowMs && r.result == "denied" && target == if r.target == "" then "—" else r.target
  }

  /** What the numbers of a summary count among the rows themselves. */
  lemma SummaryOfRows(s: Summary, rows: seq<Row>, now: int, windowMs: nat, name: string)
    requires Describes(s, Readings(rows, now, windowMs))
    ensures s.total == |Places(rows, (r: Row) => now - r.ms <= windowMs)|
    ensures s.failed == |Places(rows, (r: Row) => FailedRow(r, now, windowMs))|
    ensures Get(s.denied, name) == |Places(rows, (r: Row) => DeniedOn(r, now, windowMs, name))|
    ensures Get(s.actors, name) == |Places(rows, (r: Row) => ChangeBy(r, now, windowMs, name))|
    ensures name in s.activeActors <==>
            name != "" && exists r :: r in rows && now - r.ms <= windowMs && r.actor == Some(name)
  {
    CountOfRows(rows, now, windowMs, Current, (r: Row) => now - r.ms <= windowMs);
    CountOfRows(rows, now, windowMs, CurrentFailing, (r: Row) => FailedRow(r, now, windowMs));
    DeniedRows(rows, now, windowMs, name);
    ChangeRows(rows, now, windowMs, name);
    ActiveInRows(rows, now, windowMs, name);
  }

  lemma WithMeans<K>(sel: Reading -> bool, key: Reading -> K, k: K, r: Reading)
    ensures With(sel, key, k)(r) <==> sel(r) && key(r) == k
  {
  }

  lemma DeniedRows(rows: seq<Row>, now: int, windowMs: nat, name: string)
    ensures Count(Readings(rows, now, windowMs), With(CurrentDenied, Target, name))
            == |Places(rows, (r: Row) => DeniedOn(r, now, windowMs, name))|
  {
    var sel, p := With(CurrentDenied, Target, name), (r: Row) => DeniedOn(r, now, windowMs, name);
    forall r ensures sel(ReadingOf(r, now, windowMs)) <==> p(r) {
      WithMeans(CurrentDenied, Target, name, ReadingOf(r, now, windowMs));
      assert "ok" != "denied";
    }
    CountOfRows(rows, now, windowMs, sel, p);
  }

  lemma ChangeRows(rows: seq<Row>, now: int, windowMs: nat, name: string)
    ensures Count(Readings(rows, now, windowMs), With(CurrentChange, Actor, name))
            == |Places(rows, (r: Row) => ChangeBy(r, now, windowMs, name))|
  {
    var sel, p := With(CurrentChange, Actor, name), (r: Row) => ChangeBy(r, now, windowMs, name);
    forall r ensures sel(ReadingOf(r, now, windowMs)) <==> p(r) {
      WithMeans(CurrentChange, Actor, name, ReadingOf(r, now, windowMs));
      ChangeRow(r, now, windowMs, name);
    }
    CountOfRows(rows, now, windowMs, sel, p);
  }

  lemma ChangeRow(r: Row, now: int, windowMs: nat, name: string)
    ensures var x := ReadingOf(r, now, windowMs);
            CurrentChange(x) && Actor(x) == name <==> ChangeBy(r, now, windowMs, name)
  {
    if r.kind == "" {
      KindsOfChange(r);
    }
  }

  /** Without a kind of its own a row is a change or a sign-in unless its category is the system's or access. */
  lemma KindsOfChange(r: Row)
    requires r.kind == ""
    ensures KindOf(r) == "change" || KindOf(r) == "auth" <==>
            r.category !in {"", "system", "access", "user", "organization_user"}
  {
  }

  lemma ActiveInRows(rows: seq<Row>, now: int, windowMs: nat, name: string)
    ensures ActiveIn(Readings(rows, now, windowMs), name) <==>
            name != "" && exists r :: r in rows && now - r.ms <= windowMs && r.actor == Some(name)
  {
    var rs := Readings(rows, now, windowMs);
    if name != "" && exists r :: r in rows && now - r.ms <= windowMs && r.actor == Some(name) {
      var i :| 0 <= i < |rows| && now - rows[i].ms <= windowMs && rows[i].actor == Some(name);
      assert rs[i] in rs;
    }
  }
}
