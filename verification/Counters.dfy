/** Maps used as counters (`m[k] = (m[k] ?? 0) + 1`) and what their values sum to. */
module Counters {

  function Get<K>(m: map<K, nat>, k: K): nat {
    if k in m then m[k] else 0
  }

  function Bump<K>(m: map<K, nat>, k: K): map<K, nat> {
    m[k := Get(m, k) + 1]
  }

  ghost function Sum<K>(m: map<K, nat>): nat
    decreases |m|
  {
    if m == map[] then 0
    else
      var k :| k in m;
      m[k] + Sum(m - {k})
  }

  /** The sum does not depend on which key is taken first. */
  lemma {:induction false} SumTake<K>(m: map<K, nat>, k: K)
    requires k in m
    ensures Sum(m) == m[k] + Sum(m - {k})
    decreases |m|
  {
    var j :| j in m && Sum(m) == m[j] + Sum(m - {j});
    if j != k {
      assert |(m - {j}).Keys| == |m.Keys| - 1 && |(m - {k}).Keys| == |m.Keys| - 1;
      SumTake(m - {j}, k);
      SumTake(m - {k}, j);
      assert m - {j} - {k} == m - {k} - {j};
    }
  }

  lemma SumUpdate<K>(m: map<K, nat>, k: K, v: nat)
    ensures Sum(m[k := v]) + Get(m, k) == Sum(m) + v
  {
    SumTake(m[k := v], k);
    assert m[k := v] - {k} == m - {k};
    if k in m {
      SumTake(m, k);
    } else {
      assert m - {k} == m;
    }
  }

  // ── Counting the entries of a table ───────────────────────────────────────

  function CountIf<K, T>(m: map<K, T>, p: T -> bool): nat {
    |set k | k in m && p(m[k])|
  }

  function KeysOf<K, T>(m: map<K, T>, key: T -> string): set<string> {
    set k | k in m :: key(m[k])
  }

  /** Per key of the entries: how many entries with that key satisfy `p`. */
  function Tally<K, T>(m: map<K, T>, key: T -> string, p: T -> bool): map<string, nat> {
    map r | r in KeysOf(m, key) :: CountBy(m, key, p, r)
  }

  /** Entries with key `r` that satisfy `p`. */
  function CountBy<K, T>(m: map<K, T>, key: T -> string, p: T -> bool, r: string): nat {
    |set k | k in m && key(m[k]) == r && p(m[k])|
  }

  lemma CountByRemove<K, T>(m: map<K, T>, k: K, key: T -> string, p: T -> bool, r: string)
    requires k in m
    ensures CountBy(m, key, p, r) == CountBy(m - {k}, key, p, r) + (if key(m[k]) == r && p(m[k]) then 1 else 0)
  {
    var rest := set j | j in m - {k} && key((m - {k})[j]) == r && p((m - {k})[j]);
    if key(m[k]) == r && p(m[k]) {
      assert (set j | j in m && key(m[j]) == r && p(m[j])) == rest + {k};
    } else {
      assert (set j | j in m && key(m[j]) == r && p(m[j])) == rest;
    }
  }

  /** What a tally says, also of keys it does not hold. */
  lemma TallyAt<K, T>(m: map<K, T>, key: T -> string, p: T -> bool, r: string)
    ensures Get(Tally(m, key, p), r) == CountBy(m, key, p, r)
  {
    if r !in KeysOf(m, key) {
      assert (set k | k in m && key(m[k]) == r && p(m[k])) == {};
    }
  }

  lemma CountRemove<K, T>(m: map<K, T>, k: K, p: T -> bool)
    requires k in m
    ensures CountIf(m, p) == CountIf(m - {k}, p) + (if p(m[k]) then 1 else 0)
  {
    var rest := set j | j in m - {k} && p((m - {k})[j]);
    if p(m[k]) {
      assert (set j | j in m && p(m[j])) == rest + {k};
    } else {
      assert (set j | j in m && p(m[j])) == rest;
    }
  }

  lemma TallySumStep<K, T>(m: map<K, T>, k: K, key: T -> string, p: T -> bool)
    requires k in m
    ensures Sum(Tally(m, key, p)) == Sum(Tally(m - {k}, key, p)) + if p(m[k]) then 1 else 0
  {
    TallyGrows(m - {k}, m, k, key, p);
    SumGrown(Tally(m - {k}, key, p), Tally(m, key, p), key(m[k]), if p(m[k]) then 1 else 0);
  }

  lemma SumGrown(before: map<string, nat>, after: map<string, nat>, r: string, d: nat)
    requires after == before[r := Get(before, r) + d]
    ensures Sum(after) == Sum(before) + d
  {
    var v := Get(before, r) + d;
    SumUpdate(before, r, v);
  }

  /** A tally misses nothing: its values sum to the number of entries counted. */
  lemma {:induction false} TallySum<K, T>(m: map<K, T>, key: T -> string, p: T -> bool)
    ensures Sum(Tally(m, key, p)) == CountIf(m, p)
    decreases |m|
  {
    if m == map[] {
      assert Tally(m, key, p) == map[];
    } else {
      var k :| k in m;
      assert |(m - {k}).Keys| == |m.Keys| - 1;
      TallySum(m - {k}, key, p);
      TallySumStep(m, k, key, p);
      CountRemove(m, k, p);
    }
  }

  /** The part of a table already walked through. */
  function Part<K, T>(m: map<K, T>, done: set<K>): map<K, T> {
    map k | k in m && k in done :: m[k]
  }

  /** The tally of the entries walked through so far. */
  function TallyOf<K, T>(m: map<K, T>, done: set<K>, key: T -> string, p: T -> bool): (r: map<string, nat>)
    ensures done == m.Keys ==> r == Tally(m, key, p)
  {
    assert done == m.Keys ==> Part(m, done) == m;
    Tally(Part(m, done), key, p)
  }

  /** Tallying one more entry adds to that entry's key only. */
  lemma TallyStep<K, T>(m: map<K, T>, done: set<K>, k: K, key: T -> string, p: T -> bool)
    requires k in m && k !in done
    ensures var before, after := TallyOf(m, done, key, p), TallyOf(m, done + {k}, key, p);
            after == before[key(m[k]) := Get(before, key(m[k])) + if p(m[k]) then 1 else 0]
  {
    var was, now := Part(m, done), Part(m, done + {k});
    assert now - {k} == was && now[k] == m[k];
    TallyGrows(was, now, k, key, p);
  }

  lemma KeysGrow<K, T>(was: map<K, T>, now: map<K, T>, k: K, key: T -> string)
    requires k in now && was == now - {k}
    ensures KeysOf(now, key) == KeysOf(was, key) + {key(now[k])}
  {
    assert forall j :: j in was ==> j in now && now[j] == was[j];
    assert forall j :: j in now ==> j == k || j in was;
  }

  lemma TallyGrows<K, T>(was: map<K, T>, now: map<K, T>, k: K, key: T -> string, p: T -> bool)
    requires k in now && was == now - {k}
    ensures var before := Tally(was, key, p);
            Tally(now, key, p) == before[key(now[k]) := Get(before, key(now[k])) + if p(now[k]) then 1 else 0]
  {
    var before, after := Tally(was, key, p), Tally(now, key, p);
    KeysGrow(was, now, k, key);
    forall s | s in after ensures after[s] == Get(before, s) + if s == key(now[k]) && p(now[k]) then 1 else 0 {
      TallyAt(was, key, p, s);
      TallyAt(now, key, p, s);
      CountByRemove(now, k, key, p, s);
    }
  }

  ghost predicate IsTally<K, T>(t: map<string, nat>, m: map<K, T>, done: set<K>, key: T -> string, p: T -> bool) {
    t == TallyOf(m, done, key, p)
  }

  lemma TallyBegins<K, T>(m: map<K, T>, key: T -> string, p: T -> bool)
    ensures IsTally(map[], m, {}, key, p)
  {
  }

  lemma TallyGoesOn<K, T>(t: map<string, nat>, m: map<K, T>, done: set<K>, k: K, key: T -> string, p: T -> bool)
    requires k in m && k !in done && IsTally(t, m, done, key, p)
    ensures IsTally(t[key(m[k]) := Get(t, key(m[k])) + if p(m[k]) then 1 else 0], m, done + {k}, key, p)
  {
    TallyStep(m, done, k, key, p);
  }

  lemma TallyEnds<K, T>(t: map<string, nat>, m: map<K, T>, key: T -> string, p: T -> bool)
    requires IsTally(t, m, m.Keys, key, p)
    ensures t == Tally(m, key, p)
  {
  }

  lemma NothingLeft<K>(all: set<K>, done: set<K>)
    requires all - done == {} && done <= all
    ensures done == all
  {
    assert all == all * done + (all - done);
  }

  ghost predicate AreTallies<K, T>(
    ps: map<string, nat>, qs: map<string, nat>, m: map<K, T>, done: set<K>, key: T -> string, p: T -> bool,
        q: T -> bool)
  {
    IsTally(ps, m, done, key, p) && IsTally(qs, m, done, key, q)
  }

  function Stepped<K, T>(t: map<string, nat>, m: map<K, T>, k: K, key: T -> string, p: T -> bool): map<string, nat>
    requires k in m
  {
    t[key(m[k]) := Get(t, key(m[k])) + if p(m[k]) then 1 else 0]
  }

  lemma TalliesGoOn<K, T>(
    ps: map<string, nat>, qs: map<string, nat>, m: map<K, T>, done: set<K>, k: K, key: T -> string, p: T -> bool,
    q: T -> bool)
    requires k in m && k !in done && AreTallies(ps, qs, m, done, key, p, q)
    ensures AreTallies(Stepped(ps, m, k, key, p), Stepped(qs, m, k, key, q), m, done + {k}, key, p, q)
  {
    TallyGoesOn(ps, m, done, k, key, p);
    TallyGoesOn(qs, m, done, k, key, q);
  }

  /** One walk over a table, keeping two counters per key. */
  method TallyTwo<K, T>(m: map<K, T>, key: T -> string, p: T -> bool, q: T -> bool)
    returns (ps: map<string, nat>, qs: map<string, nat>)
    ensures ps == Tally(m, key, p) && qs == Tally(m, key, q)
  {
    ps, qs := map[], map[];
    var done: set<K> := {};
    TallyBegins(m, key, p);
    TallyBegins(m, key, q);
    while m.Keys - done != {}
      invariant done <= m.Keys && AreTallies(ps, qs, m, done, key, p, q)
      decreases m.Keys - done
    {
      var k :| k in m.Keys - done;
      TalliesGoOn(ps, qs, m, done, k, key, p, q);
      ps, qs, done := Stepped(ps, m, k, key, p), Stepped(qs, m, k, key, q), done + {k};
    }
    NothingLeft(m.Keys, done);
    TallyEnds(ps, m, key, p);
    TallyEnds(qs, m, key, q);
  }

  /** Splitting a count in two disjoint parts. */
  lemma CountSplit<K, T>(m: map<K, T>, whole: T -> bool, p: T -> bool, q: T -> bool)
    requires forall k :: k in m ==> (whole(m[k]) <==> p(m[k]) || q(m[k])) && !(p(m[k]) && q(m[k]))
    ensures CountIf(m, whole) == CountIf(m, p) + CountIf(m, q)
  {
    var ps, qs := set k | k in m && p(m[k]), set k | k in m && q(m[k]);
    assert (set k | k in m && whole(m[k])) == ps + qs;
    assert ps !! qs;
  }

  lemma CountSameItems<K, T>(m: map<K, T>, p: T -> bool, q: T -> bool)
    requires forall k :: k in m ==> (p(m[k]) <==> q(m[k]))
    ensures CountIf(m, p) == CountIf(m, q)
  {
    assert (set k | k in m && p(m[k])) == (set k | k in m && q(m[k]));
  }

  lemma CountAll<K, T>(m: map<K, T>, p: T -> bool)
    requires forall k :: k in m ==> p(m[k])
    ensures CountIf(m, p) == |m|
  {
    assert (set k | k in m && p(m[k])) == m.Keys;
  }

  lemma CountNone<K, T>(m: map<K, T>, p: T -> bool)
    requires forall k :: k in m ==> !p(m[k])
    ensures CountIf(m, p) == 0
  {
    assert (set k | k in m && p(m[k])) == {};
  }
}
