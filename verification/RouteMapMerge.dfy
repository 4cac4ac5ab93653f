/**
 The append-only merge of the built-in routes into a stored route map. Rules are grouped by the text
 "method:path"; a key that carries a permission the built-ins do not is operator-owned and left alone.
 */
module RouteMapMerge {
  import opened Prelude
  import opened Text
  import opened RbacStore

  function Key(r: RouteRule): string {
    r.verb + ":" + r.path
  }

  function Perm(r: RouteRule): string {
    r.permission.GetOr("")
  }

  function AtKey(key: string): RouteRule -> bool {
    (r: RouteRule) => Key(r) == key
  }

  function PermsAt(rs: seq<RouteRule>, key: string): set<string> {
    set r | r in rs && Key(r) == key :: Perm(r)
  }

  predicate OperatorOwned(existing: seq<RouteRule>, builtIn: seq<RouteRule>, key: string) {
    exists r :: r in existing && Key(r) == key && Perm(r) !in PermsAt(builtIn, key)
  }

  // ── What the merge appends ────────────────────────────────────────────────

  function NotYet(perms: set<string>): RouteRule -> bool {
    (r: RouteRule) => Perm(r) !in perms
  }

  /** The built-in variants of a key still to be added, in their own order. */
  function Missing(existing: seq<RouteRule>, builtIn: seq<RouteRule>, key: string): (rs: seq<RouteRule>)
    ensures forall r :: r in rs <==>
              r in builtIn && Key(r) == key && !OperatorOwned(existing, builtIn, key)
                  && Perm(r) !in PermsAt(existing, key)
  {
    if OperatorOwned(existing, builtIn, key) then []
    else Filter(Filter(builtIn, AtKey(key)), NotYet(PermsAt(existing, key)))
  }

  /** Keys in order of first appearance. */
  function Keys(rs: seq<RouteRule>): (keys: seq<string>)
    ensures forall k :: k in keys <==> exists r :: r in rs && Key(r) == k
  {
    if rs == [] then []
    else
      var front, last := Keys(rs[..|rs| - 1]), rs[|rs| - 1];
      assert rs == rs[..|rs| - 1] + [last];
      if Key(last) in front then front else front + [Key(last)]
  }

  function MissingAll(existing: seq<RouteRule>, builtIn: seq<RouteRule>, keys: seq<string>): (rs: seq<RouteRule>)
    ensures forall r :: r in rs <==>
              r in builtIn && Key(r) in keys && !OperatorOwned(existing, builtIn, Key(r))
                  && Perm(r) !in PermsAt(existing, Key(r))
  {
    if keys == [] then []
    else
      assert keys == keys[..|keys| - 1] + [keys[|keys| - 1]];
      MissingAll(existing, builtIn, keys[..|keys| - 1]) + Missing(existing, builtIn, keys[|keys| - 1])
  }

  function ToAdd(existing: seq<RouteRule>, builtIn: seq<RouteRule>): seq<RouteRule> {
    MissingAll(existing, builtIn, Keys(builtIn))
  }

  function Merged(existing: seq<RouteRule>, builtIn: seq<RouteRule>): seq<RouteRule> {
    existing + ToAdd(existing, builtIn)
  }

  // ── The loops ─────────────────────────────────────────────────────────────

  method GroupExisting(existing: seq<RouteRule>) returns (perms: map<string, set<string>>)
    ensures forall k :: k in perms <==> PermsAt(existing, k) != {}
    ensures forall k :: k in perms ==> perms[k] == PermsAt(existing, k)
  {
    perms := map[];
    for i := 0 to |existing|
      invariant forall k :: k in perms <==> PermsAt(existing[..i], k) != {}
      invariant forall k :: k in perms ==> perms[k] == PermsAt(existing[..i], k)
    {
      var r := existing[i];
      var k := Key(r);
      MorePerms(existing, i);
      if k !in perms {
        perms := perms[k := {}];
      }
      perms := perms[k := perms[k] + {Perm(r)}];
    }
    assert existing[..|existing|] == existing;
  }

  lemma MorePerms(rs: seq<RouteRule>, i: nat)
    requires i < |rs|
    ensures forall j :: PermsAt(rs[..i + 1], j) == PermsAt(rs[..i], j) + if j == Key(rs[i]) then {Perm(rs[i])} else {}
  {
    assert rs[..i + 1] == rs[..i] + [rs[i]];
  }

  /** The rules filed so far: keys in order of first appearance, and the rules under each. */
  datatype Index = Index(keys: seq<string>, variants: map<string, seq<RouteRule>>)

  function Filed(ix: Index, rule: RouteRule): Index {
    var k := Key(rule);
    if k in ix.variants then ix.(variants := ix.variants[k := ix.variants[k] + [rule]])
    else Index(ix.keys + [k], ix.variants[k := [rule]])
  }

  function IndexOf(rs: seq<RouteRule>): Index {
    if rs == [] then Index([], map[]) else Filed(IndexOf(rs[..|rs| - 1]), rs[|rs| - 1])
  }

  method GroupBuiltIn(builtIn: seq<RouteRule>) returns (keys: seq<string>, variants: map<string, seq<RouteRule>>)
    ensures keys == Keys(builtIn) && variants.Keys == ToSet(keys)
    ensures forall k :: k in variants ==> variants[k] == Filter(builtIn, AtKey(k))
  {
    keys, variants := FileAll(builtIn);
    IndexGroups(builtIn);
    WholeIndex(keys, variants, builtIn);
  }

  method FileAll(builtIn: seq<RouteRule>) returns (keys: seq<string>, variants: map<string, seq<RouteRule>>)
    ensures Index(keys, variants) == IndexOf(builtIn)
  {
    keys, variants := [], map[];
    for i := 0 to |builtIn|
      invariant Index(keys, variants) == IndexOf(builtIn[..i])
    {
      var k := Key(builtIn[i]);
      assert builtIn[..i + 1][..i] == builtIn[..i];
      if k !in variants {
        keys := keys + [k];
        variants := variants[k := [builtIn[i]]];
      } else {
        variants := variants[k := variants[k] + [builtIn[i]]];
      }
    }
    assert builtIn[..|builtIn|] == builtIn;
  }

  lemma {:induction false} IndexGroups(rs: seq<RouteRule>)
    ensures Indexed(IndexOf(rs).keys, IndexOf(rs).variants, rs)
  {
    if rs != [] {
      var i := |rs| - 1;
      IndexGroups(rs[..i]);
      IndexedMore(IndexOf(rs[..i]), rs, i);
      assert rs[..i + 1] == rs;
    }
  }

  ghost predicate Indexed(keys: seq<string>, variants: map<string, seq<RouteRule>>, rs: seq<RouteRule>) {
    keys == Keys(rs) && Grouped(variants, rs)
  }

  lemma WholeIndex(keys: seq<string>, variants: map<string, seq<RouteRule>>, rs: seq<RouteRule>)
    requires Indexed(keys, variants, rs)
    ensures keys == Keys(rs) && variants.Keys == ToSet(keys)
    ensures forall k :: k in variants ==> variants[k] == Filter(rs, AtKey(k))
  {
  }

  lemma IndexedMore(ix: Index, rs: seq<RouteRule>, i: nat)
    requires i < |rs| && Indexed(ix.keys, ix.variants, rs[..i])
    ensures Indexed(Filed(ix, rs[i]).keys, Filed(ix, rs[i]).variants, rs[..i + 1])
  {
    KeysFiled(ix, rs, i);
    FiledVariants(ix, rs[i]);
    GroupedMore(ix.variants, rs, i);
  }

  lemma KeysFiled(ix: Index, rs: seq<RouteRule>, i: nat)
    requires i < |rs| && ix.keys == Keys(rs[..i]) && KeysGrouped(ix.variants.Keys, rs[..i])
    ensures Filed(ix, rs[i]).keys == Keys(rs[..i + 1])
  {
    assert rs[..i + 1][..i] == rs[..i];
  }

  lemma FiledVariants(ix: Index, rule: RouteRule)
    ensures var k := Key(rule);
            Filed(ix, rule).variants
                == ix.variants[k := (if k in ix.variants then ix.variants[k] else []) + [rule]]
  {
    assert [] + [rule] == [rule];
  }

  ghost predicate Grouped(variants: map<string, seq<RouteRule>>, rs: seq<RouteRule>) {
    KeysGrouped(variants.Keys, rs) && VariantsGrouped(variants, rs)
  }

  ghost predicate KeysGrouped(keys: set<string>, rs: seq<RouteRule>) {
    forall k :: k in keys <==> k in Keys(rs)
  }

  ghost predicate VariantsGrouped(variants: map<string, seq<RouteRule>>, rs: seq<RouteRule>) {
    forall k :: k in variants ==> variants[k] == Filter(rs, AtKey(k))
  }

  lemma GroupedMore(variants: map<string, seq<RouteRule>>, rs: seq<RouteRule>, i: nat)
    requires i < |rs| && Grouped(variants, rs[..i])
    ensures var k := Key(rs[i]);
            Grouped(variants[k := (if k in variants then variants[k] else []) + [rs[i]]], rs[..i + 1])
  {
    var k := Key(rs[i]);
    var after := variants[k := (if k in variants then variants[k] else []) + [rs[i]]];
    GroupedKeysMore(variants, after.Keys, rs, i);
    GroupedVariantsMore(variants, after, rs, i);
  }

  lemma GroupedKeysMore(variants: map<string, seq<RouteRule>>, keys: set<string>, rs: seq<RouteRule>, i: nat)
    requires i < |rs| && Grouped(variants, rs[..i]) && keys == variants.Keys + {Key(rs[i])}
    ensures KeysGrouped(keys, rs[..i + 1])
  {
    forall j ensures j in keys <==> j in Keys(rs[..i + 1]) {
      MoreKeys(rs, i, j);
    }
  }

  lemma GroupedVariantsMore(
    variants: map<string, seq<RouteRule>>, after: map<string, seq<RouteRule>>, rs: seq<RouteRule>, i: nat)
    requires i < |rs| && Grouped(variants, rs[..i])
    requires var k := Key(rs[i]); after == variants[k := (if k in variants then variants[k] else []) + [rs[i]]]
    ensures VariantsGrouped(after, rs[..i + 1])
  {
    forall j | j in after ensures after[j] == Filter(rs[..i + 1], AtKey(j)) {
      OneVariantMore(variants, rs, i, j);
    }
  }

  lemma OneVariantMore(variants: map<string, seq<RouteRule>>, rs: seq<RouteRule>, i: nat, j: string)
    requires i < |rs| && Grouped(variants, rs[..i]) && (j == Key(rs[i]) || j in variants)
    ensures Filter(rs[..i + 1], AtKey(j))
            == if j == Key(rs[i]) then (if j in variants then variants[j] else []) + [rs[i]] else variants[j]
  {
    VariantsOfKey(variants, rs, i);
    VariantsElsewhere(rs, i, j);
  }

  lemma VariantsOfKey(variants: map<string, seq<RouteRule>>, rs: seq<RouteRule>, i: nat)
    requires i < |rs| && Grouped(variants, rs[..i])
    ensures var k := Key(rs[i]); Filter(rs[..i], AtKey(k)) == if k in variants then variants[k] else []
  {
    if Key(rs[i]) !in variants {
      NoVariantYet(rs[..i], Key(rs[i]));
    }
  }

  lemma VariantsElsewhere(rs: seq<RouteRule>, i: nat, j: string)
    requires i < |rs|
    ensures Filter(rs[..i + 1], AtKey(j)) == Filter(rs[..i], AtKey(j)) + if j == Key(rs[i]) then [rs[i]] else []
  {
    FilterSnoc(rs, i, AtKey(j));
  }

  lemma MoreKeys(rs: seq<RouteRule>, i: nat, j: string)
    requires i < |rs|
    ensures j in Keys(rs[..i + 1]) <==> j in Keys(rs[..i]) || j == Key(rs[i])
  {
    assert rs[..i + 1][..i] == rs[..i];
  }

  lemma NoVariantYet(rs: seq<RouteRule>, k: string)
    requires k !in Keys(rs)
    ensures Filter(rs, AtKey(k)) == []
  {
    HasNone(Filter(rs, AtKey(k)));
  }

  lemma MissingOneMore(existing: seq<RouteRule>, builtIn: seq<RouteRule>, keys: seq<string>, i: nat)
    requires i < |keys|
    ensures MissingAll(existing, builtIn, keys[..i + 1]) == MissingAll(existing, builtIn, keys[..i])
            + Missing(existing, builtIn, keys[i])
  {
    assert keys[..i + 1][..i] == keys[..i];
  }

  method Additions(existing: seq<RouteRule>, builtIn: seq<RouteRule>) returns (toAdd: seq<RouteRule>)
    ensures toAdd == ToAdd(existing, builtIn)
  {
    var existingPerms := GroupExisting(existing);
    var keys, variants := GroupBuiltIn(builtIn);
    toAdd := [];
    for i := 0 to |keys|
      invariant toAdd == MissingAll(existing, builtIn, keys[..i])
    {
      MissingOneMore(existing, builtIn, keys, i);
      var k := keys[i];
      var stored := if k in existingPerms then Some(existingPerms[k]) else None;
      var more := MissingVariants(existing, builtIn, k, variants[k], stored);
      toAdd := toAdd + more;
    }
    assert keys[..|keys|] == keys;
  }

  /** One key: seed it, leave it, or complete it. */
  method MissingVariants(ghost existing: seq<RouteRule>, ghost builtIn: seq<RouteRule>, ghost key: string,
                         variants: seq<RouteRule>, existingPerms: Option<set<string>>)
    returns (more: seq<RouteRule>)
    requires variants == Filter(builtIn, AtKey(key))
    requires existingPerms.Some? ==> existingPerms.value == PermsAt(existing, key)
    requires existingPerms.None? ==> PermsAt(existing, key) == {}
    ensures more == Missing(existing, builtIn, key)
  {
    if existingPerms.None? {
      FilterKeepsAll(variants, NotYet({}));
      assert !OperatorOwned(existing, builtIn, key) by {
        assert forall r :: r in existing && Key(r) == key ==> Perm(r) in PermsAt(existing, key);
      }
      return variants;
    }
    var builtInPerms := set r | r in variants :: Perm(r);
    assert builtInPerms == PermsAt(builtIn, key);
    if exists p :: p in existingPerms.value && p !in builtInPerms {
      return [];
    }
    assert !OperatorOwned(existing, builtIn, key) by {
      assert forall r :: r in existing && Key(r) == key ==> Perm(r) in PermsAt(existing, key);
    }
    more := [];
    for i := 0 to |variants|
      invariant more == Filter(variants[..i], NotYet(existingPerms.value))
    {
      FilterSnoc(variants, i, NotYet(existingPerms.value));
      if Perm(variants[i]) !in existingPerms.value {
        more := more + [variants[i]];
      }
    }
    assert variants[..|variants|] == variants;
  }

  /** Nothing is written when nothing is missing. */
  method MergeJinbeRouteMap(repo: RbacRepository, builtIn: seq<RouteRule>) returns (added: nat, total: nat)
    modifies repo`routeMaps
    ensures repo.routeMaps == MergedInto(old(repo.routeMaps), builtIn)
    ensures added == |ToAdd(Stored(old(repo.routeMaps)), builtIn)| && total == |Stored(repo.routeMaps)|
  {
    var existing := Stored(repo.routeMaps);
    var toAdd := Additions(existing, builtIn);
    if |toAdd| == 0 {
      return 0, |existing|;
    }
    repo.SetRouteMap("jinbe", existing + toAdd);
    return |toAdd|, |existing + toAdd|;
  }

  function Stored(routeMaps: map<string, seq<RouteRule>>): seq<RouteRule> {
    if "jinbe" in routeMaps then routeMaps["jinbe"] else []
  }

  function MergedInto(routeMaps: map<string, seq<RouteRule>>, builtIn: seq<RouteRule>): map<string, seq<RouteRule>> {
    var existing := Stored(routeMaps);
    if ToAdd(existing, builtIn) == [] then routeMaps else routeMaps["jinbe" := Merged(existing, builtIn)]
  }

  // ── What the merge promises, key by key ───────────────────────────────────

  /**
   Existing rules stay a prefix; an operator-owned key gets nothing, every other built-in key ends with exactly the
   built-in permissions.
   */
  lemma MergePromise(existing: seq<RouteRule>, builtIn: seq<RouteRule>, key: string)
    ensures var merged := Merged(existing, builtIn);
            && existing <= merged
            && (forall r :: r in merged[|existing|..] ==> r in builtIn && !OperatorOwned(existing, builtIn, Key(r)))
            && (OperatorOwned(existing, builtIn, key) || key !in Keys(builtIn) ==>
                  Filter(merged, AtKey(key)) == Filter(existing, AtKey(key)))
            && (!OperatorOwned(existing, builtIn, key) && key in Keys(builtIn) ==>
                  PermsAt(merged, key) == PermsAt(builtIn, key))
  {
    var added := ToAdd(existing, builtIn);
    var merged := Merged(existing, builtIn);
    assert merged[|existing|..] == added;
    if OperatorOwned(existing, builtIn, key) || key !in Keys(builtIn) {
      FilterAppend(existing, added, AtKey(key));
      HasNone(Filter(added, AtKey(key)));
    } else {
      forall p ensures p in PermsAt(merged, key) <==> p in PermsAt(builtIn, key) {
        if p in PermsAt(merged, key) {
          var r :| r in merged && Key(r) == key && Perm(r) == p;
          assert r in existing || r in added;
        }
        if p in PermsAt(builtIn, key) && p !in PermsAt(existing, key) {
          var r :| r in builtIn && Key(r) == key && Perm(r) == p;
          assert r in added;
        }
        if p in PermsAt(existing, key) {
          var r :| r in existing && Key(r) == key && Perm(r) == p;
          assert r in merged;
        }
      }
    }
  }

  /** Merging again adds nothing, whatever is stored. */
  lemma MergeIdempotent(existing: seq<RouteRule>, builtIn: seq<RouteRule>)
    ensures ToAdd(Merged(existing, builtIn), builtIn) == []
    ensures Merged(Merged(existing, builtIn), builtIn) == Merged(existing, builtIn)
  {
    var merged := Merged(existing, builtIn);
    forall r ensures r !in ToAdd(merged, builtIn) {
      MergePromise(existing, builtIn, Key(r));
      if OperatorOwned(existing, builtIn, Key(r)) {
        assert OperatorOwned(merged, builtIn, Key(r));
      }
    }
    HasNone(ToAdd(merged, builtIn));
  }

  lemma MergedIntoIdempotent(routeMaps: map<string, seq<RouteRule>>, builtIn: seq<RouteRule>)
    ensures MergedInto(MergedInto(routeMaps, builtIn), builtIn) == MergedInto(routeMaps, builtIn)
  {
    MergeIdempotent(Stored(routeMaps), builtIn);
  }

  // ── Keys against method and path ──────────────────────────────────────────

  /**
   Two methods can be confused, on some pair of paths, exactly when they are equal or one is the other followed by
   a colon and more.
   */
  lemma KeysCollideExactly(v: string, w: string)
    ensures (exists p, q :: v + ":" + p == w + ":" + q) <==> v == w || v + ":" <= w || w + ":" <= v
  {
    if exists p, q :: v + ":" + p == w + ":" + q {
      var p, q :| v + ":" + p == w + ":" + q;
      assert (v + ":" + p)[..|v|] == v && (w + ":" + q)[..|w|] == w;
      if |v| < |w| {
        assert (w + ":" + q)[..|v| + 1] == w[..|v| + 1];
        assert (v + ":" + p)[..|v| + 1] == v + ":";
      } else if |w| < |v| {
        assert (v + ":" + p)[..|w| + 1] == v[..|w| + 1];
        assert (w + ":" + q)[..|w| + 1] == w + ":";
      }
    }
    if v == w {
      assert v + ":" + "" == w + ":" + "";
    } else if v + ":" <= w {
      var rest := w[|v| + 1..];
      assert v + ":" + (rest + ":" + "") == w + ":" + "";
    } else if w + ":" <= v {
      var rest := v[|w| + 1..];
      assert v + ":" + "" == w + ":" + (rest + ":" + "");
    }
  }

  /** So with colon-free methods a key is a method and a path. */
  lemma KeyIsMethodAndPath(a: RouteRule, b: RouteRule)
    requires ':' !in a.verb && ':' !in b.verb
    ensures Key(a) == Key(b) <==> a.verb == b.verb && a.path == b.path
  {
    if Key(a) == Key(b) {
      assert a.verb + ":" + a.path == b.verb + ":" + b.path;
      KeysCollideExactly(a.verb, b.verb);
      assert (a.verb + ":")[|a.verb|] == ':' && (b.verb + ":")[|b.verb|] == ':';
      assert a.verb == b.verb;
      assert Key(a)[|a.verb| + 1..] == a.path && Key(b)[|b.verb| + 1..] == b.path;
    }
  }

  /** With a colon in a method, a rule on another path takes a built-in path away: nothing is added for it. */
  lemma ColonHidesBuiltIn(permission: string, other: string)
    requires permission != other
    ensures var builtIn := [RouteRule("GET", "/a:b", Some(permission))];
            var existing := [RouteRule("GET:/a", "b", Some(other))];
            Merged(existing, builtIn) == existing
  {
    var builtIn := [RouteRule("GET", "/a:b", Some(permission))];
    var existing := [RouteRule("GET:/a", "b", Some(other))];
    assert "GET" + ":" + "/a:b" == "GET:/a" + ":" + "b";
    assert Key(builtIn[0]) == Key(existing[0]);
    assert PermsAt(builtIn, Key(existing[0])) == {permission};
    assert existing[0] in existing && OperatorOwned(existing, builtIn, Key(existing[0]));
    HasNone(ToAdd(existing, builtIn));
  }

  // ── What the merge promises, path by path ─────────────────────────────────

  predicate OnPath(r: RouteRule, verb: string, path: string) {
    r.verb == verb && r.path == path
  }

  function PermsOn(rs: seq<RouteRule>, verb: string, path: string): set<string> {
    set r | r in rs && OnPath(r, verb, path) :: Perm(r)
  }

  /** The stored path carries a permission the built-ins do not have on it. */
  predicate ForeignOn(existing: seq<RouteRule>, builtIn: seq<RouteRule>, verb: string, path: string) {
    exists r :: r in existing && OnPath(r, verb, path) && Perm(r) !in PermsOn(builtIn, verb, path)
  }

  predicate ColonFree(rs: seq<RouteRule>) {
    forall r :: r in rs ==> ':' !in r.verb
  }

  function KeyOf(verb: string, path: string): string {
    verb + ":" + path
  }

  lemma PathIsKey(rs: seq<RouteRule>, verb: string, path: string)
    requires ColonFree(rs) && ':' !in verb
    ensures PermsOn(rs, verb, path) == PermsAt(rs, KeyOf(verb, path))
    ensures forall r :: r in rs ==> (OnPath(r, verb, path) <==> Key(r) == KeyOf(verb, path))
  {
    forall r | r in rs ensures OnPath(r, verb, path) <==> Key(r) == KeyOf(verb, path) {
      KeyIsMethodAndPath(r, RouteRule(verb, path, None));
    }
  }

  /**
   With colon-free methods, stored and built in: a path carrying a foreign permission gets nothing, and
   every other built-in path ends with exactly its built-in permissions.
   */
  lemma PathPromise(existing: seq<RouteRule>, builtIn: seq<RouteRule>, verb: string, path: string)
    requires ColonFree(existing) && ColonFree(builtIn) && ':' !in verb
    ensures var added := ToAdd(existing, builtIn);
            && (ForeignOn(existing, builtIn, verb, path) ==> forall r :: r in added ==> !OnPath(r, verb, path))
            && (!ForeignOn(existing, builtIn, verb, path) && PermsOn(builtIn, verb, path) != {} ==>
                  PermsOn(Merged(existing, builtIn), verb, path) == PermsOn(builtIn, verb, path))
  {
    var key, merged := KeyOf(verb, path), Merged(existing, builtIn);
    assert ColonFree(merged);
    PathIsKey(existing, verb, path);
    PathIsKey(builtIn, verb, path);
    PathIsKey(merged, verb, path);
    MergePromise(existing, builtIn, key);
    assert ForeignOn(existing, builtIn, verb, path) <==> OperatorOwned(existing, builtIn, key);
  }

  /** Every built-in path without a foreign permission ends with all its built-in permissions. */
  ghost predicate Complete(existing: seq<RouteRule>, builtIn: seq<RouteRule>) {
    forall b :: b in builtIn && !ForeignOn(existing, builtIn, b.verb, b.path) ==>
      Perm(b) in PermsOn(Merged(existing, builtIn), b.verb, b.path)
  }

  /** A key with one colon can only be split in one way. */
  lemma OneColonOneSplit(r: RouteRule, verb: string, path: string)
    requires ':' !in verb && ':' !in path && Key(r) == KeyOf(verb, path)
    ensures OnPath(r, verb, path)
  {
    assert KeyOf(verb, path)[|verb|] == ':';
    assert forall i :: 0 <= i < |Key(r)| && Key(r)[i] == ':' ==> i == |verb| by {
      assert forall i :: |verb| < i < |Key(r)| ==> KeyOf(verb, path)[i] == path[i - |verb| - 1];
      assert forall i :: 0 <= i < |verb| ==> KeyOf(verb, path)[i] == verb[i];
    }
    assert Key(r)[|r.verb|] == ':';
    assert |r.verb| == |verb|;
    assert Key(r)[..|verb|] == r.verb && KeyOf(verb, path)[..|verb|] == verb;
    assert Key(r)[|verb| + 1..] == r.path && KeyOf(verb, path)[|verb| + 1..] == path;
  }

  lemma NoColonInPathsIsEnough(existing: seq<RouteRule>, builtIn: seq<RouteRule>, b: RouteRule)
    requires ColonFree(builtIn) && (forall r :: r in builtIn ==> ':' !in r.path) && b in builtIn
    requires !ForeignOn(existing, builtIn, b.verb, b.path)
    ensures Perm(b) in PermsOn(Merged(existing, builtIn), b.verb, b.path)
  {
    var key, merged := Key(b), Merged(existing, builtIn);
    forall r | Key(r) == key ensures OnPath(r, b.verb, b.path) {
      OneColonOneSplit(r, b.verb, b.path);
    }
    assert PermsAt(builtIn, key) == PermsOn(builtIn, b.verb, b.path);
    assert !OperatorOwned(existing, builtIn, key);
    MergePromise(existing, builtIn, key);
    assert Perm(b) in PermsAt(merged, key);
  }

  /** A built-in path with a colon: one stored rule elsewhere, split at that colon, keeps the path empty. */
  lemma ColonInPathIsFatal(builtIn: seq<RouteRule>, b: RouteRule) returns (existing: seq<RouteRule>)
    requires ColonFree(builtIn) && b in builtIn && ':' in b.path
    ensures !Complete(existing, builtIn)
  {
    var i :| 0 <= i < |b.path| && b.path[i] == ':';
    var other := Longer(PermsAt(builtIn, Key(b)));
    var intruder := RouteRule(b.verb + ":" + b.path[..i], b.path[i + 1..], Some(other));
    existing := [intruder];
    assert Key(intruder) == Key(b) by {
      assert b.path == b.path[..i] + ":" + b.path[i + 1..];
      assert b.verb + ":" + b.path[..i] + ":" + b.path[i + 1..] == b.verb + ":" + (b.path[..i] + ":" + b.path[i + 1..]);
    }
    assert intruder in existing && OperatorOwned(existing, builtIn, Key(b));
    assert intruder.verb[|b.verb|] == ':' && intruder.verb != b.verb;
    assert !ForeignOn(existing, builtIn, b.verb, b.path);
    forall r | r in Merged(existing, builtIn) ensures !OnPath(r, b.verb, b.path) {
      if r in ToAdd(existing, builtIn) {
        assert Key(r) != Key(b);
      }
    }
  }

  /** The merge is complete for every stored map if and only if no built-in path holds a colon. */
  lemma CompleteExactly(builtIn: seq<RouteRule>)
    requires ColonFree(builtIn)
    ensures (forall existing :: Complete(existing, builtIn)) <==> forall b :: b in builtIn ==> ':' !in b.path
  {
    if forall b :: b in builtIn ==> ':' !in b.path {
      forall existing ensures Complete(existing, builtIn) {
        forall b | b in builtIn && !ForeignOn(existing, builtIn, b.verb, b.path)
          ensures Perm(b) in PermsOn(Merged(existing, builtIn), b.verb, b.path)
        {
          NoColonInPathsIsEnough(existing, builtIn, b);
        }
      }
    } else {
      var b :| b in builtIn && ':' in b.path;
      var existing := ColonInPathIsFatal(builtIn, b);
    }
  }
}
