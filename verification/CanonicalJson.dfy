/**
 The canonical form behind the built-in content hash: object keys sorted at every depth. It identifies
 exactly the values that are equal as JSON data, objects being unordered (section 4 of RFC 8259), except
 that a member named "__proto__" is lost on the way.
 */
module CanonicalJson {
  import opened Prelude
  import opened Text

  const PROTO: string := "__proto__"

  /** A parsed value; an object keeps its members in enumeration order. Scalars are their literal text. */
  datatype Json = Atom(text: string) | Arr(items: seq<Json>) | Obj(fields: seq<Field>)
  datatype Field = Field(key: string, value: Json)

  /** The same data with objects as maps. */
  datatype Data = Scalar(text: string) | List(items: seq<Data>) | Object(members: map<string, Data>)

  function Keys(fields: seq<Field>): (keys: seq<string>)
    ensures |keys| == |fields| && forall i :: 0 <= i < |fields| ==> keys[i] == fields[i].key
  {
    seq(|fields|, i requires 0 <= i < |fields| => fields[i].key)
  }

  function KeySet(fields: seq<Field>): set<string> {
    set i | 0 <= i < |fields| :: fields[i].key
  }

  function IndexOf(fields: seq<Field>, key: string): (i: nat)
    requires key in KeySet(fields)
    ensures i < |fields| && fields[i].key == key
  {
    if fields[0].key == key then 0
    else
      assert forall k :: k in KeySet(fields) <==> k == fields[0].key || k in KeySet(fields[1..]) by {
        forall k | k in KeySet(fields) ensures k == fields[0].key || k in KeySet(fields[1..]) {
          var i :| 0 <= i < |fields| && fields[i].key == k;
          assert i > 0 ==> fields[1..][i - 1].key == k;
        }
      }
      1 + IndexOf(fields[1..], key)
  }

  /** An object has each key once. */
  predicate WellFormed(j: Json) {
    match j
    case Atom(_) => true
    case Arr(items) => forall i :: 0 <= i < |items| ==> WellFormed(items[i])
    case Obj(fields) => Distinct(Keys(fields)) && forall i :: 0 <= i < |fields| ==> WellFormed(fields[i].value)
  }

  /** The data of a value, leaving out members with a hidden name. */
  function View(j: Json, hidden: set<string>): Data {
    match j
    case Atom(text) => Scalar(text)
    case Arr(items) => List(seq(|items|, i requires 0 <= i < |items| => View(items[i], hidden)))
    case Obj(fields) => Object(map k | k in KeySet(fields) - hidden :: View(fields[IndexOf(fields, k)].value, hidden))
  }

  function Meaning(j: Json): Data {
    View(j, {})
  }

  predicate NoProto(j: Json) {
    match j
    case Atom(_) => true
    case Arr(items) => forall i :: 0 <= i < |items| ==> NoProto(items[i])
    case Obj(fields) => PROTO !in KeySet(fields) && forall i :: 0 <= i < |fields| ==> NoProto(fields[i].value)
  }

  predicate Plain(k: string) { k != PROTO }

  /** Keys in the order the members are written; assigning to "__proto__" makes no member. */
  function CanonKeys(fields: seq<Field>): (keys: seq<string>)
    ensures forall k :: k in keys <==> k in KeySet(fields) - {PROTO}
  {
    assert forall k :: k in Keys(fields) <==> k in KeySet(fields) by {
      forall k | k in KeySet(fields) ensures k in Keys(fields) {
        assert Keys(fields)[IndexOf(fields, k)] == k;
      }
    }
    Filter(Sort(Keys(fields)), Plain)
  }

  function Canon(j: Json): Json {
    match j
    case Atom(_) => j
    case Arr(items) => Arr(seq(|items|, i requires 0 <= i < |items| => Canon(items[i])))
    case Obj(fields) =>
      var keys := CanonKeys(fields);
      Obj(seq(|keys|, i requires 0 <= i < |keys| =>
        assert keys[i] in keys;
        Field(keys[i], Canon(fields[IndexOf(fields, keys[i])].value))))
  }

  method Canonicalize(j: Json) returns (r: Json)
    ensures r == Canon(j)
    decreases j, 1
  {
    match j {
      case Atom(_) => return j;
      case Arr(items) =>
        var out := [];
        for i := 0 to |items|
          invariant |out| == i && forall k :: 0 <= k < i ==> out[k] == Canon(items[k])
        {
          var c := Canonicalize(items[i]);
          out := out + [c];
        }
        return Arr(out);
      case Obj(fields) =>
        var out := CanonicalizeMembers(fields, j);
        return Obj(out);
    }
  }

  method CanonicalizeMembers(fields: seq<Field>, ghost j: Json) returns (out: seq<Field>)
    requires j == Obj(fields)
    ensures out == Canon(j).fields
    decreases j, 0
  {
    var sortedKeys := Sort(Keys(fields));
    out := [];
    for i := 0 to |sortedKeys|
      invariant Keys(out) == Filter(sortedKeys[..i], Plain)
      invariant forall f :: f in out ==> IsCanonOf(f, fields)
    {
      var k := sortedKeys[i];
      assert k in Keys(fields) && k in KeySet(fields);
      FilterSnoc(sortedKeys, i, Plain);
      var c := Canonicalize(fields[IndexOf(fields, k)].value);
      if k != PROTO {
        KeysSnoc(out, Field(k, c));
        out := out + [Field(k, c)];
      }
    }
    assert sortedKeys[..|sortedKeys|] == sortedKeys;
    CanonMembers(fields, out);
  }

  lemma KeysSnoc(fields: seq<Field>, f: Field)
    ensures Keys(fields + [f]) == Keys(fields) + [f.key]
  {
  }

  /** Members under the canonical keys with canonical values are the members of the canonical object. */
  lemma CanonMembers(fields: seq<Field>, out: seq<Field>)
    requires Keys(out) == CanonKeys(fields) && forall f :: f in out ==> IsCanonOf(f, fields)
    ensures out == Canon(Obj(fields)).fields
  {
    var canon := Canon(Obj(fields)).fields;
    assert |out| == |Keys(out)| == |canon|;
    forall i | 0 <= i < |out| ensures out[i] == canon[i] {
      assert out[i] in out && out[i].key == Keys(out)[i] == canon[i].key;
    }
  }

  predicate IsCanonOf(f: Field, fields: seq<Field>) {
    f.key in KeySet(fields) && f.value == Canon(fields[IndexOf(fields, f.key)].value)
  }

  // ── Facts about the keys of a canonical object ────────────────────────────

  lemma {:induction false} FilterDistinct(s: seq<string>)
    requires Distinct(s)
    ensures Distinct(Filter(s, Plain))
  {
    if s != [] {
      assert forall i, j :: 0 <= i < j < |s[1..]| ==> s[1..][i] != s[1..][j] by {
        forall i, j | 0 <= i < j < |s[1..]| ensures s[1..][i] != s[1..][j] {
          assert s[i + 1] != s[j + 1];
        }
      }
      FilterDistinct(s[1..]);
      forall j | 0 <= j < |s[1..]| ensures s[1..][j] != s[0] {
        assert s[0] != s[j + 1];
      }
    }
  }

  lemma {:induction false} FilterSorted(s: seq<string>)
    requires Sorted(s)
    ensures Sorted(Filter(s, Plain))
  {
    if s != [] {
      FilterSorted(s[1..]);
      forall x | x in Filter(s[1..], Plain) ensures Leq(s[0], x) {
        var j :| 0 <= j < |s[1..]| && s[1..][j] == x;
        assert s[j + 1] == x;
      }
    }
  }

  /** Duplicate-free lists of the same elements are rearrangements of each other. */
  lemma {:induction false} DistinctOnce(s: seq<string>, x: string)
    requires Distinct(s)
    ensures multiset(s)[x] == if x in s then 1 else 0
  {
    if s != [] {
      var n := |s| - 1;
      assert s == s[..n] + [s[n]];
      DistinctOnce(s[..n], x);
    }
  }

  lemma RepeatsCountTwice(s: seq<string>, i: nat, j: nat)
    requires i < j < |s|
    ensures s[i] == s[j] ==> multiset(s)[s[i]] >= 2
  {
    assert s == s[..i] + [s[i]] + s[i + 1..j] + [s[j]] + s[j + 1..];
  }

  lemma DistinctOfMultiset(a: seq<string>, b: seq<string>)
    requires Distinct(a) && multiset(a) == multiset(b)
    ensures Distinct(b)
  {
    forall i, j | 0 <= i < j < |b| ensures b[i] != b[j] {
      DistinctOnce(a, b[i]);
      RepeatsCountTwice(b, i, j);
    }
  }

  /** Canonical keys are sorted, duplicate-free, and determined by the set of keys. */
  lemma CanonKeysShape(fields: seq<Field>)
    requires Distinct(Keys(fields))
    ensures Sorted(CanonKeys(fields)) && Distinct(CanonKeys(fields))
  {
    DistinctOfMultiset(Keys(fields), Sort(Keys(fields)));
    FilterDistinct(Sort(Keys(fields)));
    FilterSorted(Sort(Keys(fields)));
  }

  lemma CanonKeysSame(a: seq<Field>, b: seq<Field>)
    requires Distinct(Keys(a)) && Distinct(Keys(b))
    requires KeySet(a) - {PROTO} == KeySet(b) - {PROTO}
    ensures CanonKeys(a) == CanonKeys(b)
  {
    CanonKeysShape(a);
    CanonKeysShape(b);
    forall x ensures multiset(CanonKeys(a))[x] == multiset(CanonKeys(b))[x] {
      DistinctOnce(CanonKeys(a), x);
      DistinctOnce(CanonKeys(b), x);
    }
    SortedUnique(CanonKeys(a), CanonKeys(b));
  }

  lemma IndexIsUnique(fields: seq<Field>, i: nat)
    requires i < |fields| && Distinct(Keys(fields))
    ensures fields[i].key in KeySet(fields) && IndexOf(fields, fields[i].key) == i
  {
    var j := IndexOf(fields, fields[i].key);
    assert Keys(fields)[i] == Keys(fields)[j];
  }

  // ── The canonical form keeps the visible data ─────────────────────────────

  /** A canonical value is well formed, has no hidden member, and is the visible data of the original. */
  lemma {:induction false} CanonKeepsView(j: Json)
    requires WellFormed(j)
    ensures WellFormed(Canon(j)) && NoProto(Canon(j))
    ensures Meaning(Canon(j)) == View(j, {PROTO})
    decreases j
  {
    match j
    case Atom(_) =>
    case Arr(items) =>
      forall i | 0 <= i < |items|
        ensures WellFormed(Canon(items[i])) && NoProto(Canon(items[i]))
                && Meaning(Canon(items[i])) == View(items[i], {PROTO})
      {
        CanonKeepsView(items[i]);
      }
    case Obj(fields) => CanonKeepsObject(j);
  }

  lemma {:induction false} CanonKeepsObject(j: Json)
    requires WellFormed(j) && j.Obj?
    ensures WellFormed(Canon(j)) && NoProto(Canon(j))
    ensures Meaning(Canon(j)) == View(j, {PROTO})
    decreases j, 0
  {
    var fields, out := j.fields, Canon(j).fields;
    forall k | k in CanonKeys(fields)
      ensures WellFormed(CanonAt(fields, k)) && NoProto(CanonAt(fields, k))
      ensures Meaning(CanonAt(fields, k)) == View(fields[IndexOf(fields, k)].value, {PROTO})
    {
      CanonKeepsView(fields[IndexOf(fields, k)].value);
    }
    CanonFields(fields);
    CanonKeysShape(fields);
    MembersKept(fields);
  }

  /** The members of a canonical object: its keys, and under each the canonical value. */
  lemma CanonFields(fields: seq<Field>)
    ensures var out := Canon(Obj(fields)).fields;
            && Keys(out) == CanonKeys(fields)
            && KeySet(out) == KeySet(fields) - {PROTO}
            && (forall i :: 0 <= i < |out| ==>
                 out[i].key in CanonKeys(fields) && out[i].value == CanonAt(fields, out[i].key))
  {
    var out, keys := Canon(Obj(fields)).fields, CanonKeys(fields);
    assert Keys(out) == keys;
    assert forall i :: 0 <= i < |out| ==> out[i].key == keys[i] && keys[i] in keys;
    forall k ensures k in KeySet(out) <==> k in KeySet(fields) - {PROTO} {
      if k in keys {
        var i :| 0 <= i < |keys| && keys[i] == k;
        assert out[i].key == k;
      }
    }
  }

  lemma MembersKept(fields: seq<Field>)
    requires forall k :: k in CanonKeys(fields) ==>
             Meaning(CanonAt(fields, k)) == View(fields[IndexOf(fields, k)].value, {PROTO})
    ensures Meaning(Canon(Obj(fields))) == View(Obj(fields), {PROTO})
  {
    var out := Canon(Obj(fields)).fields;
    CanonFields(fields);
    Members(out, {});
    Members(fields, {PROTO});
    SameMembers(View(Obj(out), {}).members, View(Obj(fields), {PROTO}).members, out, fields);
  }

  lemma Members(fields: seq<Field>, hidden: set<string>)
    ensures View(Obj(fields), hidden).Object?
    ensures var members := View(Obj(fields), hidden).members;
            && members.Keys == KeySet(fields) - hidden
            && forall k :: k in members ==> members[k] == View(fields[IndexOf(fields, k)].value, hidden)
  {
  }

  lemma SameMembers(ms: map<string, Data>, ns: map<string, Data>, out: seq<Field>, fields: seq<Field>)
    requires ms.Keys == KeySet(out) && ns.Keys == KeySet(fields) - {PROTO} == KeySet(out)
    requires forall k :: k in ms ==> ms[k] == View(out[IndexOf(out, k)].value, {})
    requires forall k :: k in ns ==> ns[k] == View(fields[IndexOf(fields, k)].value, {PROTO})
    requires forall k :: k in KeySet(out) ==>
               View(out[IndexOf(out, k)].value, {}) == View(fields[IndexOf(fields, k)].value, {PROTO})
    ensures ms == ns
  {
  }

  /** Values with the same visible data have the same canonical form. */
  lemma {:induction false} SameViewSameCanon(a: Json, b: Json)
    requires WellFormed(a) && WellFormed(b) && View(a, {PROTO}) == View(b, {PROTO})
    ensures Canon(a) == Canon(b)
    decreases a
  {
    match a
    case Atom(_) =>
    case Arr(items) =>
      var va, vb := View(a, {PROTO}).items, View(b, {PROTO}).items;
      assert |items| == |va| == |vb| == |b.items|;
      forall i | 0 <= i < |items| ensures Canon(items[i]) == Canon(b.items[i]) {
        assert va[i] == vb[i];
        SameViewSameCanon(items[i], b.items[i]);
      }
    case Obj(fields) =>
      SameKeys(fields, b.fields);
      forall k | k in CanonKeys(fields)
        ensures k in KeySet(b.fields) && CanonAt(fields, k) == CanonAt(b.fields, k)
      {
        SameMember(fields, b.fields, k);
        SameViewSameCanon(fields[IndexOf(fields, k)].value, b.fields[IndexOf(b.fields, k)].value);
      }
      SameObject(fields, b.fields);
  }

  function CanonAt(fields: seq<Field>, k: string): Json
    requires k in KeySet(fields)
  {
    Canon(fields[IndexOf(fields, k)].value)
  }

  lemma SameObject(a: seq<Field>, b: seq<Field>)
    requires CanonKeys(a) == CanonKeys(b)
    requires forall k :: k in CanonKeys(a) ==> k in KeySet(a) && k in KeySet(b) && CanonAt(a, k) == CanonAt(b, k)
    ensures Canon(Obj(a)) == Canon(Obj(b))
  {
    CanonFields(a);
    CanonFields(b);
    SameFields(Canon(Obj(a)).fields, Canon(Obj(b)).fields, a, b);
  }

  lemma SameFields(fa: seq<Field>, fb: seq<Field>, a: seq<Field>, b: seq<Field>)
    requires Keys(fa) == Keys(fb)
    requires forall i :: 0 <= i < |fa| ==> fa[i].key in KeySet(a) && fa[i].value == CanonAt(a, fa[i].key)
    requires forall i :: 0 <= i < |fb| ==> fb[i].key in KeySet(b) && fb[i].value == CanonAt(b, fb[i].key)
    requires forall i :: 0 <= i < |fa| ==> fa[i].key in KeySet(b) && CanonAt(a, fa[i].key) == CanonAt(b, fa[i].key)
    ensures fa == fb
  {
    assert |fa| == |Keys(fa)| == |fb|;
    forall i | 0 <= i < |fa| ensures fa[i] == fb[i] {
      assert Keys(fa)[i] == Keys(fb)[i];
    }
  }

  lemma SameKeys(a: seq<Field>, b: seq<Field>)
    requires Distinct(Keys(a)) && Distinct(Keys(b)) && View(Obj(a), {PROTO}) == View(Obj(b), {PROTO})
    ensures CanonKeys(a) == CanonKeys(b)
  {
    var ma, mb := View(Obj(a), {PROTO}).members, View(Obj(b), {PROTO}).members;
    assert ma.Keys == KeySet(a) - {PROTO} && mb.Keys == KeySet(b) - {PROTO};
    CanonKeysSame(a, b);
  }

  lemma SameMember(a: seq<Field>, b: seq<Field>, k: string)
    requires View(Obj(a), {PROTO}) == View(Obj(b), {PROTO}) && k in KeySet(a) - {PROTO}
    ensures k in KeySet(b) && View(a[IndexOf(a, k)].value, {PROTO}) == View(b[IndexOf(b, k)].value, {PROTO})
  {
    var ma, mb := View(Obj(a), {PROTO}).members, View(Obj(b), {PROTO}).members;
    assert ma.Keys == KeySet(a) - {PROTO} && mb.Keys == KeySet(b) - {PROTO};
    assert ma[k] == mb[k];
  }

  /** Two values get the same canonical form exactly when they are equal up to key order and hidden members. */
  lemma CanonDecidesView(a: Json, b: Json)
    requires WellFormed(a) && WellFormed(b)
    ensures Canon(a) == Canon(b) <==> View(a, {PROTO}) == View(b, {PROTO})
  {
    CanonKeepsView(a);
    CanonKeepsView(b);
    if View(a, {PROTO}) == View(b, {PROTO}) {
      SameViewSameCanon(a, b);
    }
  }

  lemma CanonIdempotent(j: Json)
    requires WellFormed(j)
    ensures Canon(Canon(j)) == Canon(j)
  {
    CanonKeepsView(j);
    ViewWithoutProto(Canon(j));
    SameViewSameCanon(Canon(j), j);
  }

  /** Hiding changes the data exactly when there is something to hide. */
  lemma {:induction false} ViewWithoutProto(j: Json)
    requires WellFormed(j)
    ensures View(j, {PROTO}) == Meaning(j) <==> NoProto(j)
    decreases j
  {
    match j
    case Atom(_) =>
    case Arr(items) =>
      var hidden, full := View(j, {PROTO}).items, Meaning(j).items;
      assert |hidden| == |full| == |items|;
      forall i | 0 <= i < |items| ensures hidden[i] == full[i] <==> NoProto(items[i]) {
        ViewWithoutProto(items[i]);
      }
    case Obj(fields) =>
      var hidden, full := View(j, {PROTO}).members, Meaning(j).members;
      assert hidden.Keys == KeySet(fields) - {PROTO} && full.Keys == KeySet(fields);
      if PROTO !in KeySet(fields) {
        forall i | 0 <= i < |fields| ensures hidden[fields[i].key] == full[fields[i].key] <==>
            NoProto(fields[i].value) {
          IndexIsUnique(fields, i);
          ViewWithoutProto(fields[i].value);
        }
        if NoProto(j) {
          forall k | k in full ensures hidden[k] == full[k] {
            assert fields[IndexOf(fields, k)].key == k;
          }
        }
      }
  }

  /** The canonical form is faithful to a value exactly when no object in it has a member named "__proto__". */
  lemma CanonFaithfulExactly(j: Json)
    requires WellFormed(j)
    ensures Meaning(Canon(j)) == Meaning(j) <==> NoProto(j)
  {
    CanonKeepsView(j);
    ViewWithoutProto(j);
  }

  /** For such values: same form if and only if equal up to key order at every depth. */
  lemma CanonDecidesMeaning(a: Json, b: Json)
    requires WellFormed(a) && WellFormed(b) && NoProto(a) && NoProto(b)
    ensures Canon(a) == Canon(b) <==> Meaning(a) == Meaning(b)
  {
    CanonDecidesView(a, b);
    ViewWithoutProto(a);
    ViewWithoutProto(b);
  }

  /** A member named "__proto__" may say anything without changing the form. */
  lemma ProtoIsLost(value: Json, other: Json)
    requires WellFormed(value) && WellFormed(other) && Meaning(value) != Meaning(other)
    ensures var a, b := Obj([Field(PROTO, value)]), Obj([Field(PROTO, other)]);
            Meaning(a) != Meaning(b) && Canon(a) == Canon(b)
  {
    var a, b := Obj([Field(PROTO, value)]), Obj([Field(PROTO, other)]);
    assert a.fields[0].key == PROTO && b.fields[0].key == PROTO;
    assert KeySet(a.fields) == {PROTO} && KeySet(b.fields) == {PROTO};
    assert Meaning(a).members[PROTO] == Meaning(value) && Meaning(b).members[PROTO] == Meaning(other);
    assert View(a, {PROTO}) == View(b, {PROTO});
    SameViewSameCanon(a, b);
  }
}
