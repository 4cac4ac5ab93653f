/** Stable sorting by any total preorder, as `Array.prototype.sort` does it, and cutting the front off the result. */
module Ranking {
  import opened Prelude

  /** `leq(a, b)`: a need not come after b. */
  ghost predicate Preorder<T(!new)>(leq: (T, T) -> bool) {
    && (forall a, b :: leq(a, b) || leq(b, a))
    && (forall a, b, c :: leq(a, b) && leq(b, c) ==> leq(a, c))
  }

  function Placed<T>(x: T, s: seq<T>, leq: (T, T) -> bool): seq<T> {
    if s == [] || leq(x, s[0]) then [x] + s else [s[0]] + Placed(x, s[1..], leq)
  }

  function Ranked<T>(s: seq<T>, leq: (T, T) -> bool): seq<T> {
    if s == [] then [] else Placed(s[0], Ranked(s[1..], leq), leq)
  }

  predicate InOrder<T>(s: seq<T>, leq: (T, T) -> bool) {
    forall i, j :: 0 <= i < j < |s| ==> leq(s[i], s[j])
  }

  lemma {:induction false} PlacedElements<T>(x: T, s: seq<T>, leq: (T, T) -> bool)
    ensures multiset(Placed(x, s, leq)) == multiset(s) + multiset{x}
  {
    if s != [] && !leq(x, s[0]) {
      PlacedElements(x, s[1..], leq);
      assert s == [s[0]] + s[1..];
    }
  }

  /** Sorting loses and invents nothing. */
  lemma {:induction false} RankedElements<T>(s: seq<T>, leq: (T, T) -> bool)
    ensures multiset(Ranked(s, leq)) == multiset(s)
    ensures |Ranked(s, leq)| == |s|
  {
    if s != [] {
      RankedElements(s[1..], leq);
      PlacedElements(s[0], Ranked(s[1..], leq), leq);
      assert s == [s[0]] + s[1..];
    }
    assert |multiset(Ranked(s, leq))| == |Ranked(s, leq)| && |multiset(s)| == |s|;
  }

  lemma SameMembers<T>(a: seq<T>, b: seq<T>)
    requires multiset(a) == multiset(b)
    ensures forall x :: x in a <==> x in b
  {
    forall x ensures x in a <==> x in b {
      assert x in a <==> x in multiset(a);
      assert x in b <==> x in multiset(b);
    }
  }

  lemma {:induction false} PlacedInOrder<T(!new)>(x: T, s: seq<T>, leq: (T, T) -> bool)
    requires Preorder(leq) && InOrder(s, leq)
    ensures InOrder(Placed(x, s, leq), leq)
  {
    if s == [] || leq(x, s[0]) {
      assert forall j :: 0 <= j < |s| ==> leq(x, s[j]);
    } else {
      var rest := Placed(x, s[1..], leq);
      PlacedInOrder(x, s[1..], leq);
      PlacedElements(x, s[1..], leq);
      forall j | 0 <= j < |rest| ensures leq(s[0], rest[j]) {
        assert rest[j] in multiset(rest);
        assert rest[j] == x || rest[j] in s[1..];
      }
    }
  }

  lemma {:induction false} RankedInOrder<T(!new)>(s: seq<T>, leq: (T, T) -> bool)
    requires Preorder(leq)
    ensures InOrder(Ranked(s, leq), leq)
  {
    if s != [] {
      RankedInOrder(s[1..], leq);
      PlacedInOrder(s[0], Ranked(s[1..], leq), leq);
    }
  }

  /** What ties with `t`. */
  function Ties<T>(leq: (T, T) -> bool, t: T): T -> bool {
    (x: T) => leq(x, t) && leq(t, x)
  }

  lemma {:induction false} PlacedStable<T(!new)>(x: T, s: seq<T>, leq: (T, T) -> bool, t: T)
    requires Preorder(leq)
    ensures Filter(Placed(x, s, leq), Ties(leq, t)) == Filter([x] + s, Ties(leq, t))
  {
    var p := Ties(leq, t);
    if s != [] && !leq(x, s[0]) {
      PlacedStable(x, s[1..], leq, t);
      assert ([s[0]] + Placed(x, s[1..], leq))[1..] == Placed(x, s[1..], leq);
      assert ([x] + s)[1..] == s && ([x] + s[1..])[1..] == s[1..];
      assert !(p(x) && p(s[0]));
    }
  }

  /** Elements that tie keep their order. */
  lemma {:induction false} RankedStable<T(!new)>(s: seq<T>, leq: (T, T) -> bool, t: T)
    requires Preorder(leq)
    ensures Filter(Ranked(s, leq), Ties(leq, t)) == Filter(s, Ties(leq, t))
  {
    if s != [] {
      RankedStable(s[1..], leq, t);
      PlacedStable(s[0], Ranked(s[1..], leq), leq, t);
      assert ([s[0]] + Ranked(s[1..], leq))[1..] == Ranked(s[1..], leq);
    }
  }

  lemma {:induction false} PlacedCount<T(!new)>(x: T, s: seq<T>, leq: (T, T) -> bool, p: T -> bool)
    ensures Count(Placed(x, s, leq), p) == Count(s, p) + if p(x) then 1 else 0
  {
    if s == [] || leq(x, s[0]) {
      assert ([x] + s)[1..] == s;
    } else {
      PlacedCount(x, s[1..], leq, p);
      assert ([s[0]] + Placed(x, s[1..], leq))[1..] == Placed(x, s[1..], leq);
    }
  }

  /** Sorting changes no count. */
  lemma {:induction false} RankedCount<T(!new)>(s: seq<T>, leq: (T, T) -> bool, p: T -> bool)
    ensures Count(Ranked(s, leq), p) == Count(s, p)
  {
    if s != [] {
      RankedCount(s[1..], leq, p);
      PlacedCount(s[0], Ranked(s[1..], leq), leq, p);
    }
  }

  lemma {:induction false} DistinctOnce<T>(s: seq<T>)
    ensures Distinct(s) <==> forall x :: multiset(s)[x] <= 1
  {
    if s != [] {
      var n := |s| - 1;
      DistinctOnce(s[..n]);
      assert s == s[..n] + [s[n]];
      assert s[n] in s[..n] <==> multiset(s[..n])[s[n]] > 0;
      if Distinct(s) {
        assert s[n] !in s[..n];
      } else if Distinct(s[..n]) {
        var i, j :| 0 <= i < j < |s| && s[i] == s[j];
        assert j == n && s[i] in s[..n];
        assert multiset(s)[s[n]] > 1;
      } else {
        var x :| multiset(s[..n])[x] > 1;
        assert multiset(s)[x] > 1;
      }
    }
  }

  /** Distinct elements stay distinct. */
  lemma RankedDistinct<T>(s: seq<T>, leq: (T, T) -> bool)
    requires Distinct(s)
    ensures Distinct(Ranked(s, leq))
  {
    RankedElements(s, leq);
    DistinctOnce(s);
    DistinctOnce(Ranked(s, leq));
  }

  /** `slice(0, n)` */
  function First<T>(s: seq<T>, n: nat): (r: seq<T>)
    ensures r <= s && |r| == if |s| <= n then |s| else n
  {
    if |s| <= n then s else s[..n]
  }
}
