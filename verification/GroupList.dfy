/** A user's list of groups, and taking groups away from it: nobody is left without any. */
module GroupList {
  import opened Prelude

  /** What everybody falls back to. */
  const BASE_GROUP: string := "users"

  /** `groups.filter(g => !gone.has(g))` */
  function Without(groups: seq<string>, gone: set<string>): (r: seq<string>)
    ensures forall g :: g in r <==> g in groups && g !in gone
    ensures (forall g :: g in groups ==> g !in gone) ==> r == groups
  {
    if groups == [] then []
    else if groups[0] in gone then assert groups[0] in groups; Without(groups[1..], gone)
    else [groups[0]] + Without(groups[1..], gone)
  }

  /** A group list without `gone`; never emptied, and untouched when it holds none of them. */
  function Stripped(groups: seq<string>, gone: set<string>): seq<string> {
    if forall g :: g in groups ==> g !in gone then groups
    else
      var next := Without(groups, gone);
      if next == [] then [BASE_GROUP] else next
  }

  /** A list that lost everything is left with the default group. */
  predicate LeftWith(before: seq<string>, rest: seq<string>, after: seq<string>) {
    after == if rest == [] && before != [] then [BASE_GROUP] else rest
  }

  /** Taking groups away keeps the order of the others. */
  lemma {:induction false} WithoutFilters(groups: seq<string>, gone: set<string>, kept: string -> bool)
    requires forall g :: kept(g) <==> g !in gone
    ensures Without(groups, gone) == Filter(groups, kept)
  {
    if groups != [] {
      WithoutFilters(groups[1..], gone, kept);
    }
  }

  lemma StrippedLeavesRest(groups: seq<string>, gone: set<string>, kept: string -> bool)
    requires forall g :: kept(g) <==> g !in gone
    ensures LeftWith(groups, Filter(groups, kept), Stripped(groups, gone))
  {
    WithoutFilters(groups, gone, kept);
  }

  lemma {:induction false} WithoutTwice(groups: seq<string>, gone: set<string>, g: string)
    ensures Without(Without(groups, gone), {g}) == Without(groups, gone + {g})
  {
    if groups != [] {
      WithoutTwice(groups[1..], gone, g);
      if groups[0] !in gone {
        assert Without(groups, gone)[1..] == Without(groups[1..], gone);
      }
    }
  }

  /** Removing groups one after another is removing them together, as long as the default group is not among them. */
  lemma StrippedStep(groups: seq<string>, gone: set<string>, g: string)
    requires BASE_GROUP !in gone && g != BASE_GROUP
    ensures Stripped(Stripped(groups, gone), {g}) == Stripped(groups, gone + {g})
  {
    WithoutTwice(groups, gone, g);
    if (forall x :: x in groups ==> x !in gone) {
      assert Without(groups, gone) == groups;
    } else if Without(groups, gone) != [] && g !in Stripped(groups, gone) {
      assert Without(Without(groups, gone), {g}) == Without(groups, gone);
    }
  }

  lemma {:induction false} NothingWithout(groups: seq<string>, name: string)
    ensures Without(groups, {name}) == [] <==> forall g :: g in groups ==> g == name
  {
    if groups != [] {
      NothingWithout(groups[1..], name);
      assert groups[0] in groups;
    }
  }

  lemma BaseWithout(name: string)
    ensures Without([BASE_GROUP], {name}) == if name != BASE_GROUP then [BASE_GROUP] else []
  {
    NothingWithout([BASE_GROUP], name);
  }

  /** Taking one group away, spelled out. */
  lemma StrippedExactly(before: seq<string>, name: string)
    ensures var after := Stripped(before, {name});
            && Without(after, {name})
                 == (if name in before && Without(before, {name}) == [] && name != BASE_GROUP
                     then [BASE_GROUP] else Without(before, {name}))
            && (before != [] ==> after != [])
            && (name in after <==> name == BASE_GROUP && name in before && forall g :: g in before ==> g == BASE_GROUP)
  {
    var rest := Without(before, {name});
    NothingWithout(before, name);
    BaseWithout(name);
    assert Without(rest, {name}) == rest;
  }
}
