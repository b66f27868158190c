/** What the expansion of a usage pattern is for: finding the elements that may be given more than
    once (fix_repeating_arguments). */
module DocoptRepeats {
  import opened DocoptPattern
  import opened DocoptTransform

  // ------------------------------------------------------------- which alternatives there are

  /** bs chooses one alternative of each pattern. */
  ghost predicate Choice(ps: seq<Pattern>, bs: seq<Bag>) {
    |bs| == |ps| && forall k :: 0 <= k < |ps| ==> bs[k] in Alternatives(ps[k])
  }

  ghost function Total(bs: seq<Bag>): Bag {
    if bs == [] then multiset{} else bs[0] + Total(bs[1..])
  }

  lemma {:induction false} InShift(x: Bag, bs: seq<Bag>, b: Bag)
    ensures b in Shift(x, bs) <==> exists y :: y in bs && b == x + y
  {
    if bs != [] { InShift(x, bs[1..], b); }
  }

  lemma {:induction false} InCross(a: seq<Bag>, c: seq<Bag>, b: Bag)
    ensures b in Cross(a, c) <==> exists x, y :: x in a && y in c && b == x + y
  {
    if a != [] {
      InCross(a[1..], c, b);
      InShift(a[0], c, b);
    }
  }

  /** The alternatives of a group are what its patterns come to, one alternative of each. */
  lemma {:induction false} GroupAlternatives(ps: seq<Pattern>, b: Bag)
    ensures b in AllOf(ps) <==> exists bs :: Choice(ps, bs) && b == Total(bs)
    decreases |ps|
  {
    hide Alternatives, Cross;
    if ps == [] {
      assert Choice(ps, []) && Total([]) == multiset{};
    } else {
      InCross(Alternatives(ps[0]), AllOf(ps[1..]), b);
      if b in AllOf(ps) {
        var x, y :| x in Alternatives(ps[0]) && y in AllOf(ps[1..]) && b == x + y;
        GroupAlternatives(ps[1..], y);
        var bs :| Choice(ps[1..], bs) && y == Total(bs);
        ChoiceMore(ps, x, bs);
        assert ([x] + bs)[1..] == bs;
      }
      forall bs | Choice(ps, bs) && b == Total(bs) ensures b in AllOf(ps) {
        GroupAlternatives(ps[1..], Total(bs[1..]));
        assert Choice(ps[1..], bs[1..]) by { ChoiceLess(ps, bs); }
      }
    }
  }

  lemma ChoiceMore(ps: seq<Pattern>, x: Bag, bs: seq<Bag>)
    requires ps != [] && x in Alternatives(ps[0]) && Choice(ps[1..], bs)
    ensures Choice(ps, [x] + bs)
  {
    hide Alternatives;
    forall k | 0 <= k < |ps| ensures ([x] + bs)[k] in Alternatives(ps[k]) {
      if k > 0 { assert ps[k] == ps[1..][k - 1] && ([x] + bs)[k] == bs[k - 1]; }
    }
  }

  lemma ChoiceLess(ps: seq<Pattern>, bs: seq<Bag>)
    requires ps != [] && Choice(ps, bs)
    ensures Choice(ps[1..], bs[1..])
  {
    hide Alternatives;
    forall k | 0 <= k < |ps[1..]| ensures bs[1..][k] in Alternatives(ps[1..][k]) {
      assert ps[1..][k] == ps[k + 1] && bs[1..][k] == bs[k + 1];
    }
  }

  /** Those of a choice are those of its patterns; those of a repetition are any two of the group
      together; those of the other branches are those of the group. */
  lemma BranchAlternatives(kind: Kind, ps: seq<Pattern>, b: Bag)
    ensures kind == Either ==>
      (b in Alternatives(Branch(kind, ps)) <==> exists k :: 0 <= k < |ps| && b in Alternatives(ps[k]))
    ensures kind == OneOrMore ==>
      (b in Alternatives(Branch(kind, ps)) <==> exists x, y :: x in AllOf(ps) && y in AllOf(ps) && b == x + y)
    ensures kind in {Required, Optional, OptionsShortcut} ==>
      (b in Alternatives(Branch(kind, ps)) <==> exists bs :: Choice(ps, bs) && b == Total(bs))
  {
    InAnyOf(ps, b);
    InCross(AllOf(ps), AllOf(ps), b);
    GroupAlternatives(ps, b);
    hide AllOf, AnyOf, Cross;
  }

  lemma {:induction false} InAnyOf(ps: seq<Pattern>, b: Bag)
    ensures b in AnyOf(ps) <==> exists k :: 0 <= k < |ps| && b in Alternatives(ps[k])
    decreases |ps|
  {
    hide Alternatives;
    if ps != [] {
      InAnyOf(ps[1..], b);
      assert forall k :: 1 <= k < |ps| ==> ps[k] == ps[1..][k - 1];
      if b in AnyOf(ps[1..]) {
        var k :| 0 <= k < |ps[1..]| && b in Alternatives(ps[1..][k]);
        assert ps[k + 1] == ps[1..][k];
      }
    }
  }

  // --------------------------------------------------------- how often an element may occur

  /** Some alternative exists: not every choice is empty. */
  ghost predicate Possible(p: Pattern)
    decreases p, 1
  {
    match p
    case Leaf(_) => true
    case Branch(Either, children) => AnyPossible(children)
    case Branch(_, children) => AllPossible(children)
  }

  ghost predicate AllPossible(ps: seq<Pattern>)
    decreases ps, 0
  {
    ps == [] || (Possible(ps[0]) && AllPossible(ps[1..]))
  }

  ghost predicate AnyPossible(ps: seq<Pattern>)
    decreases ps, 0
  {
    ps != [] && (Possible(ps[0]) || AnyPossible(ps[1..]))
  }

  /** How often x can be given at most, when whatever is repeated is given twice. */
  ghost function Most(p: Pattern, x: LeafPattern): nat
    decreases p, 1
  {
    match p
    case Leaf(leaf) => if leaf == x then 1 else 0
    case Branch(Either, children) => MostOfAny(children, x)
    case Branch(OneOrMore, children) => 2 * MostOfAll(children, x)
    case Branch(_, children) => MostOfAll(children, x)
  }

  ghost function MostOfAll(ps: seq<Pattern>, x: LeafPattern): nat
    decreases ps, 0
  {
    if ps == [] || !AllPossible(ps) then 0 else Most(ps[0], x) + MostOfAll(ps[1..], x)
  }

  ghost function MostOfAny(ps: seq<Pattern>, x: LeafPattern): nat
    decreases ps, 0
  {
    if ps == [] then 0 else Max(Most(ps[0], x), MostOfAny(ps[1..], x))
  }

  function Max(a: nat, b: nat): nat {
    if a < b then b else a
  }

  /** The largest number of times x is in one of the bags. */
  ghost function Peak(bs: seq<Bag>, x: LeafPattern): nat {
    if bs == [] then 0 else Max(bs[0][x], Peak(bs[1..], x))
  }

  lemma {:induction false} PeakReached(bs: seq<Bag>, x: LeafPattern, n: nat)
    requires n > 0
    ensures Peak(bs, x) >= n <==> exists b :: b in bs && b[x] >= n
  {
    if bs != [] {
      PeakReached(bs[1..], x, n);
      assert bs[0] in bs && forall b :: b in bs[1..] ==> b in bs;
    }
  }

  lemma {:induction false} PeakAppend(a: seq<Bag>, b: seq<Bag>, x: LeafPattern)
    ensures Peak(a + b, x) == Max(Peak(a, x), Peak(b, x))
  {
    if a == [] {
      assert a + b == b;
    } else {
      assert (a + b)[1..] == a[1..] + b;
      PeakAppend(a[1..], b, x);
    }
  }

  lemma {:induction false} PeakShift(y: Bag, bs: seq<Bag>, x: LeafPattern)
    ensures |Shift(y, bs)| == |bs| && Peak(Shift(y, bs), x) == if bs == [] then 0 else y[x] + Peak(bs, x)
  {
    if bs != [] {
      PeakShift(y, bs[1..], x);
      assert Shift(y, bs)[1..] == Shift(y, bs[1..]) && (y + bs[0])[x] == y[x] + bs[0][x];
    }
  }

  lemma {:induction false} PeakCross(a: seq<Bag>, b: seq<Bag>, x: LeafPattern)
    ensures Cross(a, b) == [] <==> a == [] || b == []
    ensures Peak(Cross(a, b), x) == if a == [] || b == [] then 0 else Peak(a, x) + Peak(b, x)
  {
    if a != [] {
      PeakCross(a[1..], b, x);
      PeakShift(a[0], b, x);
      PeakAppend(Shift(a[0], b), Cross(a[1..], b), x);
    }
  }

  lemma {:induction false} MostIsPeak(p: Pattern, x: LeafPattern)
    ensures Alternatives(p) != [] <==> Possible(p)
    ensures Most(p, x) == Peak(Alternatives(p), x)
    decreases p, 1
  {
    match p {
      case Leaf(leaf) =>
        assert [multiset{leaf}][1..] == [];
      case Branch(kind, children) =>
        MostIsPeakOfAll(children, x);
        MostIsPeakOfAny(children, x);
        PeakCross(AllOf(children), AllOf(children), x);
    }
  }

  lemma {:induction false} MostIsPeakOfAll(ps: seq<Pattern>, x: LeafPattern)
    ensures AllOf(ps) != [] <==> AllPossible(ps)
    ensures MostOfAll(ps, x) == Peak(AllOf(ps), x)
    decreases ps, 0
  {
    if ps == [] {
      var none: Bag := multiset{};
      assert AllOf(ps) == [none] && [none][1..] == [];
    } else {
      MostIsPeak(ps[0], x);
      MostIsPeakOfAll(ps[1..], x);
      PeakCross(Alternatives(ps[0]), AllOf(ps[1..]), x);
    }
  }

  lemma {:induction false} MostIsPeakOfAny(ps: seq<Pattern>, x: LeafPattern)
    ensures AnyOf(ps) != [] <==> AnyPossible(ps)
    ensures MostOfAny(ps, x) == Peak(AnyOf(ps), x)
    decreases ps, 0
  {
    if ps != [] {
      MostIsPeak(ps[0], x);
      MostIsPeakOfAny(ps[1..], x);
      PeakAppend(Alternatives(ps[0]), AnyOf(ps[1..]), x);
    }
  }

  // ------------------------------------------------------------------ fix_repeating_arguments

  ghost predicate Repeats(groups: seq<Group>, x: LeafPattern)
    requires forall k :: 0 <= k < |groups| ==> AllLeaves(groups[k])
  {
    exists b :: b in Bags(groups) && b[x] >= 2
  }

  lemma RepeatsIff(groups: seq<Group>, pattern: Group, x: LeafPattern)
    requires forall k :: 0 <= k < |groups| ==> AllLeaves(groups[k])
    requires multiset(Bags(groups)) == multiset(AllOf(pattern))
    ensures Repeats(groups, x) <==> MostOfAll(pattern, x) >= 2
  {
    hide AllOf, Bags, MostOfAll;
    SameElements(Bags(groups), AllOf(pattern));
    MostIsPeakOfAll(pattern, x);
    PeakReached(AllOf(pattern), x, 2);
  }

  lemma SameElements(a: seq<Bag>, b: seq<Bag>)
    requires multiset(a) == multiset(b)
    ensures forall x :: x in a <==> x in b
  {
    assert forall x :: x in a <==> x in multiset(a);
    assert forall x :: x in b <==> x in multiset(b);
  }

  /** The leaves a group has more than once. */
  method Twice(g: Group) returns (found: set<LeafPattern>)
    requires AllLeaves(g)
    ensures forall x :: x in found <==> multiset(LeavesOf(g))[x] >= 2
  {
    var leaves := LeavesOf(g);
    var bag := multiset(leaves);
    found := {};
    for i := 0 to |leaves|
      invariant forall x :: x in found <==> x in leaves[..i] && bag[x] >= 2
    {
      assert leaves[..i + 1] == leaves[..i] + [leaves[i]];
      if bag[leaves[i]] != 1 {
        assert leaves[i] in bag;
        found := found + {leaves[i]};
      }
    }
    assert leaves[..|leaves|] == leaves;
    assert forall x :: bag[x] >= 2 ==> x in bag;
  }

  /** The elements that get a list or a counter: exactly those that some command line may have more
      than once. */
  method RepeatingArguments(pattern: Group) returns (found: set<LeafPattern>)
    ensures forall x :: x in found <==> MostOfAll(pattern, x) >= 2
  {
    hide AllOf, MostOfAll, AllLeaves;
    var either := Transform(pattern);
    found := {};
    for i := 0 to |either|
      invariant forall x :: x in found <==> exists k :: 0 <= k < i && Bags(either)[k][x] >= 2
    {
      var twice := Twice(either[i]);
      assert Bags(either)[i] == multiset(LeavesOf(either[i]));
      found := found + twice;
    }
    forall x ensures x in found <==> MostOfAll(pattern, x) >= 2 {
      RepeatsIff(either, pattern, x);
    }
  }
}
