/** The worklist that flattens a usage pattern into alternatives without branches, in the two
    orders the repository has: docopt_private.h takes the first branch of a group, docopt.py the
    first branch of the most urgent type. */
module DocoptTransform {
  import opened DocoptPattern

  type Group = seq<Pattern>

  // ------------------------------------------------------------------- one expansion

  /** The groups that replace a group when its branch at index i is taken out and expanded. */
  function Expand(g: Group, i: nat): seq<Group>
    requires i < |g| && g[i].Branch?
  {
    var rest := g[..i] + g[i + 1..];
    match g[i].kind
    case Either => seq(|g[i].children|, k requires 0 <= k < |g[i].children| => [g[i].children[k]] + rest)
    case OneOrMore => [g[i].children + g[i].children + rest]
    case _ => [g[i].children + rest]
  }

  /** The bags of all alternatives of all groups. */
  ghost function Meaning(groups: seq<Group>): multiset<Bag> {
    if groups == [] then multiset{} else multiset(AllOf(groups[0])) + Meaning(groups[1..])
  }

  lemma {:induction false} MeaningAppend(a: seq<Group>, b: seq<Group>)
    ensures Meaning(a + b) == Meaning(a) + Meaning(b)
  {
    if a == [] {
      assert a + b == b;
    } else {
      assert (a + b)[1..] == a[1..] + b;
      MeaningAppend(a[1..], b);
    }
  }

  ghost function EachBefore(cs: seq<Pattern>, rest: Group): seq<Group> {
    if cs == [] then [] else [[cs[0]] + rest] + EachBefore(cs[1..], rest)
  }

  lemma {:induction false} EitherMeaning(cs: seq<Pattern>, rest: Group)
    ensures Meaning(EachBefore(cs, rest)) == multiset(Cross(AnyOf(cs), AllOf(rest)))
  {
    if cs != [] {
      EitherMeaning(cs[1..], rest);
      CrossAppend(Alternatives(cs[0]), AnyOf(cs[1..]), AllOf(rest));
      assert ([cs[0]] + rest)[1..] == rest;
      assert EachBefore(cs, rest)[1..] == EachBefore(cs[1..], rest);
    }
  }

  lemma {:induction false} EachBeforeIsSeq(cs: seq<Pattern>, rest: Group)
    ensures |EachBefore(cs, rest)| == |cs|
    ensures forall k :: 0 <= k < |cs| ==> EachBefore(cs, rest)[k] == [cs[k]] + rest
  {
    if cs != [] { EachBeforeIsSeq(cs[1..], rest); }
  }

  /** Whichever branch is expanded, no alternative is gained or lost. */
  lemma ExpandMeaning(g: Group, i: nat)
    requires i < |g| && g[i].Branch?
    ensures Meaning(Expand(g, i)) == multiset(AllOf(g))
  {
    hide AllOf, Alternatives, Cross, Expand, Meaning;
    var l, r := g[..i], g[i + 1..];
    assert g == l + [g[i]] + r;
    ToFront(l, g[i], r);
    match g[i].kind {
      case Either => ExpandEither(g, i);
      case OneOrMore => ExpandOneOrMore(g, i);
      case _ => ExpandPlain(g, i);
    }
  }

  lemma ExpandEither(g: Group, i: nat)
    requires i < |g| && g[i].Branch? && g[i].kind == Either
    ensures Meaning(Expand(g, i)) == multiset(Cross(Alternatives(g[i]), AllOf(g[..i] + g[i + 1..])))
  {
    var cs, rest := g[i].children, g[..i] + g[i + 1..];
    assert Alternatives(g[i]) == AnyOf(cs);
    hide AllOf, AnyOf, Alternatives, Cross, Meaning;
    EachBeforeIsSeq(cs, rest);
    hide EachBefore;
    assert Expand(g, i) == EachBefore(cs, rest);
    EitherMeaning(cs, rest);
  }

  lemma ExpandOneOrMore(g: Group, i: nat)
    requires i < |g| && g[i].Branch? && g[i].kind == OneOrMore
    ensures Meaning(Expand(g, i)) == multiset(Cross(Alternatives(g[i]), AllOf(g[..i] + g[i + 1..])))
  {
    var cs, rest := g[i].children, g[..i] + g[i + 1..];
    assert Alternatives(g[i]) == Cross(AllOf(cs), AllOf(cs)) && Expand(g, i) == [cs + cs + rest];
    hide AllOf, Alternatives, Cross, Meaning, Expand;
    AllOfAppend(cs, cs);
    AllOfAppend(cs + cs, rest);
    OneGroup(cs + cs + rest);
  }

  lemma ExpandPlain(g: Group, i: nat)
    requires i < |g| && g[i].Branch? && g[i].kind != Either && g[i].kind != OneOrMore
    ensures Meaning(Expand(g, i)) == multiset(Cross(Alternatives(g[i]), AllOf(g[..i] + g[i + 1..])))
  {
    var cs, rest := g[i].children, g[..i] + g[i + 1..];
    assert Alternatives(g[i]) == AllOf(cs) && Expand(g, i) == [cs + rest];
    hide AllOf, Alternatives, Cross, Meaning, Expand;
    AllOfAppend(cs, rest);
    OneGroup(cs + rest);
  }

  lemma OneGroup(g: Group)
    ensures Meaning([g]) == multiset(AllOf(g))
  {
    assert [g][1..] == [];
  }

  // --------------------------------------------------------------------- termination

  /** How much branching is left in a pattern; a repetition is copied, so it counts twice. */
  ghost function Weight(p: Pattern): nat
    decreases p, 1
  {
    match p
    case Leaf(_) => 0
    case Branch(kind, children) => 1 + (if kind == OneOrMore then 2 else 1) * WeightAll(children)
  }

  ghost function WeightAll(ps: seq<Pattern>): nat
    decreases ps, 0
  {
    if ps == [] then 0 else Weight(ps[0]) + WeightAll(ps[1..])
  }

  lemma {:induction false} WeightAppend(a: seq<Pattern>, b: seq<Pattern>)
    ensures WeightAll(a + b) == WeightAll(a) + WeightAll(b)
  {
    if a == [] {
      assert a + b == b;
    } else {
      assert (a + b)[1..] == a[1..] + b;
      WeightAppend(a[1..], b);
    }
  }

  lemma {:induction false} WeightOfOne(ps: seq<Pattern>, k: nat)
    requires k < |ps|
    ensures Weight(ps[k]) <= WeightAll(ps)
  {
    if k > 0 { WeightOfOne(ps[1..], k - 1); }
  }

  lemma SplitWeight(g: Group, i: nat)
    requires i < |g|
    ensures WeightAll(g) == Weight(g[i]) + WeightAll(g[..i] + g[i + 1..])
  {
    assert g == g[..i] + ([g[i]] + g[i + 1..]);
    WeightAppend(g[..i], [g[i]] + g[i + 1..]);
    WeightAppend(g[..i], g[i + 1..]);
    assert ([g[i]] + g[i + 1..])[1..] == g[i + 1..];
  }

  /** Every group an expansion yields has less branching left. */
  lemma ExpandLighter(g: Group, i: nat, k: nat)
    requires i < |g| && g[i].Branch? && k < |Expand(g, i)|
    ensures WeightAll(Expand(g, i)[k]) < WeightAll(g)
  {
    var cs, rest := g[i].children, g[..i] + g[i + 1..];
    SplitWeight(g, i);
    WeightAppend(cs, rest);
    WeightAppend(cs, cs);
    WeightAppend(cs + cs, rest);
    if g[i].kind == Either {
      WeightOfOne(cs, k);
      WeightAppend([cs[k]], rest);
      assert WeightAll([cs[k]]) == Weight(cs[k]);
    }
  }

  /** No branch, at any depth, has more than width children. */
  ghost predicate Narrow(p: Pattern, width: nat)
    decreases p, 1
  {
    p.Branch? ==> |p.children| <= width && NarrowAll(p.children, width)
  }

  ghost predicate NarrowAll(ps: seq<Pattern>, width: nat)
    decreases ps, 0
  {
    forall k :: 0 <= k < |ps| ==> Narrow(ps[k], width)
  }

  ghost predicate NarrowGroups(groups: seq<Group>, width: nat) {
    forall k :: 0 <= k < |groups| ==> NarrowAll(groups[k], width)
  }

  lemma NarrowAppend(a: seq<Pattern>, b: seq<Pattern>, width: nat)
    requires NarrowAll(a, width) && NarrowAll(b, width)
    ensures NarrowAll(a + b, width)
  {
  }

  lemma ExpandNarrow(g: Group, i: nat, width: nat)
    requires i < |g| && g[i].Branch? && NarrowAll(g, width)
    ensures NarrowGroups(Expand(g, i), width)
    ensures |Expand(g, i)| <= width + 1
  {
    assert Narrow(g[i], width);
    var gs, cs, rest := Expand(g, i), g[i].children, g[..i] + g[i + 1..];
    assert NarrowAll(cs, width);
    NarrowAppend(g[..i], g[i + 1..], width);
    NarrowAppend(cs, rest, width);
    NarrowAppend(cs, cs, width);
    NarrowAppend(cs + cs, rest, width);
    if g[i].kind == Either {
      forall k | 0 <= k < |gs| ensures NarrowAll(gs[k], width) {
        NarrowAppend([cs[k]], rest, width);
      }
    }
  }

  ghost function Width(p: Pattern): nat
    decreases p, 1
  {
    if p.Leaf? then 0 else |p.children| + WidthAll(p.children)
  }

  ghost function WidthAll(ps: seq<Pattern>): nat
    decreases ps, 0
  {
    if ps == [] then 0 else Width(ps[0]) + WidthAll(ps[1..])
  }

  lemma {:induction false} WideEnough(p: Pattern, width: nat)
    requires Width(p) <= width
    ensures Narrow(p, width)
    decreases p, 1
  {
    if p.Branch? { WideEnoughAll(p.children, width); }
  }

  lemma {:induction false} WideEnoughAll(ps: seq<Pattern>, width: nat)
    requires WidthAll(ps) <= width
    ensures NarrowAll(ps, width)
    decreases ps, 0
  {
    if ps != [] {
      WideEnough(ps[0], width);
      WideEnoughAll(ps[1..], width);
      assert forall k :: 1 <= k < |ps| ==> ps[k] == ps[1..][k - 1];
    }
  }

  ghost function Pow(b: nat, n: nat): nat {
    if n == 0 then 1 else b * Pow(b, n - 1)
  }

  lemma {:induction false} PowGrows(b: nat, m: nat, n: nat)
    requires b >= 1 && m <= n
    ensures 1 <= Pow(b, m) <= Pow(b, n)
    decreases n
  {
    if n > 0 {
      PowGrows(b, if m < n then m else m - 1, n - 1);
      if m < n {
        assert Pow(b, n - 1) <= b * Pow(b, n - 1);
      } else {
        assert 1 <= b * Pow(b, n - 1);
      }
    }
  }

  /** The number of rounds a worklist can still take, for patterns of the given width. */
  ghost function Effort(groups: seq<Group>, width: nat): nat {
    if groups == [] then 0 else Pow(width + 2, WeightAll(groups[0])) + Effort(groups[1..], width)
  }

  lemma {:induction false} EffortAppend(a: seq<Group>, b: seq<Group>, width: nat)
    ensures Effort(a + b, width) == Effort(a, width) + Effort(b, width)
  {
    if a == [] {
      assert a + b == b;
    } else {
      assert (a + b)[1..] == a[1..] + b;
      EffortAppend(a[1..], b, width);
    }
  }

  lemma {:induction false} EffortBound(groups: seq<Group>, width: nat, n: nat)
    requires forall k :: 0 <= k < |groups| ==> WeightAll(groups[k]) <= n
    ensures Effort(groups, width) <= |groups| * Pow(width + 2, n)
  {
    if groups != [] {
      EffortBound(groups[1..], width, n);
      PowGrows(width + 2, WeightAll(groups[0]), n);
      var q := Pow(width + 2, n);
      assert (|groups| - 1) * q + q == |groups| * q;
    }
  }

  /** Expanding a group leaves less to do, although it may multiply the groups. */
  lemma ExpandEffort(g: Group, i: nat, width: nat)
    requires i < |g| && g[i].Branch? && NarrowAll(g, width)
    ensures Effort(Expand(g, i), width) < Pow(width + 2, WeightAll(g))
  {
    var gs, n := Expand(g, i), WeightAll(g);
    SplitWeight(g, i);
    ExpandNarrow(g, i, width);
    forall k | 0 <= k < |gs| ensures WeightAll(gs[k]) <= n - 1 { ExpandLighter(g, i, k); }
    EffortBound(gs, width, n - 1);
    PowGrows(width + 2, 0, n - 1);
    hide Expand, WeightAll;
    FewerTimes(|gs|, width, Pow(width + 2, n - 1));
  }

  lemma FewerTimes(count: nat, width: nat, q: nat)
    requires count <= width + 1 && q >= 1
    ensures count * q < (width + 2) * q
  {
    var d := width + 2 - count;
    assert (width + 2) * q == count * q + d * q;
    assert d * q >= q;
  }

  // --------------------------------------------------------------------- the worklist

  predicate AllLeaves(g: Group) {
    forall i :: 0 <= i < |g| ==> g[i].Leaf?
  }

  function LeavesOf(g: Group): seq<LeafPattern>
    requires AllLeaves(g)
  {
    seq(|g|, i requires 0 <= i < |g| => g[i].leaf)
  }

  /** The bags of groups that consist of leaves. */
  ghost function Bags(groups: seq<Group>): seq<Bag>
    requires forall k :: 0 <= k < |groups| ==> AllLeaves(groups[k])
  {
    seq(|groups|, k requires 0 <= k < |groups| => multiset(LeavesOf(groups[k])))
  }

  lemma {:induction false} LeavesMeaning(g: Group)
    requires AllLeaves(g)
    ensures AllOf(g) == [multiset(LeavesOf(g))]
  {
    if g == [] {
      assert LeavesOf(g) == [];
    } else {
      LeavesMeaning(g[1..]);
      assert LeavesOf(g) == [g[0].leaf] + LeavesOf(g[1..]);
      var x, b := multiset{g[0].leaf}, multiset(LeavesOf(g[1..]));
      assert Shift(x, [b]) == [x + b] && Cross([x], [b]) == Shift(x, [b]) + [];
    }
  }

  lemma {:induction false} BagsMeaning(groups: seq<Group>)
    requires forall k :: 0 <= k < |groups| ==> AllLeaves(groups[k])
    ensures multiset(Bags(groups)) == Meaning(groups)
  {
    hide AllOf, LeavesOf;
    if groups == [] {
      assert Bags(groups) == [];
    } else {
      BagsMeaning(groups[1..]);
      LeavesMeaning(groups[0]);
      BagsFirst(groups);
      hide Bags;
      OneMore(multiset(LeavesOf(groups[0])), Bags(groups[1..]));
    }
  }

  lemma BagsFirst(groups: seq<Group>)
    requires groups != [] && forall k :: 0 <= k < |groups| ==> AllLeaves(groups[k])
    ensures Bags(groups) == [multiset(LeavesOf(groups[0]))] + Bags(groups[1..])
  {
    hide LeavesOf;
  }

  lemma OneMore(x: Bag, bs: seq<Bag>)
    ensures multiset([x] + bs) == multiset([x]) + multiset(bs)
  {
  }

  /** The index of the first branch of a group, or its length. */
  method FirstBranch(g: Group) returns (i: nat)
    ensures i <= |g| && (i < |g| ==> g[i].Branch?)
    ensures forall j :: 0 <= j < i ==> g[j].Leaf?
  {
    i := 0;
    while i < |g| && g[i].Leaf?
      invariant i <= |g| && forall j :: 0 <= j < i ==> g[j].Leaf?
    {
      i := i + 1;
    }
  }

  /** The finished groups and the worklist together stand for the alternatives m. */
  ghost predicate Accounted(result: seq<Group>, groups: seq<Group>, m: multiset<Bag>, width: nat) {
    && (forall k :: 0 <= k < |result| ==> AllLeaves(result[k]))
    && Meaning(result) + Meaning(groups) == m && NarrowGroups(groups, width)
  }

  /** One more expansion brings the worklist closer to its end. */
  lemma OneRound(g: Group, i: nat, more: seq<Group>, result: seq<Group>, m: multiset<Bag>, width: nat)
    requires i < |g| && g[i].Branch? && Accounted(result, [g] + more, m, width)
    ensures Accounted(result, more + Expand(g, i), m, width)
    ensures Effort(more + Expand(g, i), width) < Effort([g] + more, width)
  {
    assert ([g] + more)[0] == g && ([g] + more)[1..] == more;
    assert NarrowGroups(more, width) by { assert forall k :: 0 <= k < |more| ==> more[k] == ([g] + more)[k + 1]; }
    ExpandEffort(g, i, width);
    EffortAppend(more, Expand(g, i), width);
    ExpandMeaning(g, i);
    MeaningAppend(more, Expand(g, i));
    ExpandNarrow(g, i, width);
  }

  lemma GroupDone(g: Group, more: seq<Group>, result: seq<Group>, m: multiset<Bag>, width: nat)
    requires AllLeaves(g) && Accounted(result, [g] + more, m, width)
    ensures Accounted(result + [g], more, m, width)
    ensures Effort(more, width) < Effort([g] + more, width)
  {
    DoneEffort(g, more, width);
    DoneMeaning(g, more, result);
    hide Meaning, AllLeaves, Effort;
    assert forall k :: 0 <= k < |more| ==> more[k] == ([g] + more)[k + 1];
  }

  lemma DoneEffort(g: Group, more: seq<Group>, width: nat)
    ensures Effort(more, width) < Effort([g] + more, width)
  {
    assert ([g] + more)[1..] == more;
    PowGrows(width + 2, 0, WeightAll(g));
  }

  lemma DoneMeaning(g: Group, more: seq<Group>, result: seq<Group>)
    ensures Meaning(result + [g]) + Meaning(more) == Meaning(result) + Meaning([g] + more)
  {
    hide Meaning;
    MeaningAppend(result, [g]);
    MeaningAppend([g], more);
    Regroup(Meaning(result), Meaning([g]), Meaning(more));
  }

  lemma Regroup(a: multiset<Bag>, b: multiset<Bag>, c: multiset<Bag>)
    ensures (a + b) + c == a + (b + c)
  {
  }

  lemma Begin(g: Group)
    ensures Accounted([], [g], multiset(AllOf(g)), WidthAll(g))
  {
    WideEnoughAll(g, WidthAll(g));
    OneGroup(g);
  }

  lemma End(result: seq<Group>, m: multiset<Bag>, width: nat)
    requires Accounted(result, [], m, width)
    ensures (forall k :: 0 <= k < |result| ==> AllLeaves(result[k])) && multiset(Bags(result)) == m
  {
    BagsMeaning(result);
  }

  /** transform of docopt_private.h. */
  method Transform(pattern: Group) returns (result: seq<Group>)
    ensures forall k :: 0 <= k < |result| ==> AllLeaves(result[k])
    ensures multiset(Bags(result)) == multiset(AllOf(pattern))
  {
    result := [];
    var groups := [pattern];
    ghost var m, width := multiset(AllOf(pattern)), WidthAll(pattern);
    Begin(pattern);
    hide Accounted, Effort, AllOf, Expand, Bags, WidthAll;
    while groups != []
      invariant Accounted(result, groups, m, width)
      decreases Effort(groups, width)
    {
      var children, more := groups[0], groups[1..];
      assert groups == [children] + more;
      var i := FirstBranch(children);
      if i == |children| {
        GroupDone(children, more, result, m, width);
        result := result + [children];
        groups := more;
      } else {
        OneRound(children, i, more, result, m, width);
        groups := more + Expand(children, i);
      }
    }
    End(result, m, width);
  }

  // ------------------------------------------------------------------ the other order

  /** docopt.py looks for the branch types in this order. */
  function Urgency(kind: Kind): nat {
    match kind
    case Either => 0
    case Required => 1
    case Optional => 2
    case OptionsShortcut => 3
    case OneOrMore => 4
  }

  /** The first branch of the most urgent type in a group, or its length. */
  method MostUrgent(g: Group) returns (i: nat)
    ensures i <= |g| && (i < |g| ==> g[i].Branch?)
    ensures i == |g| ==> AllLeaves(g)
    ensures i < |g| ==> forall j :: 0 <= j < |g| && g[j].Branch? ==>
      Urgency(g[i].kind) <= Urgency(g[j].kind) && (Urgency(g[i].kind) == Urgency(g[j].kind) ==> i <= j)
  {
    i := |g|;
    var k := 0;
    while k < |g|
      invariant k <= |g| && i <= |g| && (i < |g| ==> i < k && g[i].Branch?)
      invariant i == |g| ==> forall j :: 0 <= j < k ==> g[j].Leaf?
      invariant i < |g| ==> forall j :: 0 <= j < k && g[j].Branch? ==>
        Urgency(g[i].kind) <= Urgency(g[j].kind) && (Urgency(g[i].kind) == Urgency(g[j].kind) ==> i <= j)
    {
      if g[k].Branch? && (i == |g| || Urgency(g[k].kind) < Urgency(g[i].kind)) {
        i := k;
      }
      k := k + 1;
    }
  }

  /** The worklist of Pattern.either in docopt.py, which starts from the pattern itself. */
  method EitherOf(self: Pattern) returns (result: seq<Group>)
    ensures forall k :: 0 <= k < |result| ==> AllLeaves(result[k])
    ensures multiset(Bags(result)) == multiset(Alternatives(self))
  {
    AloneInGroup(self);
    result := [];
    var groups := [[self]];
    ghost var m, width := multiset(AllOf([self])), WidthAll([self]);
    Begin([self]);
    hide Accounted, Effort, AllOf, Expand, Bags, WidthAll;
    while groups != []
      invariant Accounted(result, groups, m, width)
      decreases Effort(groups, width)
    {
      var children, more := groups[0], groups[1..];
      assert groups == [children] + more;
      var i := MostUrgent(children);
      if i == |children| {
        GroupDone(children, more, result, m, width);
        result := result + [children];
        groups := more;
      } else {
        OneRound(children, i, more, result, m, width);
        groups := more + Expand(children, i);
      }
    }
    End(result, m, width);
  }

  lemma AloneInGroup(p: Pattern)
    ensures AllOf([p]) == Alternatives(p)
  {
    CrossSingle(Alternatives(p), multiset{});
    ShiftUnit(Alternatives(p));
    assert [p][1..] == [];
  }

  /** Both orders flatten a required pattern into the same alternatives. */
  method BothOrders(children: seq<Pattern>) returns (cpp: seq<Group>, python: seq<Group>)
    ensures forall k :: 0 <= k < |cpp| ==> AllLeaves(cpp[k])
    ensures forall k :: 0 <= k < |python| ==> AllLeaves(python[k])
    ensures multiset(Bags(cpp)) == multiset(Bags(python))
  {
    cpp := Transform(children);
    python := EitherOf(Branch(Required, children));
  }
}
