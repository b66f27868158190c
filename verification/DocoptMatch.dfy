/** Matching a usage pattern against the arguments that are left (docopt_private.h): what each
    kind of pattern takes away. */
module DocoptMatch {
  import opened DocoptPattern

  type Args = seq<LeafPattern>

  /** A pattern the matcher accepts: OneOrMore has exactly one child. */
  ghost predicate WellFormed(p: Pattern)
    decreases p, 1
  {
    p.Branch? ==> (p.kind == OneOrMore ==> |p.children| == 1) && AllWellFormed(p.children)
  }

  ghost predicate AllWellFormed(ps: seq<Pattern>)
    decreases ps, 0
  {
    forall k :: 0 <= k < |ps| ==> WellFormed(ps[k])
  }

  /** Whether the arguments matched, and what is left of them. */
  datatype Outcome = Outcome(ok: bool, left: Args)

  predicate IsArgument(a: LeafPattern) {
    a.Argument? || a.Command?
  }

  // ------------------------------------------------------------------------- leaves

  /** What a leaf pattern takes: the first positional argument, that argument if it is the
      command's name, or the first leaf of the option's name. None if there is none. */
  ghost function Taken(leaf: LeafPattern, left: Args): int {
    match leaf
    case Option(name, _, _) => FirstNamed(left, name)
    case Argument(_, _) => FirstPositional(left)
    case Command(name, _) =>
      var i := FirstPositional(left);
      if 0 <= i < |left| && left[i].value == Text(name) then i else -1
  }

  ghost function FirstPositional(left: Args): (i: int)
    ensures -1 <= i < |left| && (i >= 0 ==> IsArgument(left[i]))
    ensures forall j :: 0 <= j < (if i < 0 then |left| else i) ==> !IsArgument(left[j])
  {
    if left == [] then -1
    else if IsArgument(left[0]) then 0
    else var i := FirstPositional(left[1..]); if i < 0 then -1 else i + 1
  }

  ghost function FirstNamed(left: Args, name: string): (i: int)
    ensures -1 <= i < |left| && (i >= 0 ==> left[i].name == name)
    ensures forall j :: 0 <= j < (if i < 0 then |left| else i) ==> left[j].name != name
  {
    if left == [] then -1
    else if left[0].name == name then 0
    else var i := FirstNamed(left[1..], name); if i < 0 then -1 else i + 1
  }

  // ------------------------------------------------------------------ the meaning

  ghost function Matches(p: Pattern, left: Args): Outcome
    requires WellFormed(p)
    decreases p, 2, 0
  {
    match p
    case Leaf(leaf) =>
      var i := Taken(leaf, left);
      if 0 <= i < |left| then Outcome(true, left[..i] + left[i + 1..]) else Outcome(false, left)
    case Branch(Required, children) =>
      var r := InTurn(children, left);
      if r.ok then r else Outcome(false, left)
    case Branch(OneOrMore, children) =>
      assert AllWellFormed(children);
      var r := Matches(children[0], left);
      if r.ok then Outcome(true, Repeated(children[0], r.left)) else Outcome(false, left)
    case Branch(Either, children) =>
      var rs := Leftovers(children, left);
      if rs == [] then Outcome(false, left) else Outcome(true, Shortest(rs))
    case Branch(_, children) => Outcome(true, Tried(children, left))
  }

  /** All patterns, one after the other; fails with the first that fails. */
  ghost function InTurn(ps: seq<Pattern>, left: Args): Outcome
    requires AllWellFormed(ps)
    decreases ps, 1, 0
  {
    if ps == [] then Outcome(true, left)
    else
      var r := Matches(ps[0], left);
      if r.ok then InTurn(ps[1..], r.left) else r
  }

  /** All patterns, one after the other, whether they match or not. */
  ghost function Tried(ps: seq<Pattern>, left: Args): Args
    requires AllWellFormed(ps)
    decreases ps, 1, 0
  {
    if ps == [] then left else Tried(ps[1..], Matches(ps[0], left).left)
  }

  /** As often as it takes something away. */
  ghost function Repeated(p: Pattern, left: Args): Args
    requires WellFormed(p)
    decreases p, 3, |left|
  {
    var r := Matches(p, left);
    if r.ok && |r.left| < |left| then Repeated(p, r.left) else left
  }

  /** What the alternatives that match leave over. */
  ghost function Leftovers(ps: seq<Pattern>, left: Args): seq<Args>
    requires AllWellFormed(ps)
    decreases ps, 1, 0
  {
    if ps == [] then []
    else
      var r := Matches(ps[0], left);
      (if r.ok then [r.left] else []) + Leftovers(ps[1..], left)
  }

  /** The first of the shortest. */
  ghost function Shortest(rs: seq<Args>): (r: Args)
    requires rs != []
    ensures r in rs && forall k :: 0 <= k < |rs| ==> |r| <= |rs[k]|
  {
    if |rs| == 1 then rs[0]
    else var r := Shortest(rs[1..]); if |rs[0]| <= |r| then rs[0] else r
  }

  // --------------------------------------------------------------------- properties

  /** a is b with some elements left out. */
  ghost predicate Within(a: Args, b: Args) {
    if a == [] then true
    else if b == [] then false
    else (a[0] == b[0] && Within(a[1..], b[1..])) || Within(a, b[1..])
  }

  lemma {:induction false} WithinRefl(a: Args)
    ensures Within(a, a)
  {
    if a != [] { WithinRefl(a[1..]); }
  }

  lemma {:induction false} WithinShorter(a: Args, b: Args)
    requires Within(a, b)
    ensures |a| <= |b| && (|a| == |b| ==> a == b)
    decreases |b|
  {
    if a != [] {
      assert a == [a[0]] + a[1..] && b == [b[0]] + b[1..];
      if a[0] == b[0] && Within(a[1..], b[1..]) {
        WithinShorter(a[1..], b[1..]);
      } else {
        WithinShorter(a, b[1..]);
      }
    }
  }

  lemma {:induction false} WithinTrans(a: Args, b: Args, c: Args)
    requires Within(a, b) && Within(b, c)
    ensures Within(a, c)
    decreases |c|
  {
    if a != [] {
      if b[0] == c[0] && Within(b[1..], c[1..]) {
        if a[0] == b[0] && Within(a[1..], b[1..]) {
          WithinTrans(a[1..], b[1..], c[1..]);
        } else {
          WithinTrans(a, b[1..], c[1..]);
        }
      } else {
        WithinTrans(a, b, c[1..]);
      }
    }
  }

  lemma {:induction false} WithinErase(a: Args, i: nat)
    requires i < |a|
    ensures Within(a[..i] + a[i + 1..], a)
  {
    var r := a[..i] + a[i + 1..];
    if i == 0 {
      assert r == a[1..];
      WithinRefl(a[1..]);
      WithinTail(r, a);
    } else {
      WithinErase(a[1..], i - 1);
      assert r[0] == a[0] && r[1..] == a[1..][..i - 1] + a[1..][i..];
    }
  }

  lemma WithinTail(r: Args, a: Args)
    requires a != [] && Within(r, a[1..])
    ensures Within(r, a)
  {
  }

  /** Matching only ever takes arguments away, keeps the order of the rest, and takes nothing
      away when it fails. */
  lemma {:induction false} MatchTakesAway(p: Pattern, left: Args)
    requires WellFormed(p)
    ensures Within(Matches(p, left).left, left)
    ensures !Matches(p, left).ok ==> Matches(p, left).left == left
    decreases p, 2, 0
  {
    WithinRefl(left);
    match p {
      case Leaf(leaf) =>
        var i := Taken(leaf, left);
        if 0 <= i < |left| { WithinErase(left, i); }
      case Branch(kind, children) =>
        assert AllWellFormed(children);
        match kind {
          case Required => InTurnTakesAway(children, left);
          case OneOrMore =>
            MatchTakesAway(children[0], left);
            RepeatedTakesAway(children[0], Matches(children[0], left).left);
            WithinTrans(Repeated(children[0], Matches(children[0], left).left), Matches(children[0], left).left, left);
          case Either =>
            LeftoversTakeAway(children, left);
            var rs := Leftovers(children, left);
            if rs != [] { var j :| 0 <= j < |rs| && rs[j] == Shortest(rs); }
          case _ => TriedTakesAway(children, left);
        }
    }
  }

  lemma {:induction false} InTurnTakesAway(ps: seq<Pattern>, left: Args)
    requires AllWellFormed(ps)
    ensures Within(InTurn(ps, left).left, left)
    decreases ps, 1, 0
  {
    WithinRefl(left);
    if ps != [] {
      MatchTakesAway(ps[0], left);
      var r := Matches(ps[0], left);
      if r.ok {
        InTurnTakesAway(ps[1..], r.left);
        WithinTrans(InTurn(ps[1..], r.left).left, r.left, left);
      }
    }
  }

  lemma {:induction false} TriedTakesAway(ps: seq<Pattern>, left: Args)
    requires AllWellFormed(ps)
    ensures Within(Tried(ps, left), left)
    decreases ps, 1, 0
  {
    WithinRefl(left);
    if ps != [] {
      MatchTakesAway(ps[0], left);
      var r := Matches(ps[0], left);
      TriedTakesAway(ps[1..], r.left);
      WithinTrans(Tried(ps[1..], r.left), r.left, left);
    }
  }

  lemma {:induction false} RepeatedTakesAway(p: Pattern, left: Args)
    requires WellFormed(p)
    ensures Within(Repeated(p, left), left)
    decreases p, 3, |left|
  {
    WithinRefl(left);
    var r := Matches(p, left);
    if r.ok && |r.left| < |left| {
      MatchTakesAway(p, left);
      RepeatedTakesAway(p, r.left);
      WithinTrans(Repeated(p, r.left), r.left, left);
    }
  }

  lemma {:induction false} LeftoversTakeAway(ps: seq<Pattern>, left: Args)
    requires AllWellFormed(ps)
    ensures forall k :: 0 <= k < |Leftovers(ps, left)| ==> Within(Leftovers(ps, left)[k], left)
    decreases ps, 1, 0
  {
    if ps != [] {
      MatchTakesAway(ps[0], left);
      LeftoversTakeAway(ps[1..], left);
    }
  }

  // ------------------------------------------------------------ what each kind comes to

  /** A leaf pattern looks at the first of the arguments of its sort: an option at the leaves of its
      name, an argument or command at the positional ones. */
  ghost predicate Looked(leaf: LeafPattern, a: LeafPattern) {
    if leaf.Option? then a.name == leaf.name else IsArgument(a)
  }

  ghost predicate FirstLooked(leaf: LeafPattern, left: Args, i: int) {
    0 <= i < |left| && Looked(leaf, left[i]) && forall j :: 0 <= j < i ==> !Looked(leaf, left[j])
  }

  /** It matches exactly when there is such an argument, which for a command must be its name, and
      takes just that one away. */
  lemma LeafTakesFirst(leaf: LeafPattern, left: Args)
    ensures var r := Matches(Leaf(leaf), left);
      && (r.ok <==> exists i :: FirstLooked(leaf, left, i) && (leaf.Command? ==> left[i].value == Text(leaf.name)))
      && (r.ok ==> forall i :: FirstLooked(leaf, left, i) ==> r.left == left[..i] + left[i + 1..])
      && (!r.ok ==> r.left == left)
  {
    var at := if leaf.Option? then FirstNamed(left, leaf.name) else FirstPositional(left);
    assert at >= 0 ==> FirstLooked(leaf, left, at);
    assert forall i :: FirstLooked(leaf, left, i) ==> i == at;
  }

  /** ls are the arguments before, between and after matching all patterns in turn. */
  ghost predicate Chain(ps: seq<Pattern>, left: Args, ls: seq<Args>)
    requires AllWellFormed(ps)
  {
    && |ls| == |ps| + 1 && ls[0] == left
    && forall k :: 0 <= k < |ps| ==> Matches(ps[k], ls[k]) == Outcome(true, ls[k + 1])
  }

  /** Required matches exactly when all its patterns do, each on what the one before leaves, and
      leaves what the last leaves; otherwise everything. */
  lemma RequiredIff(cs: seq<Pattern>, left: Args)
    requires AllWellFormed(cs)
    ensures var r := Matches(Branch(Required, cs), left);
      && (r.ok <==> exists ls :: Chain(cs, left, ls))
      && (forall ls :: Chain(cs, left, ls) ==> r.left == ls[|cs|])
      && (!r.ok ==> r.left == left)
  {
    var r := Matches(Branch(Required, cs), left);
    assert InTurn(cs, left).ok ==> r == InTurn(cs, left);
    assert !InTurn(cs, left).ok ==> r == Outcome(false, left);
    hide Matches, InTurn;
    forall ls | Chain(cs, left, ls) ensures InTurn(cs, left) == Outcome(true, ls[|cs|]) {
      ChainIsInTurn(cs, left, ls);
    }
    if InTurn(cs, left).ok { var ls := ChainFor(cs, left); }
  }

  lemma {:induction false} ChainIsInTurn(ps: seq<Pattern>, left: Args, ls: seq<Args>)
    requires AllWellFormed(ps) && Chain(ps, left, ls)
    ensures InTurn(ps, left) == Outcome(true, ls[|ps|])
    decreases |ps|
  {
    hide Matches;
    if ps != [] {
      assert Matches(ps[0], ls[0]) == Outcome(true, ls[1]);
      var rest := ls[1..];
      forall k | 0 <= k < |ps[1..]| ensures Matches(ps[1..][k], rest[k]) == Outcome(true, rest[k + 1]) {
        assert ps[1..][k] == ps[k + 1] && rest[k] == ls[k + 1] && rest[k + 1] == ls[k + 2];
      }
      ChainIsInTurn(ps[1..], ls[1], rest);
    }
  }

  lemma {:induction false} ChainFor(ps: seq<Pattern>, left: Args) returns (ls: seq<Args>)
    requires AllWellFormed(ps) && InTurn(ps, left).ok
    ensures Chain(ps, left, ls)
    decreases |ps|
  {
    hide Matches;
    if ps == [] {
      ls := [left];
    } else {
      var rest := ChainFor(ps[1..], Matches(ps[0], left).left);
      ls := [left] + rest;
      forall k | 0 <= k < |ps| ensures Matches(ps[k], ls[k]) == Outcome(true, ls[k + 1]) {
        if k > 0 {
          assert Matches(ps[1..][k - 1], rest[k - 1]) == Outcome(true, rest[k]);
        }
      }
    }
  }

  /** ls are the arguments before, between and after trying all patterns. */
  ghost predicate Trial(ps: seq<Pattern>, left: Args, ls: seq<Args>)
    requires AllWellFormed(ps)
  {
    && |ls| == |ps| + 1 && ls[0] == left
    && forall k :: 0 <= k < |ps| ==> Matches(ps[k], ls[k]).left == ls[k + 1]
  }

  /** Optional always matches, and leaves what its patterns leave one after the other. */
  lemma OptionalIs(kind: Kind, cs: seq<Pattern>, left: Args)
    requires AllWellFormed(cs) && kind in {Optional, OptionsShortcut}
    ensures var r := Matches(Branch(kind, cs), left);
      r.ok && (exists ls :: Trial(cs, left, ls)) && forall ls :: Trial(cs, left, ls) ==> r.left == ls[|cs|]
  {
    assert Matches(Branch(kind, cs), left) == Outcome(true, Tried(cs, left));
    hide Matches, Tried;
    forall ls | Trial(cs, left, ls) ensures Tried(cs, left) == ls[|cs|] {
      TrialIsTried(cs, left, ls);
    }
    var ls := TrialFor(cs, left);
  }

  lemma {:induction false} TrialIsTried(ps: seq<Pattern>, left: Args, ls: seq<Args>)
    requires AllWellFormed(ps) && Trial(ps, left, ls)
    ensures Tried(ps, left) == ls[|ps|]
    decreases |ps|
  {
    hide Matches;
    if ps != [] {
      assert Matches(ps[0], ls[0]).left == ls[1];
      var rest := ls[1..];
      forall k | 0 <= k < |ps[1..]| ensures Matches(ps[1..][k], rest[k]).left == rest[k + 1] {
        assert ps[1..][k] == ps[k + 1] && rest[k] == ls[k + 1] && rest[k + 1] == ls[k + 2];
      }
      TrialIsTried(ps[1..], ls[1], rest);
    }
  }

  lemma {:induction false} TrialFor(ps: seq<Pattern>, left: Args) returns (ls: seq<Args>)
    requires AllWellFormed(ps)
    ensures Trial(ps, left, ls)
    decreases |ps|
  {
    hide Matches;
    if ps == [] {
      ls := [left];
    } else {
      var rest := TrialFor(ps[1..], Matches(ps[0], left).left);
      ls := [left] + rest;
      forall k | 0 <= k < |ps| ensures Matches(ps[k], ls[k]).left == ls[k + 1] {
        if k > 0 {
          assert Matches(ps[1..][k - 1], rest[k - 1]).left == rest[k];
        }
      }
    }
  }

  /** The child has no more to take: it fails, or takes nothing away. */
  ghost predicate Sated(p: Pattern, left: Args)
    requires WellFormed(p)
  {
    !Matches(p, left).ok || Matches(p, left).left == left
  }

  /** ls are the arguments before, between and after matching p over and over, until it is sated. */
  ghost predicate Repetition(p: Pattern, left: Args, ls: seq<Args>)
    requires WellFormed(p)
  {
    && |ls| > 1 && ls[0] == left && Sated(p, ls[|ls| - 1])
    && forall k :: 0 <= k < |ls| - 1 ==> Matches(p, ls[k]) == Outcome(true, ls[k + 1])
  }

  /** OneOrMore matches exactly when its child does, and then leaves what the child leaves, matched
      again and again until it fails or takes nothing away. */
  lemma OneOrMoreIs(child: Pattern, left: Args)
    requires WellFormed(child)
    ensures WellFormed(Branch(OneOrMore, [child]))
    ensures var r := Matches(Branch(OneOrMore, [child]), left);
      && (r.ok <==> Matches(child, left).ok) && (r.ok <==> exists ls :: Repetition(child, left, ls))
      && (forall ls :: Repetition(child, left, ls) ==> r.left == ls[|ls| - 1])
      && (!r.ok ==> r.left == left)
  {
    assert [child][0] == child;
    var first := Matches(child, left);
    assert Matches(Branch(OneOrMore, [child]), left) ==
      if first.ok then Outcome(true, Repeated(child, first.left)) else Outcome(false, left);
    hide Matches, Repeated;
    forall ls | Repetition(child, left, ls) ensures first.ok && Repeated(child, first.left) == ls[|ls| - 1] {
      RepetitionEnds(child, ls);
    }
    if first.ok { var ls := RepetitionFor(child, left); }
  }

  /** From the second element of a repetition on. */
  lemma {:induction false} RepetitionEnds(p: Pattern, ls: seq<Args>)
    requires WellFormed(p) && |ls| > 1 && Repetition(p, ls[0], ls)
    ensures Matches(p, ls[0]) == Outcome(true, ls[1]) && Repeated(p, ls[1]) == ls[|ls| - 1]
    decreases |ls|
  {
    var rest := ls[1..];
    assert Matches(p, ls[0]) == Outcome(true, ls[1]) && rest[|rest| - 1] == ls[|ls| - 1];
    MatchTakesAway(p, ls[1]);
    hide Matches;
    WithinShorter(Matches(p, ls[1]).left, ls[1]);
    if |ls| > 2 {
      forall k | 0 <= k < |rest| - 1 ensures Matches(p, rest[k]) == Outcome(true, rest[k + 1]) {
        assert rest[k] == ls[k + 1] && rest[k + 1] == ls[k + 2];
      }
      RepetitionEnds(p, rest);
    }
  }

  lemma {:induction false} RepetitionFor(p: Pattern, left: Args) returns (ls: seq<Args>)
    requires WellFormed(p) && Matches(p, left).ok
    ensures Repetition(p, left, ls)
    decreases |left|, if Sated(p, left) then 0 else 1
  {
    var next := Matches(p, left).left;
    MatchTakesAway(p, left);
    hide Matches;
    WithinShorter(next, left);
    if Sated(p, next) {
      ls := [left, next];
    } else {
      var rest := RepetitionFor(p, next);
      ls := [left] + rest;
      forall k | 0 <= k < |ls| - 1 ensures Matches(p, ls[k]) == Outcome(true, ls[k + 1]) {
        if k > 0 { assert Matches(p, rest[k - 1]) == Outcome(true, rest[k]); }
      }
    }
  }

  /** Alternative k matches, leaves no more than any other, and less than any before it. */
  ghost predicate FirstBest(cs: seq<Pattern>, left: Args, k: int)
    requires AllWellFormed(cs)
  {
    && 0 <= k < |cs| && Matches(cs[k], left).ok
    && (forall j :: 0 <= j < |cs| && Matches(cs[j], left).ok ==>
         |Matches(cs[k], left).left| <= |Matches(cs[j], left).left|)
    && forall j :: 0 <= j < k && Matches(cs[j], left).ok ==>
         |Matches(cs[k], left).left| < |Matches(cs[j], left).left|
  }

  /** Either matches exactly when one of its alternatives does, and then as the first that leaves
      over least. */
  lemma EitherIsBest(children: seq<Pattern>, left: Args)
    requires AllWellFormed(children)
    ensures var r := Matches(Branch(Either, children), left);
      && (r.ok <==> exists k :: 0 <= k < |children| && Matches(children[k], left).ok)
      && (r.ok ==> exists k :: FirstBest(children, left, k) && Matches(children[k], left) == r)
      && (!r.ok ==> r.left == left)
  {
    hide Matches, Leftovers, Shortest, WellFormed;
    EitherIs(children, left);
    if Leftovers(children, left) == [] {
      NoneMatches(children, left);
    } else {
      var k := BestOf(children, left);
    }
  }

  lemma {:induction false} BestOf(ps: seq<Pattern>, left: Args) returns (k: nat)
    requires AllWellFormed(ps) && Leftovers(ps, left) != []
    ensures FirstBest(ps, left, k) && Matches(ps[k], left) == Outcome(true, Shortest(Leftovers(ps, left)))
    decreases |ps|
  {
    var r, tail := Matches(ps[0], left), Leftovers(ps[1..], left);
    assert Leftovers(ps, left) == (if r.ok then [r.left] else []) + tail;
    hide Matches, Leftovers, WellFormed, FirstBest;
    if tail == [] {
      assert [r.left] + [] == [r.left];
      OnlyFirst(ps, left);
      k := 0;
    } else {
      var i := BestOf(ps[1..], left);
      assert [] + tail == tail;
      ShortestCons(r.left, tail);
      hide Shortest;
      k := if r.ok && |r.left| <= |Shortest(tail)| then 0 else i + 1;
      BestBefore(ps, left, i);
    }
  }

  lemma ShortestCons(r: Args, rs: seq<Args>)
    requires rs != []
    ensures Shortest([r] + rs) == if |r| <= |Shortest(rs)| then r else Shortest(rs)
  {
    assert ([r] + rs)[1..] == rs;
  }

  /** One more alternative in front. */
  lemma BestBefore(ps: seq<Pattern>, left: Args, i: nat)
    requires ps != [] && AllWellFormed(ps) && AllWellFormed(ps[1..]) && FirstBest(ps[1..], left, i)
    ensures var r := Matches(ps[0], left);
      FirstBest(ps, left, if r.ok && |r.left| <= |Matches(ps[1..][i], left).left| then 0 else i + 1)
  {
    hide Matches, WellFormed;
    assert forall j :: 1 <= j < |ps| ==> ps[j] == ps[1..][j - 1];
  }

  lemma OnlyFirst(ps: seq<Pattern>, left: Args)
    requires ps != [] && AllWellFormed(ps) && AllWellFormed(ps[1..]) && Leftovers(ps[1..], left) == []
    requires Matches(ps[0], left).ok
    ensures FirstBest(ps, left, 0)
  {
    hide Matches, WellFormed, Leftovers;
    NoneMatches(ps[1..], left);
    assert forall j :: 1 <= j < |ps| ==> ps[j] == ps[1..][j - 1];
  }

  lemma NoneMatches(ps: seq<Pattern>, left: Args)
    requires AllWellFormed(ps) && Leftovers(ps, left) == []
    ensures forall k :: 0 <= k < |ps| ==> !Matches(ps[k], left).ok
  {
    hide Matches, Leftovers;
    LeftoversOf(ps, left);
    assert forall r :: r !in Leftovers(ps, left);
  }

  lemma {:induction false} LeftoversOf(ps: seq<Pattern>, left: Args)
    requires AllWellFormed(ps)
    ensures var rs := Leftovers(ps, left);
      && (forall k :: 0 <= k < |ps| && Matches(ps[k], left).ok ==> Matches(ps[k], left).left in rs)
      && (forall r :: r in rs ==> exists k :: 0 <= k < |ps| && Matches(ps[k], left) == Outcome(true, r))
  {
    if ps != [] {
      var rs, tail := Leftovers(ps, left), Leftovers(ps[1..], left);
      LeftoversOf(ps[1..], left);
      forall k | 0 <= k < |ps| && Matches(ps[k], left).ok ensures Matches(ps[k], left).left in rs {
        if k > 0 { assert ps[k] == ps[1..][k - 1]; }
      }
      forall r | r in rs ensures exists k :: 0 <= k < |ps| && Matches(ps[k], left) == Outcome(true, r) {
        if r in tail {
          var k :| 0 <= k < |ps[1..]| && Matches(ps[1..][k], left) == Outcome(true, r);
          assert ps[k + 1] == ps[1..][k];
        }
      }
    }
  }

  // ----------------------------------------------------------------- the matching loops

  method ArgumentMatch(left: Args) returns (at: int)
    ensures at == FirstPositional(left)
  {
    at := -1;
    for i := 0 to |left|
      invariant forall j :: 0 <= j < i ==> !IsArgument(left[j])
      invariant at == -1
    {
      if IsArgument(left[i]) { return i; }
    }
  }

  method CommandMatch(name: string, left: Args) returns (at: int)
    ensures at == (var i := FirstPositional(left); if i >= 0 && left[i].value == Text(name) then i else -1)
  {
    at := -1;
    for i := 0 to |left|
      invariant forall j :: 0 <= j < i ==> !IsArgument(left[j])
      invariant at == -1
    {
      if IsArgument(left[i]) {
        if left[i].value == Text(name) { at := i; }
        return;
      }
    }
  }

  method OptionMatch(name: string, left: Args) returns (at: int)
    ensures at == FirstNamed(left, name)
  {
    at := -1;
    for i := 0 to |left|
      invariant forall j :: 0 <= j < i ==> left[j].name != name
      invariant at == -1
    {
      if left[i].name == name { return i; }
    }
  }

  method LeafMatch(leaf: LeafPattern, left: Args) returns (ok: bool, rest: Args)
    ensures Outcome(ok, rest) == Matches(Leaf(leaf), left)
  {
    var at: int;
    match leaf {
      case Option(name, _, _) => at := OptionMatch(name, left);
      case Argument(_, _) => at := ArgumentMatch(left);
      case Command(name, _) => at := CommandMatch(name, left);
    }
    if at < 0 { return false, left; }
    return true, left[..at] + left[at + 1..];
  }

  /** Matches a pattern the way the source does. */
  method Match(p: Pattern, left: Args) returns (ok: bool, rest: Args)
    requires WellFormed(p)
    ensures Outcome(ok, rest) == Matches(p, left)
    decreases p, 2
  {
    match p {
      case Leaf(leaf) => ok, rest := LeafMatch(leaf, left);
      case Branch(kind, children) =>
        match kind {
          case Required => ok, rest := RequiredMatch(children, left);
          case OneOrMore =>
            ghost var passes;
            ok, rest, passes := OneOrMoreMatch(children, left);
          case Either => ok, rest := EitherMatch(children, left);
          case Optional => ok, rest := OptionalMatch(children, left);
          case OptionsShortcut => ok, rest := OptionalMatch(children, left);
        }
    }
  }

  method RequiredMatch(children: seq<Pattern>, left: Args) returns (ok: bool, rest: Args)
    requires AllWellFormed(children)
    ensures Outcome(ok, rest) == Matches(Branch(Required, children), left)
    decreases children, 0
  {
    var l := left;
    for i := 0 to |children|
      invariant InTurn(children[i..], l) == InTurn(children, left)
    {
      assert children[i..][0] == children[i] && children[i..][1..] == children[i + 1..];
      ok, l := Match(children[i], l);
      if !ok { return false, left; }
    }
    return true, l;
  }

  method OptionalMatch(children: seq<Pattern>, left: Args) returns (ok: bool, rest: Args)
    requires AllWellFormed(children)
    ensures Outcome(ok, rest) == Matches(Branch(Optional, children), left)
    decreases children, 0
  {
    rest := left;
    for i := 0 to |children|
      invariant Tried(children[i..], rest) == Tried(children, left)
    {
      assert children[i..][0] == children[i] && children[i..][1..] == children[i + 1..];
      ok, rest := Match(children[i], rest);
    }
    ok := true;
  }

  /** The repetition comes to rest within two more passes than there are arguments. */
  method OneOrMoreMatch(children: seq<Pattern>, left: Args) returns (ok: bool, rest: Args, ghost passes: nat)
    requires |children| == 1 && AllWellFormed(children)
    ensures Outcome(ok, rest) == Matches(Branch(OneOrMore, children), left)
    ensures passes <= |left| + 2
    decreases children, 0
  {
    var child := children[0];
    var l, lastL, matched, times, firstLoop := left, [], true, 0, true;
    passes := 0;
    while matched
      invariant firstLoop ==> matched && l == left && times == 0 && passes == 0
      invariant !firstLoop ==> passes >= 1 && lastL == l && passes + |l| <= |left| + 1
      invariant !firstLoop && times == 0 ==> !matched && !Matches(child, left).ok
      invariant times > 0 ==> !firstLoop && matched && Matches(child, left).ok
      invariant times > 0 ==> Repeated(child, l) == Repeated(child, Matches(child, left).left)
      decreases matched, firstLoop, |l|
    {
      ghost var before := l;
      MatchTakesAway(child, l);
      WithinShorter(Matches(child, l).left, l);
      matched, l := Match(child, l);
      passes := passes + 1;
      if matched { times := times + 1; }
      if firstLoop {
        firstLoop := false;
      } else if l == lastL {
        break;
      }
      lastL := l;
    }
    if times == 0 { return false, left, passes; }
    return true, l, passes;
  }

  method EitherMatch(children: seq<Pattern>, left: Args) returns (ok: bool, rest: Args)
    requires AllWellFormed(children)
    ensures Outcome(ok, rest) == Matches(Branch(Either, children), left)
    decreases children, 0
  {
    hide Matches, Leftovers, Shortest, WellFormed;
    EitherIs(children, left);
    var outcomes: seq<Args> := [];
    for i := 0 to |children|
      invariant outcomes + Leftovers(children[i..], left) == Leftovers(children, left)
    {
      LeftoversFrom(outcomes, children, i, left);
      var matched, l := Match(children[i], left);
      if matched { outcomes := outcomes + [l]; }
    }
    NoLeftovers(left);
    assert children[|children|..] == [];
    assert outcomes == Leftovers(children, left);
    if outcomes == [] { return false, left; }
    rest := MinElement(outcomes);
    ok := true;
  }

  lemma EitherIs(children: seq<Pattern>, left: Args)
    requires AllWellFormed(children)
    ensures WellFormed(Branch(Either, children))
    ensures var rs := Leftovers(children, left);
      Matches(Branch(Either, children), left) == if rs == [] then Outcome(false, left) else Outcome(true, Shortest(rs))
  {
    hide Leftovers, Shortest;
  }

  lemma NoLeftovers(left: Args)
    ensures Leftovers([], left) == []
  {
  }

  lemma LeftoversFrom(found: seq<Args>, ps: seq<Pattern>, i: nat, left: Args)
    requires i < |ps| && AllWellFormed(ps)
    ensures WellFormed(ps[i]) && AllWellFormed(ps[i..]) && AllWellFormed(ps[i + 1..])
    ensures var r := Matches(ps[i], left);
      found + Leftovers(ps[i..], left) == (if r.ok then found + [r.left] else found) + Leftovers(ps[i + 1..], left)
  {
    hide Matches, WellFormed;
    assert ps[i..][0] == ps[i] && ps[i..][1..] == ps[i + 1..];
  }

  method MinElement(outcomes: seq<Args>) returns (least: Args)
    requires outcomes != []
    ensures least == Shortest(outcomes)
  {
    ShortestOne(outcomes[..1]);
    hide Shortest;
    var min := 0;
    for i := 1 to |outcomes|
      invariant min < i
      invariant Shortest(outcomes[..i]) == outcomes[min]
    {
      ShortestNext(outcomes, i);
      if |outcomes[i]| < |outcomes[min]| { min := i; }
    }
    assert outcomes[..|outcomes|] == outcomes;
    least := outcomes[min];
  }

  lemma ShortestOne(rs: seq<Args>)
    requires |rs| == 1
    ensures Shortest(rs) == rs[0]
  {
  }

  lemma ShortestNext(rs: seq<Args>, i: nat)
    requires 0 < i < |rs|
    ensures Shortest(rs[..i + 1]) == if |rs[i]| < |Shortest(rs[..i])| then rs[i] else Shortest(rs[..i])
  {
    hide Shortest;
    assert rs[..i] + [rs[i]] == rs[..i + 1];
    ShortestAppend(rs[..i], rs[i]);
  }

  lemma {:induction false} ShortestAppend(rs: seq<Args>, r: Args)
    requires rs != []
    ensures Shortest(rs + [r]) == if |r| < |Shortest(rs)| then r else Shortest(rs)
  {
    if |rs| > 1 {
      assert (rs + [r])[1..] == rs[1..] + [r];
      ShortestAppend(rs[1..], r);
    } else {
      assert (rs + [r])[1..] == [r];
    }
  }
}
