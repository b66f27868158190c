/** docopt usage patterns and their meaning: which bags of leaves a command line may consist of,
    when every repetition is written out twice. */
module DocoptPattern {

  datatype Value = Unset | Bool(b: bool) | Long(n: int) | Text(s: string) | TextList(ss: seq<string>)

  /** Leaf patterns; they also make up the parsed command line. */
  datatype LeafPattern =
    | Argument(name: string, value: Value)
    | Command(name: string, value: Value)
    | Option(name: string, argCount: nat, value: Value)

  datatype Kind = Required | Optional | OptionsShortcut | OneOrMore | Either

  datatype Pattern =
    | Leaf(leaf: LeafPattern)
    | Branch(kind: Kind, children: seq<Pattern>)

  type Bag = multiset<LeafPattern>

  // ------------------------------------------------------- alternatives as bag lists

  /** Every alternative of bs with x added. */
  ghost function Shift(x: Bag, bs: seq<Bag>): seq<Bag> {
    if bs == [] then [] else [x + bs[0]] + Shift(x, bs[1..])
  }

  /** One alternative of a together with one of b, in all combinations. */
  ghost function Cross(a: seq<Bag>, b: seq<Bag>): seq<Bag> {
    if a == [] then [] else Shift(a[0], b) + Cross(a[1..], b)
  }

  /** The alternatives of a pattern: all of its children together, with OneOrMore counting twice,
      or any one of them for Either. */
  ghost function Alternatives(p: Pattern): seq<Bag>
    decreases p, 1
  {
    match p
    case Leaf(leaf) => [multiset{leaf}]
    case Branch(Either, children) => AnyOf(children)
    case Branch(OneOrMore, children) => Cross(AllOf(children), AllOf(children))
    case Branch(_, children) => AllOf(children)
  }

  ghost function AllOf(ps: seq<Pattern>): seq<Bag>
    decreases ps, 0
  {
    if ps == [] then [multiset{}] else Cross(Alternatives(ps[0]), AllOf(ps[1..]))
  }

  ghost function AnyOf(ps: seq<Pattern>): seq<Bag>
    decreases ps, 0
  {
    if ps == [] then [] else Alternatives(ps[0]) + AnyOf(ps[1..])
  }

  // ------------------------------------------------------------ the algebra of Cross

  lemma {:induction false} ShiftAppend(x: Bag, a: seq<Bag>, b: seq<Bag>)
    ensures Shift(x, a + b) == Shift(x, a) + Shift(x, b)
  {
    if a == [] {
      assert a + b == b;
    } else {
      assert (a + b)[1..] == a[1..] + b;
      ShiftAppend(x, a[1..], b);
    }
  }

  lemma {:induction false} ShiftTwice(x: Bag, y: Bag, b: seq<Bag>)
    ensures Shift(x + y, b) == Shift(x, Shift(y, b))
  {
    if b != [] {
      ShiftTwice(x, y, b[1..]);
      assert Shift(y, b)[1..] == Shift(y, b[1..]);
      assert (x + y) + b[0] == x + (y + b[0]);
    }
  }

  lemma {:induction false} CrossAppend(a: seq<Bag>, a': seq<Bag>, b: seq<Bag>)
    ensures Cross(a + a', b) == Cross(a, b) + Cross(a', b)
  {
    if a == [] {
      assert a + a' == a';
    } else {
      assert (a + a')[1..] == a[1..] + a';
      CrossAppend(a[1..], a', b);
    }
  }

  lemma {:induction false} CrossShift(x: Bag, a: seq<Bag>, b: seq<Bag>)
    ensures Cross(Shift(x, a), b) == Shift(x, Cross(a, b))
  {
    if a != [] {
      CrossShift(x, a[1..], b);
      ShiftTwice(x, a[0], b);
      ShiftAppend(x, Shift(a[0], b), Cross(a[1..], b));
      assert Shift(x, a)[1..] == Shift(x, a[1..]);
    }
  }

  lemma {:induction false} CrossAssoc(a: seq<Bag>, b: seq<Bag>, c: seq<Bag>)
    ensures Cross(Cross(a, b), c) == Cross(a, Cross(b, c))
  {
    if a != [] {
      CrossAssoc(a[1..], b, c);
      CrossAppend(Shift(a[0], b), Cross(a[1..], b), c);
      CrossShift(a[0], b, c);
    }
  }

  lemma {:induction false} ShiftUnit(b: seq<Bag>)
    ensures Shift(multiset{}, b) == b
  {
    if b != [] {
      ShiftUnit(b[1..]);
      assert multiset{} + b[0] == b[0];
    }
  }

  lemma CrossUnit(b: seq<Bag>)
    ensures Cross([multiset{}], b) == b
  {
    ShiftUnit(b);
  }

  /** Up to order, Cross distributes on the right and commutes. */
  lemma {:induction false} CrossRight(a: seq<Bag>, b: seq<Bag>, b': seq<Bag>)
    ensures multiset(Cross(a, b + b')) == multiset(Cross(a, b)) + multiset(Cross(a, b'))
  {
    if a != [] {
      CrossRight(a[1..], b, b');
      ShiftAppend(a[0], b, b');
    }
  }

  lemma {:induction false} CrossSingle(a: seq<Bag>, x: Bag)
    ensures Cross(a, [x]) == Shift(x, a)
  {
    if a != [] {
      CrossSingle(a[1..], x);
      assert a[0] + x == x + a[0];
      assert Shift(a[0], [x]) == [a[0] + x];
    }
  }

  lemma {:induction false} CrossEmpty(a: seq<Bag>)
    ensures Cross(a, []) == []
  {
    if a != [] { CrossEmpty(a[1..]); }
  }

  lemma {:induction false} CrossCommutes(a: seq<Bag>, b: seq<Bag>)
    ensures multiset(Cross(a, b)) == multiset(Cross(b, a))
  {
    if a == [] {
      CrossEmpty(b);
    } else {
      CrossCommutes(a[1..], b);
      assert a == [a[0]] + a[1..];
      CrossRight(b, [a[0]], a[1..]);
      CrossSingle(b, a[0]);
    }
  }

  lemma Pick(a: seq<Bag>, a': seq<Bag>) returns (u: seq<Bag>, v: seq<Bag>)
    requires multiset(a) == multiset(a') && a != []
    ensures a' == u + ([a[0]] + v) && multiset(a[1..]) == multiset(u + v)
  {
    assert a[0] in multiset(a');
    var j :| 0 <= j < |a'| && a'[j] == a[0];
    u, v := a'[..j], a'[j + 1..];
    var x := a[0];
    assert a' == u + ([x] + v) && a == [x] + a[1..];
    assert multiset(u + ([x] + v)) == multiset(u) + (multiset{x} + multiset(v));
    assert multiset([x] + a[1..]) == multiset{x} + multiset(a[1..]);
    Cancel(x, multiset(a[1..]), multiset(u), multiset(v));
  }

  lemma Cancel(x: Bag, a: multiset<Bag>, u: multiset<Bag>, v: multiset<Bag>)
    requires multiset{x} + a == u + (multiset{x} + v)
    ensures a == u + v
  {
    forall y ensures a[y] == (u + v)[y] {
      assert (multiset{x} + a)[y] == multiset{x}[y] + a[y];
      assert (u + (multiset{x} + v))[y] == u[y] + multiset{x}[y] + v[y];
    }
  }

  /** Cross looks at its left factor as a multiset. */
  lemma {:induction false} CrossCongruent(a: seq<Bag>, a': seq<Bag>, b: seq<Bag>)
    requires multiset(a) == multiset(a')
    ensures multiset(Cross(a, b)) == multiset(Cross(a', b))
  {
    if a == [] {
      assert multiset(a') == multiset{};
      assert a' == [];
    } else {
      hide Cross;
      var u, v := Pick(a, a');
      var x := a[0];
      CrossCongruent(a[1..], u + v, b);
      CrossAppend(u, v, b);
      CrossAppend(u, [x] + v, b);
      CrossAppend([x], v, b);
      CrossAppend([x], a[1..], b);
      assert a == [x] + a[1..];
      Swapped(Cross([x], b), Cross(u, b), Cross(v, b));
    }
  }

  lemma Swapped(x: seq<Bag>, u: seq<Bag>, v: seq<Bag>)
    ensures forall w :: multiset(w) == multiset(u + v) ==> multiset(x + w) == multiset(u + (x + v))
  {
    forall w | multiset(w) == multiset(u + v) ensures multiset(x + w) == multiset(u + (x + v)) {
      assert multiset(x + w) == multiset(x) + multiset(u + v);
      assert multiset(u + (x + v)) == multiset(u) + (multiset(x) + multiset(v));
    }
  }

  // ------------------------------------------------------------- rewriting a group

  lemma {:induction false} AllOfAppend(a: seq<Pattern>, b: seq<Pattern>)
    ensures AllOf(a + b) == Cross(AllOf(a), AllOf(b))
  {
    if a == [] {
      assert a + b == b;
      CrossUnit(AllOf(b));
    } else {
      assert (a + b)[1..] == a[1..] + b;
      AllOfAppend(a[1..], b);
      CrossAssoc(Alternatives(a[0]), AllOf(a[1..]), AllOf(b));
    }
  }

  /** Taking one pattern of a group to the front leaves the alternatives the same, up to order. */
  lemma ToFront(l: seq<Pattern>, p: Pattern, r: seq<Pattern>)
    ensures multiset(AllOf(l + [p] + r)) == multiset(Cross(Alternatives(p), AllOf(l + r)))
  {
    var L, P, R := AllOf(l), Alternatives(p), AllOf(r);
    assert ([p] + r)[1..] == r && l + [p] + r == l + ([p] + r);
    AllOfAppend(l, [p] + r);
    AllOfAppend(l, r);
    CrossAssoc(L, P, R);
    CrossAssoc(P, L, R);
    CrossCommutes(L, P);
    CrossCongruent(Cross(L, P), Cross(P, L), R);
  }
}
