/** The values behind the intrusive AVL tree: trees whose nodes carry the stored
    balance flag, contexts (a tree with one hole, seen from the hole upwards), and
    the rebalancing steps as functions. Nothing here knows about memory; AvlTree.dfy
    ties these values to the linked nodes. */
module AvlShape {

  /** Which subtree is the higher one (MapItem::Balance_T). */
  datatype Balance = LeftHigh | Even | RightHigh

  datatype Tree<T> =
    | Leaf
    | Node(left: Tree<T>, item: T, balance: Balance, right: Tree<T>)

  /** The part of a tree around a hole, innermost frame first. */
  datatype Ctx<T> =
    | Top
    | InLeft(item: T, balance: Balance, right: Tree<T>, up: Ctx<T>)
    | InRight(left: Tree<T>, item: T, balance: Balance, up: Ctx<T>)

  // ---------------------------------------------------------------- contents

  ghost function InOrder<T>(t: Tree<T>): seq<T> {
    match t
    case Leaf => []
    case Node(l, x, _, r) => InOrder(l) + [x] + InOrder(r)
  }

  /** What the context visits before the hole, and after it. */
  ghost function Before<T>(c: Ctx<T>): seq<T> {
    match c
    case Top => []
    case InLeft(_, _, _, up) => Before(up)
    case InRight(l, x, _, up) => Before(up) + InOrder(l) + [x]
  }

  ghost function After<T>(c: Ctx<T>): seq<T> {
    match c
    case Top => []
    case InLeft(x, _, r, up) => [x] + InOrder(r) + After(up)
    case InRight(_, _, _, up) => After(up)
  }

  ghost function Plug<T>(c: Ctx<T>, t: Tree<T>): Tree<T> {
    match c
    case Top => t
    case InLeft(x, b, r, up) => Plug(up, Node(t, x, b, r))
    case InRight(l, x, b, up) => Plug(up, Node(l, x, b, t))
  }

  lemma {:induction false} PlugInOrder<T>(c: Ctx<T>, t: Tree<T>)
    ensures InOrder(Plug(c, t)) == Before(c) + InOrder(t) + After(c)
    decreases c
  {
    match c {
      case Top =>
      case InLeft(x, b, r, up) =>
        PlugInOrder(up, Node(t, x, b, r));
        assert InOrder(Node(t, x, b, r)) == InOrder(t) + [x] + InOrder(r);
        hide InOrder;
        RegroupLeft(Before(up), InOrder(t), x, InOrder(r), After(up));
      case InRight(l, x, b, up) =>
        PlugInOrder(up, Node(l, x, b, t));
        assert InOrder(Node(l, x, b, t)) == InOrder(l) + [x] + InOrder(t);
        hide InOrder;
        RegroupRight(Before(up), InOrder(l), x, InOrder(t), After(up));
    }
  }

  lemma RegroupLeft<T>(a: seq<T>, l: seq<T>, x: T, r: seq<T>, b: seq<T>)
    ensures a + (l + [x] + r) + b == a + l + ([x] + r + b)
  {
  }

  lemma RegroupRight<T>(a: seq<T>, l: seq<T>, x: T, r: seq<T>, b: seq<T>)
    ensures a + (l + [x] + r) + b == (a + l + [x]) + r + b
  {
  }

  // ------------------------------------------------------ heights and balance

  ghost function Max(a: nat, b: nat): nat { if a < b then b else a }

  ghost function Height<T>(t: Tree<T>): nat {
    match t
    case Leaf => 0
    case Node(l, _, _, r) => 1 + Max(Height(l), Height(r))
  }

  /** The stored flag b is the true comparison of the two heights, which differ by at most one. */
  ghost predicate Tells(b: Balance, hl: nat, hr: nat) {
    match b
    case LeftHigh => hl == hr + 1
    case Even => hl == hr
    case RightHigh => hr == hl + 1
  }

  ghost predicate Balanced<T>(t: Tree<T>) {
    match t
    case Leaf => true
    case Node(l, _, b, r) => Tells(b, Height(l), Height(r)) && Balanced(l) && Balanced(r)
  }

  /** The context's flags are true when a tree of height h fills the hole. */
  ghost predicate BalancedAround<T>(c: Ctx<T>, h: nat)
    decreases c
  {
    match c
    case Top => true
    case InLeft(_, b, r, up) =>
      Tells(b, h, Height(r)) && Balanced(r) && BalancedAround(up, 1 + Max(h, Height(r)))
    case InRight(l, _, b, up) =>
      Tells(b, Height(l), h) && Balanced(l) && BalancedAround(up, 1 + Max(Height(l), h))
  }

  lemma {:induction false} PlugBalanced<T>(c: Ctx<T>, t: Tree<T>)
    ensures Balanced(Plug(c, t)) <==> Balanced(t) && BalancedAround(c, Height(t))
    decreases c
  {
    match c
    case Top =>
    case InLeft(x, b, r, up) => PlugBalanced(up, Node(t, x, b, r));
    case InRight(l, x, b, up) => PlugBalanced(up, Node(l, x, b, t));
  }

  // -------------------------------------------------------------- rebalancing

  ghost function RotRight<T>(t: Tree<T>): (r: Tree<T>)
    requires t.Node? && t.left.Node?
    ensures InOrder(r) == InOrder(t)
  {
    Node(t.left.left, t.left.item, t.left.balance, Node(t.left.right, t.item, t.balance, t.right))
  }

  ghost function RotLeft<T>(t: Tree<T>): (r: Tree<T>)
    requires t.Node? && t.right.Node?
    ensures InOrder(r) == InOrder(t)
  {
    Node(Node(t.left, t.item, t.balance, t.right.left), t.right.item, t.right.balance, t.right.right)
  }

  /** Rebalances a node whose left subtree is two levels higher than its right one:
      grewLeft and rightShorter agree on the resulting tree. */
  ghost function FixLeft<T>(t: Tree<T>): Tree<T>
    requires t.Node? && t.left.Node? && (t.left.balance.RightHigh? ==> t.left.right.Node?)
    ensures InOrder(FixLeft(t)) == InOrder(t)
  {
    var l := t.left;
    match l.balance
    case LeftHigh => RotRight(Node(l.(balance := Even), t.item, Even, t.right))
    case Even => RotRight(Node(l.(balance := RightHigh), t.item, LeftHigh, t.right))
    case RightHigh =>
      var g := l.right;
      var bl := if g.balance.RightHigh? then LeftHigh else Even;
      var bt := if g.balance.LeftHigh? then RightHigh else Even;
      var l' := RotLeft(l.(balance := bl, right := g.(balance := Even)));
      assert InOrder(l') == InOrder(l);
      RotRight(Node(l', t.item, bt, t.right))
  }

  /** The mirror image: the right subtree is two levels higher. */
  ghost function FixRight<T>(t: Tree<T>): Tree<T>
    requires t.Node? && t.right.Node? && (t.right.balance.LeftHigh? ==> t.right.left.Node?)
    ensures InOrder(FixRight(t)) == InOrder(t)
  {
    var r := t.right;
    match r.balance
    case RightHigh => RotLeft(Node(t.left, t.item, Even, r.(balance := Even)))
    case Even => RotLeft(Node(t.left, t.item, RightHigh, r.(balance := LeftHigh)))
    case LeftHigh =>
      var g := r.left;
      var br := if g.balance.LeftHigh? then RightHigh else Even;
      var bt := if g.balance.RightHigh? then LeftHigh else Even;
      var r' := RotRight(r.(balance := br, left := g.(balance := Even)));
      assert InOrder(r') == InOrder(r);
      RotLeft(Node(t.left, t.item, bt, r'))
  }

  /** Rebalancing keeps the visiting order, restores every flag, and loses one level
      exactly when the higher child was not even. */
  lemma FixLeftRestores<T>(t: Tree<T>)
    requires t.Node? && Balanced(t.left) && Balanced(t.right)
    requires Height(t.left) == Height(t.right) + 2
    ensures t.left.Node? && (t.left.balance.RightHigh? ==> t.left.right.Node?)
    ensures Balanced(FixLeft(t))
    ensures Height(FixLeft(t)) == if t.left.balance.Even? then Height(t) else Height(t) - 1
  {
    assert t.left.Node? && (t.left.balance.RightHigh? ==> t.left.right.Node?);
    hide FixLeft, InOrder, Balanced, Height;
    match t.left.balance {
      case LeftHigh => FixLeftSingle(t);
      case Even => FixLeftEven(t);
      case RightHigh => FixLeftDouble(t);
    }
  }

  lemma FixLeftSingle<T>(t: Tree<T>)
    requires t.Node? && Balanced(t.left) && Balanced(t.right)
    requires Height(t.left) == Height(t.right) + 2
    requires t.left.Node? && t.left.balance.LeftHigh?
    ensures Balanced(FixLeft(t)) && Height(FixLeft(t)) == Height(t) - 1
  {
    hide InOrder;
  }

  lemma FixLeftEven<T>(t: Tree<T>)
    requires t.Node? && Balanced(t.left) && Balanced(t.right)
    requires Height(t.left) == Height(t.right) + 2
    requires t.left.Node? && t.left.balance.Even?
    ensures Balanced(FixLeft(t)) && Height(FixLeft(t)) == Height(t)
  {
    hide InOrder;
  }

  lemma FixLeftDouble<T>(t: Tree<T>)
    requires t.Node? && Balanced(t.left) && Balanced(t.right)
    requires Height(t.left) == Height(t.right) + 2
    requires t.left.Node? && t.left.balance.RightHigh? && t.left.right.Node?
    ensures Balanced(FixLeft(t)) && Height(FixLeft(t)) == Height(t) - 1
  {
    hide InOrder;
    assert Balanced(t.left.right);
  }

  lemma FixRightRestores<T>(t: Tree<T>)
    requires t.Node? && Balanced(t.left) && Balanced(t.right)
    requires Height(t.right) == Height(t.left) + 2
    ensures t.right.Node? && (t.right.balance.LeftHigh? ==> t.right.left.Node?)
    ensures Balanced(FixRight(t))
    ensures Height(FixRight(t)) == if t.right.balance.Even? then Height(t) else Height(t) - 1
  {
    assert t.right.Node? && (t.right.balance.LeftHigh? ==> t.right.left.Node?);
    hide FixRight, InOrder, Balanced, Height;
    match t.right.balance {
      case RightHigh => FixRightSingle(t);
      case Even => FixRightEven(t);
      case LeftHigh => FixRightDouble(t);
    }
  }

  lemma FixRightSingle<T>(t: Tree<T>)
    requires t.Node? && Balanced(t.left) && Balanced(t.right)
    requires Height(t.right) == Height(t.left) + 2
    requires t.right.Node? && t.right.balance.RightHigh?
    ensures Balanced(FixRight(t)) && Height(FixRight(t)) == Height(t) - 1
  {
    hide InOrder;
  }

  lemma FixRightEven<T>(t: Tree<T>)
    requires t.Node? && Balanced(t.left) && Balanced(t.right)
    requires Height(t.right) == Height(t.left) + 2
    requires t.right.Node? && t.right.balance.Even?
    ensures Balanced(FixRight(t)) && Height(FixRight(t)) == Height(t)
  {
    hide InOrder;
  }

  lemma FixRightDouble<T>(t: Tree<T>)
    requires t.Node? && Balanced(t.left) && Balanced(t.right)
    requires Height(t.right) == Height(t.left) + 2
    requires t.right.Node? && t.right.balance.LeftHigh? && t.right.left.Node?
    ensures Balanced(FixRight(t)) && Height(FixRight(t)) == Height(t) - 1
  {
    hide InOrder;
    assert Balanced(t.right.left);
  }

  // ------------------------------------------------------------ one step upwards

  ghost function Fill<T>(c: Ctx<T>, t: Tree<T>): Tree<T>
    requires !c.Top?
  {
    if c.InLeft? then Node(t, c.item, c.balance, c.right) else Node(c.left, c.item, c.balance, t)
  }

  /** The height of the subtree below c.up, when a tree of height h fills c. */
  ghost function FilledHeight<T>(c: Ctx<T>, h: nat): nat
    requires !c.Top?
  {
    1 + Max(h, Height(if c.InLeft? then c.right else c.left))
  }

  /** The flags of c are those of a hole of height h, which t overfills by one level.
      A tree that grew is either new or leans to the side that grew. */
  ghost predicate Grown<T>(c: Ctx<T>, t: Tree<T>, h: nat) {
    Balanced(t) && BalancedAround(c, h) && Height(t) == h + 1 && (h == 0 || !t.balance.Even?)
  }

  /** The same one level short. */
  ghost predicate Shrunk<T>(c: Ctx<T>, t: Tree<T>, h: nat) {
    Balanced(t) && BalancedAround(c, h) && Height(t) + 1 == h
  }

  ghost function AfterGrowth<T>(c: Ctx<T>, t: Tree<T>, h: nat): (r: (Tree<T>, bool))
    requires !c.Top? && Grown(c, t, h)
    ensures InOrder(r.0) == InOrder(Fill(c, t))
  {
    var f := Fill(c, t);
    match c.balance
    case Even => (f.(balance := if c.InLeft? then LeftHigh else RightHigh), true)
    case LeftHigh =>
      if c.InLeft? then (FixLeftRestores(f); FixLeft(f), false) else (f.(balance := Even), false)
    case RightHigh =>
      if c.InLeft? then (f.(balance := Even), false) else (FixRightRestores(f); FixRight(f), false)
  }

  /** One step up after an insertion: contents kept, flags true, and the result is one level
      higher than the former subtree exactly when the flag taller says so. */
  lemma AfterGrowthSettles<T>(c: Ctx<T>, t: Tree<T>, h: nat)
    requires !c.Top? && Grown(c, t, h)
    ensures InOrder(AfterGrowth(c, t, h).0) == InOrder(Fill(c, t))
    ensures var (t', taller) := AfterGrowth(c, t, h);
      && Balanced(t') && BalancedAround(c.up, FilledHeight(c, h))
      && Height(t') == FilledHeight(c, h) + (if taller then 1 else 0)
      && (taller ==> Grown(c.up, t', FilledHeight(c, h)))
  {
    hide FixLeft, FixRight, InOrder;
    var f := Fill(c, t);
    if c.InLeft? && c.balance.LeftHigh? {
      FixLeftRestores(f);
    } else if c.InRight? && c.balance.RightHigh? {
      FixRightRestores(f);
    } else {
      GrowthAbsorbed(c, t, h);
    }
  }

  /** Without a rotation. */
  lemma GrowthAbsorbed<T>(c: Ctx<T>, t: Tree<T>, h: nat)
    requires !c.Top? && Grown(c, t, h) && !(c.InLeft? && c.balance.LeftHigh?) && !(c.InRight? && c.balance.RightHigh?)
    ensures var (t', taller) := AfterGrowth(c, t, h);
      && Balanced(t') && BalancedAround(c.up, FilledHeight(c, h))
      && Height(t') == FilledHeight(c, h) + (if taller then 1 else 0)
      && (taller ==> Grown(c.up, t', FilledHeight(c, h)))
  {
    hide FixLeft, FixRight, InOrder;
  }

  ghost function AfterShrink<T>(c: Ctx<T>, t: Tree<T>, h: nat): (r: (Tree<T>, bool))
    requires !c.Top? && Shrunk(c, t, h)
    ensures InOrder(r.0) == InOrder(Fill(c, t))
  {
    var f := Fill(c, t);
    match c.balance
    case Even => (f.(balance := if c.InLeft? then RightHigh else LeftHigh), false)
    case LeftHigh =>
      if c.InLeft? then (f.(balance := Even), true)
      else (FixLeftRestores(f); FixLeft(f), !f.left.balance.Even?)
    case RightHigh =>
      if c.InLeft? then (FixRightRestores(f); FixRight(f), !f.right.balance.Even?)
      else (f.(balance := Even), true)
  }

  /** One step up after a removal: the result is one level lower exactly when shorter says so. */
  lemma AfterShrinkSettles<T>(c: Ctx<T>, t: Tree<T>, h: nat)
    requires !c.Top? && Shrunk(c, t, h)
    ensures InOrder(AfterShrink(c, t, h).0) == InOrder(Fill(c, t))
    ensures var (t', shorter) := AfterShrink(c, t, h);
      && Balanced(t') && BalancedAround(c.up, FilledHeight(c, h))
      && Height(t') == FilledHeight(c, h) - (if shorter then 1 else 0)
      && (shorter ==> Shrunk(c.up, t', FilledHeight(c, h)))
  {
    hide FixLeft, FixRight, InOrder;
    var f := Fill(c, t);
    if c.InRight? && c.balance.LeftHigh? { FixLeftRestores(f); }
    if c.InLeft? && c.balance.RightHigh? { FixRightRestores(f); }
  }

  // ------------------------------------------------------------------ how high it gets

  /** The fewest items that make a balanced tree of height h: one less than a Fibonacci number. */
  ghost function MinItems(h: nat): nat {
    if h < 2 then h else 1 + MinItems(h - 1) + MinItems(h - 2)
  }

  lemma {:induction false} MinItemsGrows(g: nat, h: nat)
    requires g <= h
    ensures MinItems(g) <= MinItems(h)
    decreases h
  {
    if g < h && h >= 2 { MinItemsGrows(g, h - 1); }
  }

  lemma {:induction false} EnoughItems<T>(t: Tree<T>)
    requires Balanced(t)
    ensures |InOrder(t)| >= MinItems(Height(t))
  {
    if t.Node? {
      EnoughItems(t.left);
      EnoughItems(t.right);
      MinItemsGrows(Height(t.left), Height(t.left) + 1);
      MinItemsGrows(Height(t.right), Height(t.right) + 1);
    }
  }

  /** The first number of items that allows 33 levels: the 35th Fibonacci number less one. */
  const CAPACITY: nat := 9_227_464

  lemma MinItems33()
    ensures MinItems(33) == CAPACITY
  {
    assert MinItems(8) == 54 && MinItems(9) == 88;
    assert MinItems(16) == 2583 && MinItems(17) == 4180;
    assert MinItems(24) == 121392 && MinItems(25) == 196417;
    assert MinItems(32) == 5702886 && MinItems(31) == 3524577;
  }

  lemma HeightBelow<T>(t: Tree<T>, h: nat)
    requires Balanced(t) && |InOrder(t)| < MinItems(h)
    ensures Height(t) < h
  {
    EnoughItems(t);
    if Height(t) >= h { MinItemsGrows(h, Height(t)); }
  }

  /** With fewer items than CAPACITY the tree has at most 32 levels. */
  lemma HeightLimit<T>(t: Tree<T>)
    requires Balanced(t) && |InOrder(t)| < CAPACITY
    ensures Height(t) <= 32
  {
    MinItems33();
    hide MinItems;
    HeightBelow(t, 33);
  }

  /** The leanest tree of every height. */
  ghost function Leanest(h: nat): Tree<nat> {
    if h == 0 then Leaf
    else if h == 1 then Node(Leaf, 0, Even, Leaf)
    else Node(Leanest(h - 1), 0, LeftHigh, Leanest(h - 2))
  }

  /** The bound is exact: CAPACITY items can make a balanced tree of 33 levels. */
  lemma {:induction false} LeanestIsLean(h: nat)
    ensures Balanced(Leanest(h)) && Height(Leanest(h)) == h && |InOrder(Leanest(h))| == MinItems(h)
  {
    if h >= 2 {
      LeanestIsLean(h - 1);
      LeanestIsLean(h - 2);
      var l, r := Leanest(h - 1), Leanest(h - 2);
      assert Leanest(h) == Node(l, 0, LeftHigh, r) && MinItems(h) == MinItems(h - 1) + MinItems(h - 2) + 1;
      hide Leanest, MinItems;
    }
  }
}
