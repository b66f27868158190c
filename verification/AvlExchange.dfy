/** exchangeWithPrev: a node with two children trades places with its in-order
    predecessor, so that removeItem only ever unlinks a node with one child at most. */
module AvlExchange {
  import opened AvlShape
  import opened AvlNodes

  // -------------------------------------------------------------- paths in contexts

  /** The path p continued by the context c. */
  ghost function Append<T>(p: Ctx<T>, c: Ctx<T>): Ctx<T> {
    match p
    case Top => c
    case InLeft(x, b, r, up) => InLeft(x, b, r, Append(up, c))
    case InRight(l, x, b, up) => InRight(l, x, b, Append(up, c))
  }

  /** The path from a node down its right children. */
  ghost predicate AllRight<T>(p: Ctx<T>) {
    match p
    case Top => true
    case InLeft(_, _, _, _) => false
    case InRight(_, _, _, up) => AllRight(up)
  }

  ghost function Outermost(p: ItemCtx, hole: MapItem?): MapItem? {
    match p
    case Top => hole
    case InLeft(n, _, _, up) => Outermost(up, n)
    case InRight(_, n, _, up) => Outermost(up, n)
  }

  lemma {:induction false} AppendOrder<T>(p: Ctx<T>, c: Ctx<T>)
    ensures Before(Append(p, c)) == Before(c) + Before(p)
    ensures After(Append(p, c)) == After(p) + After(c)
    ensures AllRight(p) ==> After(p) == []
  {
    hide InOrder;
    match p {
      case Top =>
      case InLeft(x, _, r, up) =>
        AppendOrder(up, c);
        Assoc([x] + InOrder(r), After(up), After(c));
      case InRight(l, x, _, up) =>
        AppendOrder(up, c);
        Assoc(Before(c), Before(up), InOrder(l));
        Assoc(Before(c), Before(up) + InOrder(l), [x]);
    }
  }

  lemma Assoc<T>(a: seq<T>, b: seq<T>, c: seq<T>)
    ensures (a + b) + c == a + (b + c)
  {
  }

  ghost function HeightThrough<T>(p: Ctx<T>, h: nat): nat
    decreases p
  {
    if p.Top? then h else HeightThrough(p.up, FilledHeight(p, h))
  }

  lemma {:induction false} AppendBalanced<T>(p: Ctx<T>, c: Ctx<T>, h: nat)
    ensures BalancedAround(Append(p, c), h) <==> BalancedAround(p, h) && BalancedAround(c, HeightThrough(p, h))
    decreases p
  {
    if !p.Top? { AppendBalanced(p.up, c, FilledHeight(p, h)); }
  }

  lemma {:induction false} HeightOfPlug<T>(p: Ctx<T>, t: Tree<T>)
    ensures Height(Plug(p, t)) == HeightThrough(p, Height(t))
    decreases p
  {
    if !p.Top? { HeightOfPlug(p.up, Fill(p, t)); }
  }

  lemma {:induction false} AppendSep(p: ItemCtx, c: ItemCtx)
    ensures CtxItems(Append(p, c)) == CtxItems(p) + CtxItems(c)
    ensures SepCtx(Append(p, c)) <==> SepCtx(p) && SepCtx(c) && CtxItems(p) !! CtxItems(c)
  {
    if !p.Top? { AppendSep(p.up, c); }
  }

  lemma {:induction false} PlugSep(p: ItemCtx, t: ItemTree)
    ensures Items(Plug(p, t)) == Items(t) + CtxItems(p)
    ensures Sep(Plug(p, t)) <==> Sep(t) && SepCtx(p) && Items(t) !! CtxItems(p)
    decreases p
  {
    if !p.Top? { PlugSep(p.up, Fill(p, t)); }
  }

  /** A linked subtree, seen along a path into it. */
  lemma {:induction false} LinkedAlong(m: Memory, p: ItemCtx, t: ItemTree, top: MapItem)
    requires Linked(m, Plug(p, t), top) && top in m && m[top].left == RootOf(Plug(p, t))
    ensures Linked(m, t, Above(p, top)) && LinkedAround(m, p, RootOf(t), top)
    decreases p
  {
    if !p.Top? { LinkedAlong(m, p.up, Fill(p, t), top); }
  }

  lemma {:induction false} AppendAround(m: Memory, p: ItemCtx, x: MapItem, b: Balance, r: ItemTree, c: ItemCtx,
      hole: MapItem?, top: MapItem)
    requires LinkedAround(m, p, hole, x) && x in m && Linked(m, r, x) && LinkedAround(m, c, x, top)
    requires m[x] == Cell(m[x].left, RootOf(r), Above(c, top), b, true)
    ensures LinkedAround(m, Append(p, InLeft(x, b, r, c)), hole, top)
    decreases p
  {
    if !p.Top? { AppendAround(m, p.up, x, b, r, c, p.item, top); }
  }

  /** Hanging a path below another node: only its outermost parent link changes. */
  lemma {:induction false} Rehang(m: Memory, m': Memory, p: ItemCtx, hole: MapItem?, top: MapItem, top': MapItem)
    requires LinkedAround(m, p, hole, top) && SepCtx(p)
    requires top' in m' && m'[top'].left == Outermost(p, hole)
    requires forall n :: n in CtxItems(p) && n in m ==>
      Has(m', n, if n == Outermost(p, hole) then m[n].(parent := top') else m[n])
    ensures LinkedAround(m', p, hole, top')
    decreases p
  {
    if !p.Top? {
      var sub := if p.InLeft? then p.right else p.left;
      OutermostIn(p, hole);
      KeepLinked(m, m', sub, p.item);
      if !p.up.Top? {
        OutermostIn(p.up, p.item);
      }
      Rehang(m, m', p.up, p.item, top, top');
    }
  }

  lemma {:induction false} OutermostIn(p: ItemCtx, hole: MapItem?)
    requires !p.Top?
    ensures Outermost(p, hole) != null && Outermost(p, hole) in CtxItems(p)
    ensures SepCtx(p) ==> Outermost(p, hole) !in Items(if p.InLeft? then p.right else p.left)
    ensures !p.up.Top? && SepCtx(p) ==> Outermost(p, hole) != p.item
  {
    if !p.up.Top? { OutermostIn(p.up, p.item); }
  }

  // ------------------------------------------------------------------- the exchange

  /** The nodes whose links change. */
  ghost function Touched(top: MapItem, c: ItemCtx, t: ItemTree, p: ItemCtx, u: ItemTree): set<MapItem>
    requires t.Node? && u.Node?
  {
    {t.item, u.item, Above(c, top), Above(p, t.item)} + Roots(t.left) + Roots(t.right) + Roots(u.left)
  }

  /** The memory after the exchange of t.item with the predecessor u.item at the end of path p. */
  ghost predicate Exchanged(m: Memory, m': Memory, top: MapItem, c: ItemCtx, t: ItemTree, p: ItemCtx, u: ItemTree)
    requires t.Node? && u.Node? && t.right.Node?
  {
    var node, prev, r, ul, left := t.item, u.item, t.right, u.left, RootOf(t.left);
    && Has(m', node, Cell(RootOf(ul), null, Above(p, prev), u.balance, true))
    && Has(m', prev, Cell(if p.Top? then node else left, RootOf(r), Above(c, top), t.balance, true))
    && Above(c, top) in m && Has(m', Above(c, top), Refill(c, m[Above(c, top)], prev))
    && Has(m', r.item, Cell(RootOf(r.left), RootOf(r.right), prev, r.balance, true))
    && (ul.Node? ==> Has(m', ul.item, Cell(RootOf(ul.left), RootOf(ul.right), node, ul.balance, true)))
    && (!p.Top? ==>
      && p.item in m && left in m
      && Has(m', p.item, m[p.item].(right := node, parent := if p.item == left then prev else m[p.item].parent))
      && (p.item != left ==> Has(m', left, m[left].(parent := prev))))
    && Same(m, m', Zone(top, c, t) - Touched(top, c, t, p, u))
  }

  ghost predicate TwoSided(t: ItemTree, p: ItemCtx, u: ItemTree) {
    t.Node? && t.left == Plug(p, u) && AllRight(p) && u.Node? && u.right.Leaf?
  }

  lemma TouchedApart(top: MapItem, c: ItemCtx, t: ItemTree, p: ItemCtx, u: ItemTree)
    requires SepAt(top, c, t) && TwoSided(t, p, u)
    ensures var rest := Zone(top, c, t) - Touched(top, c, t, p, u);
      && Items(t.right) - Roots(t.right) <= rest && Items(u.left) - Roots(u.left) <= rest
      && CtxItems(c) + {top} - {Above(c, top)} <= rest && CtxItems(p) - {Above(p, t.item)} - Roots(t.left) <= rest
    ensures RootOf(t.left) == Outermost(p, u.item) && (!p.Top? ==> RootOf(t.left) == Outermost(p, t.item))
    ensures u.item !in CtxItems(p) && t.item !in CtxItems(p)
  {
    PlugSep(p, u);
    OutermostRoot(p, u);
    if !p.Top? { OutermostIn(p, t.item); }
  }

  lemma ExchangeSep(top: MapItem, c: ItemCtx, t: ItemTree, p: ItemCtx, u: ItemTree)
    requires SepAt(top, c, t) && TwoSided(t, p, u)
    ensures SepAt(top, Append(p, InLeft(u.item, t.balance, t.right, c)), Node(u.left, t.item, u.balance, Leaf))
    ensures Zone(top, Append(p, InLeft(u.item, t.balance, t.right, c)), Node(u.left, t.item, u.balance, Leaf))
        == Zone(top, c, t)
    ensures SepCtx(p) && u.item !in CtxItems(p) && t.item !in CtxItems(p)
  {
    PlugSep(p, u);
    AppendSep(p, InLeft(u.item, t.balance, t.right, c));
  }

  lemma ExchangePath(m: Memory, m': Memory, top: MapItem, c: ItemCtx, t: ItemTree, p: ItemCtx, u: ItemTree)
    requires Holds(m, top, c, t) && TwoSided(t, p, u) && t.right.Node? && Exchanged(m, m', top, c, t, p, u)
    ensures LinkedAround(m', p, t.item, u.item) && Linked(m, u, Above(p, t.item))
  {
    ExchangeSep(top, c, t, p, u);
    TouchedApart(top, c, t, p, u);
    LinkedAlong(m, p, u, t.item);
    if !p.Top? {
      assert p.InRight?;
      hide LinkedAround, Linked, Items, CtxItems, SepCtx, Outermost, Append, Plug, AllRight;
      PathRehung(m, m', t.item, u.item, p);
    }
  }

  /** The path from the left child to the predecessor hangs below the predecessor's new place. */
  lemma PathRehung(m: Memory, m': Memory, node: MapItem, prev: MapItem, p: ItemCtx)
    requires !p.Top? && p.InRight? && SepCtx(p) && LinkedAround(m, p, prev, node) && prev !in CtxItems(p)
    requires Outermost(p, node) == Outermost(p, prev) && Outermost(p, node) != null
    requires prev in m' && m'[prev].left == Outermost(p, node)
    requires p.item in m && p.item in m' && m'[p.item] ==
      m[p.item].(right := node, parent := if p.item == Outermost(p, node) then prev else m[p.item].parent)
    requires forall n :: n in CtxItems(p) && n in m && n != p.item ==>
      Has(m', n, if n == Outermost(p, node) then m[n].(parent := prev) else m[n])
    ensures LinkedAround(m', p, node, prev)
  {
    var m1 := m'[p.item := m'[p.item].(right := prev)];
    assert Has(m, p.item, Cell(RootOf(p.left), prev, Above(p.up, node), p.balance, true));
    hide LinkedAround, SepCtx;
    forall n | n in CtxItems(p) && n in m
      ensures Has(m1, n, if n == Outermost(p, prev) then m[n].(parent := prev) else m[n])
    {
    }
    Rehang(m, m1, p, prev, node, prev);
    RefillAround(m1, m', p, prev, node, prev);
  }

  lemma ExchangeLinks(m: Memory, m': Memory, top: MapItem, c: ItemCtx, t: ItemTree, p: ItemCtx, u: ItemTree)
    requires Holds(m, top, c, t) && TwoSided(t, p, u) && t.right.Node? && Exchanged(m, m', top, c, t, p, u)
    ensures Holds(m', top, Append(p, InLeft(u.item, t.balance, t.right, c)), Node(u.left, t.item, u.balance, Leaf))
  {
    assert t.Node? && u.Node?;
    hide Linked, LinkedAround, SepAt, Exchanged, TwoSided, Append, Items, CtxItems;
    ExchangeSep(top, c, t, p, u);
    ExchangePath(m, m', top, c, t, p, u);
    ExchangeSides(m, m', top, c, t, p, u);
    ExchangeAround(m, m', top, c, t, p, u);
    ExchangeWhole(m', top, c, t, p, u);
  }

  lemma ExchangeSides(m: Memory, m': Memory, top: MapItem, c: ItemCtx, t: ItemTree, p: ItemCtx, u: ItemTree)
    requires Holds(m, top, c, t) && TwoSided(t, p, u) && t.right.Node? && Exchanged(m, m', top, c, t, p, u)
    requires Linked(m, u, Above(p, t.item))
    ensures Linked(m', t.right, u.item) && Linked(m', u.left, t.item)
    ensures Has(m', t.item, Cell(RootOf(u.left), null, Above(p, u.item), u.balance, true))
    ensures Has(m', u.item,
        Cell(if p.Top? then t.item else RootOf(t.left), RootOf(t.right), Above(c, top), t.balance, true))
    ensures !p.Top? ==> RootOf(t.left) == Outermost(p, t.item)
  {
    TouchedApart(top, c, t, p, u);
    ExchangeRight(m, m', top, c, t, p, u);
    PlugSep(p, u);
    hide Plug, CtxItems;
    Reparent(m, m', u.left, u.item, t.item);
  }

  lemma ExchangeRight(m: Memory, m': Memory, top: MapItem, c: ItemCtx, t: ItemTree, p: ItemCtx, u: ItemTree)
    requires Holds(m, top, c, t) && TwoSided(t, p, u) && t.right.Node? && Exchanged(m, m', top, c, t, p, u)
    ensures Linked(m', t.right, u.item)
  {
    TouchedApart(top, c, t, p, u);
    hide Plug, CtxItems;
    Reparent(m, m', t.right, t.item, u.item);
  }

  lemma ExchangeAround(m: Memory, m': Memory, top: MapItem, c: ItemCtx, t: ItemTree, p: ItemCtx, u: ItemTree)
    requires Holds(m, top, c, t) && TwoSided(t, p, u) && t.right.Node? && Exchanged(m, m', top, c, t, p, u)
    ensures LinkedAround(m', c, u.item, top) && top in m' && !m'[top].isNotRoot && m'[top].right == null
  {
    TouchedApart(top, c, t, p, u);
    RefillAround(m, m', c, t.item, u.item, top);
  }

  /** The pieces, put together. */
  lemma ExchangeWhole(m: Memory, top: MapItem, c: ItemCtx, t: ItemTree, p: ItemCtx, u: ItemTree)
    requires t.Node? && u.Node?
    requires SepAt(top, Append(p, InLeft(u.item, t.balance, t.right, c)), Node(u.left, t.item, u.balance, Leaf))
    requires LinkedAround(m, p, t.item, u.item) && LinkedAround(m, c, u.item, top)
    requires Linked(m, t.right, u.item) && Linked(m, u.left, t.item)
    requires Has(m, t.item, Cell(RootOf(u.left), null, Above(p, u.item), u.balance, true))
    requires Has(m, u.item,
        Cell(if p.Top? then t.item else RootOf(t.left), RootOf(t.right), Above(c, top), t.balance, true))
    requires !p.Top? ==> RootOf(t.left) == Outermost(p, t.item)
    requires top in m && !m[top].isNotRoot && m[top].right == null
    ensures Holds(m, top, Append(p, InLeft(u.item, t.balance, t.right, c)), Node(u.left, t.item, u.balance, Leaf))
  {
    hide SepAt;
    AppendAround(m, p, u.item, t.balance, t.right, c, t.item, top);
    var n, f := Append(p, InLeft(u.item, t.balance, t.right, c)), Node(u.left, t.item, u.balance, Leaf);
    assert Above(n, top) == Above(p, u.item);
    assert Linked(m, Leaf, t.item);
    assert Linked(m, f, Above(n, top));
  }

  /** The last right child below the left child of node: its predecessor. */
  method FindPrev(node: MapItem, ghost top: MapItem, ghost c: ItemCtx, ghost t: ItemTree)
    returns (prev: MapItem, isChild: bool, ghost p: ItemCtx, ghost u: ItemTree)
    requires At(top, c, t) && t.Node? && t.item == node && t.left.Node?
    ensures TwoSided(t, p, u) && prev == u.item && isChild == p.Top?
    ensures At(top, c, t)
    ensures |InOrder(t.left)| > 0 && prev == InOrder(t.left)[|InOrder(t.left)| - 1]
  {
    prev, isChild, p, u := node.left, true, Top, t.left;
    ghost var c1 := InLeft(node, t.balance, t.right, c);
    DownLeftAt(top, c, t);
    Right(top, Append(p, c1), u);
    hide Holds, At;
    while prev.right != null
      invariant u.Node? && prev == u.item && t.left == Plug(p, u) && AllRight(p) && isChild == p.Top?
      invariant At(top, Append(p, c1), u) && prev.right == RootOf(u.right) && At(top, c, t)
      decreases u
    {
      DownRightAt(top, Append(p, c1), u);
      prev, isChild, p, u := prev.right, false, InRight(u.left, prev, u.balance, p), u.right;
      Right(top, Append(p, c1), u);
    }
    LastOfLeft(t, p, u);
  }

  /** The rightmost node of the left subtree comes last in its order. */
  lemma LastOfLeft(t: ItemTree, p: ItemCtx, u: ItemTree)
    requires TwoSided(t, p, u)
    ensures |InOrder(t.left)| > 0 && u.item == InOrder(t.left)[|InOrder(t.left)| - 1]
  {
    PlugInOrder(p, u);
    AppendOrder(p, Top);
    assert InOrder(u) == InOrder(u.left) + [u.item];
    hide InOrder, Plug, Before, After;
  }

  lemma Right(top: MapItem, c: ItemCtx, t: ItemTree)
    ensures At(top, c, t) && t.Node? ==> t.item.right == RootOf(t.right)
  {
  }

  /** The links exchangeWithPrev rewrites, given the seven nodes involved. */
  method SwapLinks(node: MapItem, prev: MapItem, isChild: bool)
    requires node.left != null && node.right != null && node.parent != null && prev.parent != null && prev.right == null
    requires isChild == (node.left == prev) && (isChild ==> prev.parent == node)
    requires node.parent !in {node, prev, node.left, node.right, prev.left}
    requires node.right !in {node, prev, node.left, prev.left} && prev.left !in {node, prev, node.left}
    requires node !in {prev, node.left}
    requires !isChild ==> prev.parent !in {node, prev, node.right, node.parent, prev.left}
    modifies {node, prev, node.parent, prev.parent}`left, {node, prev, node.parent, prev.parent}`right
    modifies {node, prev, node.left, node.right, prev.left}`parent, {node, prev}`balance
    ensures CellOf(node) ==
      Cell(old(prev.left), null, if isChild then prev else old(prev.parent), old(prev.balance), node.isNotRoot)
    ensures CellOf(prev) == Cell(
        if isChild then node else old(node.left), old(node.right), old(node.parent), old(node.balance), prev.isNotRoot)
    ensures CellOf(old(node.parent)) ==
      if old(node.parent.left == node) then old(CellOf(node.parent)).(left := prev)
      else old(CellOf(node.parent)).(right := prev)
    ensures CellOf(old(node.right)) == old(CellOf(node.right)).(parent := prev)
    ensures old(prev.left) != null ==> CellOf(old(prev.left)) == old(CellOf(prev.left)).(parent := node)
    ensures !isChild ==>
      CellOf(old(prev.parent)) == old(CellOf(prev.parent)).(
        right := node, parent := if old(prev.parent == node.left) then prev else old(prev.parent.parent))
    ensures !isChild && old(prev.parent != node.left) ==>
      CellOf(old(node.left)) == old(CellOf(node.left)).(parent := prev)
  {
    var left, right, parent := node.left, node.right, node.parent;
    var nodeIsLeft, balance := node.parent.left == node, node.balance;
    node.left := prev.left;
    node.right := prev.right;
    node.balance := prev.balance;
    if !isChild {
      node.parent := prev.parent;
    } else {
      node.parent := prev;
    }
    if isChild {
      prev.left := node;
    } else {
      prev.left := left;
    }
    prev.right := right;
    prev.parent := parent;
    prev.balance := balance;
    if isChild {
      node.parent.left := node;
    } else {
      node.parent.right := node;
    }
    if nodeIsLeft {
      prev.parent.left := prev;
    } else {
      prev.parent.right := prev;
    }
    prev.left.parent := prev;
    if prev.right != null {
      prev.right.parent := prev;
    }
    if node.left != null {
      node.left.parent := node;
    }
    // The predecessor had no right child, so node.right is null and the last test of the source fails.
  }

  ghost function NewCtx(c: ItemCtx, t: ItemTree, p: ItemCtx, u: ItemTree): ItemCtx
    requires t.Node? && u.Node?
  {
    Append(p, InLeft(u.item, t.balance, t.right, c))
  }

  ghost function NewFocus(t: ItemTree, u: ItemTree): ItemTree
    requires t.Node? && u.Node?
  {
    Node(u.left, t.item, u.balance, Leaf)
  }

  /** The seven nodes of the exchange, as memory shows them: their links, and that they differ. */
  ghost predicate Casted(m: Memory, top: MapItem, c: ItemCtx, t: ItemTree, p: ItemCtx, u: ItemTree)
    requires t.Node? && u.Node? && t.right.Node?
  {
    && (var node, prev, parent, left := t.item, u.item, Above(c, top), RootOf(t.left);
      && Has(m, node, Cell(left, t.right.item, parent, t.balance, true))
      && Has(m, prev, Cell(RootOf(u.left), null, Above(p, node), u.balance, true))
      && (p.Top? ==> left == prev)
      && (!p.Top? ==>
        && left == Outermost(p, node) && left in CtxItems(p) && p.item in CtxItems(p)
        && left in m && p.item in m && m[p.item].right == prev && m[left].parent == node)
      && parent in m && (m[parent].left == node <==> !c.InRight?)
      && Has(m, t.right.item, Cell(RootOf(t.right.left), RootOf(t.right.right), node, t.right.balance, true))
      && (u.left.Node? ==>
        Has(m, u.left.item, Cell(RootOf(u.left.left), RootOf(u.left.right), prev, u.left.balance, true))))
    && (var node, prev, parent, above := t.item, u.item, Above(c, top), Above(p, t.item);
      var left, right, ul := RootOf(t.left), t.right.item, RootOf(u.left);
      && parent !in {node, prev, left, right, ul} && right !in {node, prev, left, ul} && ul !in {node, prev, left}
      && node !in {prev, left} && (!p.Top? ==> above !in {node, prev, right, parent, ul} && left != prev))
    && {t.item, u.item, t.right.item, Above(c, top)} + Roots(t.left) + Roots(u.left) + CtxItems(p) <= Zone(top, c, t)
  }

  lemma Cast(m: Memory, top: MapItem, c: ItemCtx, t: ItemTree, p: ItemCtx, u: ItemTree)
    requires Holds(m, top, c, t) && TwoSided(t, p, u) && t.right.Node?
    ensures Casted(m, top, c, t, p, u)
  {
    PlugSep(p, u);
    LinkedAlong(m, p, u, t.item);
    assert Linked(m, t.right, t.item) && Linked(m, u.left, u.item);
    if !p.Top? {
      OutermostIn(p, t.item);
      OutermostRoot(p, u);
    }
  }

  lemma CastIn(m: Memory, top: MapItem, c: ItemCtx, t: ItemTree, p: ItemCtx, u: ItemTree)
    requires TwoSided(t, p, u) && t.right.Node?
    ensures Holds(m, top, c, t) ==> Casted(m, top, c, t, p, u)
    ensures Holds(m, top, c, t) ==> Zone(top, NewCtx(c, t, p, u), NewFocus(t, u)) == Zone(top, c, t)
  {
    if Holds(m, top, c, t) {
      Cast(m, top, c, t, p, u);
      ExchangeSep(top, c, t, p, u);
    }
  }

  lemma ExchangeIn(m: Memory, m': Memory, top: MapItem, c: ItemCtx, t: ItemTree, p: ItemCtx, u: ItemTree)
    requires TwoSided(t, p, u) && t.right.Node?
    ensures Holds(m, top, c, t) && Exchanged(m, m', top, c, t, p, u) ==>
      Holds(m', top, NewCtx(c, t, p, u), NewFocus(t, u))
  {
    if Holds(m, top, c, t) && Exchanged(m, m', top, c, t, p, u) {
      ExchangeLinks(m, m', top, c, t, p, u);
    }
  }

  lemma {:induction false} OutermostRoot(p: ItemCtx, u: ItemTree)
    ensures RootOf(Plug(p, u)) == Outermost(p, RootOf(u))
    decreases p
  {
    if !p.Top? { OutermostRoot(p.up, Fill(p, u)); }
  }

  /** node and its predecessor have traded places, links, flags and all. */
  method ExchangeWithPrev(node: MapItem, ghost top: MapItem, ghost c: ItemCtx, ghost t: ItemTree)
    returns (ghost p: ItemCtx, ghost u: ItemTree)
    requires At(top, c, t) && t.Node? && t.item == node && t.left.Node? && t.right.Node?
    modifies Zone(top, c, t)`left, Zone(top, c, t)`right, Zone(top, c, t)`parent, Zone(top, c, t)`balance
    ensures TwoSided(t, p, u)
    ensures At(top, NewCtx(c, t, p, u), NewFocus(t, u))
    ensures Zone(top, NewCtx(c, t, p, u), NewFocus(t, u)) == Zone(top, c, t)
  {
    hide Holds, Items, CtxItems, Plug, InOrder, TwoSided, NewCtx, NewFocus;
    var prev, isChild;
    prev, isChild, p, u := FindPrev(node, top, c, t);
    SwapIn(node, prev, isChild, top, c, t, p, u);
  }

  method SwapIn(node: MapItem, prev: MapItem, isChild: bool, ghost top: MapItem, ghost c: ItemCtx, ghost t: ItemTree,
      ghost p: ItemCtx, ghost u: ItemTree)
    requires At(top, c, t) && TwoSided(t, p, u) && t.right.Node?
    requires t.item == node && u.item == prev && isChild == p.Top?
    modifies Zone(top, c, t)`left, Zone(top, c, t)`right, Zone(top, c, t)`parent, Zone(top, c, t)`balance
    ensures At(top, NewCtx(c, t, p, u), NewFocus(t, u))
    ensures Zone(top, NewCtx(c, t, p, u), NewFocus(t, u)) == Zone(top, c, t)
  {
    hide Holds, Items, CtxItems, Plug, Outermost, Exchanged, Swapped, TwoSided;
    ghost var z := Zone(top, c, t);
    ghost var m := Snap(z);
    TwoSidedNodes(t, p, u);
    CastIn(m, top, c, t, p, u);
    SwapZone(node, prev, isChild, z);
    SwappedIsExchanged(m, Snap(z), top, c, t, p, u);
    ExchangeIn(m, Snap(z), top, c, t, p, u);
  }

  lemma TwoSidedNodes(t: ItemTree, p: ItemCtx, u: ItemTree)
    requires TwoSided(t, p, u)
    ensures t.Node? && u.Node? && u.right.Leaf?
  {
  }

  /** SwapLinks, seen in a snapshot. */
  ghost predicate Swapped(m: Memory, m': Memory, node: MapItem, prev: MapItem, isChild: bool) {
    && node in m && prev in m
    && m[node].right != null && m[node].right in m && m[node].parent != null && m[node].parent in m
    && (var a, b := m[node], m[prev];
      && Has(m', node, Cell(b.left, null, if isChild then prev else b.parent, b.balance, a.isNotRoot))
      && Has(m', prev, Cell(if isChild then node else a.left, a.right, a.parent, a.balance, b.isNotRoot))
      && Has(m', a.parent, if m[a.parent].left == node then m[a.parent].(left := prev) else m[a.parent].(right := prev))
      && Has(m', a.right, m[a.right].(parent := prev))
      && (b.left != null && b.left in m ==> Has(m', b.left, m[b.left].(parent := node)))
      && (!isChild && b.parent != null && b.parent in m ==>
        Has(m', b.parent, m[b.parent].(
            right := node, parent := if b.parent == a.left then prev else m[b.parent].parent)))
      && (!isChild && a.left != null && a.left in m && b.parent != a.left ==>
        Has(m', a.left, m[a.left].(parent := prev)))
      && forall n :: n in m && n !in {node, prev, a.parent, b.parent, a.left, a.right, b.left} ==> Has(m', n, m[n]))
  }

  method SwapZone(node: MapItem, prev: MapItem, isChild: bool, ghost z: set<MapItem>)
    requires node.left != null && node.right != null && node.parent != null && prev.parent != null && prev.right == null
    requires isChild == (node.left == prev) && (isChild ==> prev.parent == node)
    requires node.parent !in {node, prev, node.left, node.right, prev.left}
    requires node.right !in {node, prev, node.left, prev.left} && prev.left !in {node, prev, node.left}
    requires node !in {prev, node.left}
    requires !isChild ==> prev.parent !in {node, prev, node.right, node.parent, prev.left}
    requires {node, prev, node.left, node.right, node.parent, prev.parent} <= z
    requires prev.left != null ==> prev.left in z
    modifies z`left, z`right, z`parent, z`balance
    ensures Swapped(old(Snap(z)), Snap(z), node, prev, isChild)
  {
    ghost var m := Snap(z);
    SwapLinks(node, prev, isChild);
  }

  lemma SwappedIsExchanged(m: Memory, m': Memory, top: MapItem, c: ItemCtx, t: ItemTree, p: ItemCtx, u: ItemTree)
    requires t.Node? && u.Node? && t.right.Node?
    requires Casted(m, top, c, t, p, u) && Swapped(m, m', t.item, u.item, p.Top?)
    ensures Exchanged(m, m', top, c, t, p, u)
  {
    hide Outermost, CtxItems, Items;
  }

  // ------------------------------------------------------------------- the unlinking

  ghost predicate HalfEmpty(t: ItemTree) {
    t.Node? && (t.left.Leaf? || t.right.Leaf?)
  }

  ghost function OnlyChild(t: ItemTree): ItemTree
    requires t.Node?
  {
    if t.left.Node? then t.left else t.right
  }

  lemma SpliceLinks(m: Memory, m': Memory, top: MapItem, c: ItemCtx, t: ItemTree)
    requires HalfEmpty(t)
    ensures Holds(m, top, c, t) && (var p, child := Above(c, top), OnlyChild(t);
        && p in m && Has(m', p, Refill(c, m[p], RootOf(child)))
        && (child.Node? ==> Has(m', child.item, Cell(RootOf(child.left), RootOf(child.right), p, child.balance, true)))
        && Same(m, m', Zone(top, c, child) - {p} - Roots(child)))
      ==> Holds(m', top, c, OnlyChild(t))
  {
    var p, child := Above(c, top), OnlyChild(t);
    if Holds(m, top, c, t) && p in m && Has(m', p, Refill(c, m[p], RootOf(child)))
        && (child.Node? ==> Has(m', child.item, Cell(RootOf(child.left), RootOf(child.right), p, child.balance, true)))
        && Same(m, m', Zone(top, c, child) - {p} - Roots(child)) {
      assert Linked(m, child, t.item) && Sep(child) && Items(child) <= Items(t);
      assert Items(child) - Roots(child) <= Zone(top, c, child) - {p} - Roots(child);
      assert CtxItems(c) + {top} - {p} <= Zone(top, c, child) - {p} - Roots(child);
      hide Linked, LinkedAround, Items;
      Reparent(m, m', child, t.item, p);
      RefillAround(m, m', c, t.item, RootOf(child), top);
    }
  }

  lemma Halves(m: Memory, top: MapItem, c: ItemCtx, t: ItemTree)
    requires HalfEmpty(t)
    ensures Holds(m, top, c, t) ==> var p, child := Above(c, top), OnlyChild(t);
      && Has(m, t.item, Cell(RootOf(t.left), RootOf(t.right), p, t.balance, true)) && p in m && p != t.item
      && (m[p].left == t.item <==> !c.InRight?)
      && (child.Node? ==>
        && child.item != p && child.item != t.item
        && Has(m, child.item, Cell(RootOf(child.left), RootOf(child.right), t.item, child.balance, true)))
      && Zone(top, c, t) == Zone(top, c, child) + {t.item} && t.item !in Zone(top, c, child)
      && Roots(child) + {p} <= Zone(top, c, child)
  {
    assert Linked(m, t, Above(c, top)) ==> Linked(m, t.left, t.item) && Linked(m, t.right, t.item);
  }

  /** Puts the only child of node, if any, in the place of node. */
  method Unlink(node: MapItem, ghost top: MapItem, ghost c: ItemCtx, ghost t: ItemTree)
    returns (parent: MapItem, isLeft: bool)
    requires At(top, c, t) && HalfEmpty(t) && t.item == node
    modifies Zone(top, c, t)`left, Zone(top, c, t)`right, Zone(top, c, t)`parent
    ensures At(top, c, OnlyChild(t)) && parent == Above(c, top) && isLeft == !c.InRight?
    ensures node !in Zone(top, c, OnlyChild(t)) && Zone(top, c, t) == Zone(top, c, OnlyChild(t)) + {node}
  {
    hide Holds, Items, CtxItems;
    ghost var m := Snap(Zone(top, c, t));
    Halves(m, top, c, t);
    parent := node.parent;
    var child := if node.left != null then node.left else node.right;
    isLeft := node == parent.left;
    if isLeft {
      parent.left := child;
    } else {
      parent.right := child;
    }
    if child != null {
      child.parent := parent;
    }
    SpliceLinks(m, Snap(Zone(top, c, OnlyChild(t))), top, c, t);
  }
}
