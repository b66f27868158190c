/** AvlTree_::insert and removeItem: the walk down, the walk back up, and what
    they leave behind. */
module AvlTree {
  import opened AvlShape
  import opened AvlNodes
  import opened AvlExchange

  lemma UpAt(top: MapItem, c: ItemCtx, t: ItemTree)
    requires !c.Top?
    ensures At(top, c, t) <==> At(top, c.up, Fill(c, t))
    ensures Zone(top, c, t) == Zone(top, c.up, Fill(c, t))
    ensures At(top, c, t) ==> c.item.balance == c.balance
  {
    if c.InLeft? {
      DownLeftAt(top, c.up, Fill(c, t));
    } else {
      DownRightAt(top, c.up, Fill(c, t));
    }
  }

  // ------------------------------------------------------------------- one step up

  /** One turn of insert's second loop: the subtree in the hole of c grew by one level;
      cur is the node above it, and comparison says on which side. */
  method StepAfterGrowth(cur: MapItem, comparison: int, ghost top: MapItem, ghost c: ItemCtx, ghost t: ItemTree,
      ghost h: nat)
    returns (taller: bool)
    requires At(top, c, t) && !c.Top? && Grown(c, t, h)
    requires cur == c.item && comparison == (if c.InLeft? then 1 else -1)
    modifies Zone(top, c, t)`left, Zone(top, c, t)`right, Zone(top, c, t)`parent, Zone(top, c, t)`balance
    ensures taller == AfterGrowth(c, t, h).1
    ensures At(top, c.up, AfterGrowth(c, t, h).0) && Zone(top, c.up, AfterGrowth(c, t, h).0) == Zone(top, c, t)
  {
    ghost var f := Fill(c, t);
    UpAt(top, c, t);
    hide Holds;
    if comparison > 0 {
      match cur.balance {
        case LeftHigh =>
          FixLeftRestores(f);
          taller := GrewLeft(cur, top, c.up, f);
        case Even =>
          SetBalanceAt(cur, LeftHigh, top, c.up, f);
          taller := true;
        case RightHigh =>
          SetBalanceAt(cur, Even, top, c.up, f);
          taller := false;
      }
    } else {
      match cur.balance {
        case LeftHigh =>
          SetBalanceAt(cur, Even, top, c.up, f);
          taller := false;
        case Even =>
          SetBalanceAt(cur, RightHigh, top, c.up, f);
          taller := true;
        case RightHigh =>
          FixRightRestores(f);
          taller := GrewRight(cur, top, c.up, f);
      }
    }
  }

  /** One turn of removeItem's loop: the subtree in the hole of c lost one level. */
  method StepAfterShrink(parent: MapItem, isLeft: bool, ghost top: MapItem, ghost c: ItemCtx, ghost t: ItemTree,
      ghost h: nat)
    returns (shorter: bool)
    requires At(top, c, t) && !c.Top? && Shrunk(c, t, h)
    requires parent == c.item && isLeft == c.InLeft?
    modifies Zone(top, c, t)`left, Zone(top, c, t)`right, Zone(top, c, t)`parent, Zone(top, c, t)`balance
    ensures shorter == AfterShrink(c, t, h).1
    ensures At(top, c.up, AfterShrink(c, t, h).0) && Zone(top, c.up, AfterShrink(c, t, h).0) == Zone(top, c, t)
  {
    ghost var f := Fill(c, t);
    UpAt(top, c, t);
    hide Holds;
    if isLeft {
      match parent.balance {
        case LeftHigh =>
          SetBalanceAt(parent, Even, top, c.up, f);
          shorter := true;
        case Even =>
          SetBalanceAt(parent, RightHigh, top, c.up, f);
          shorter := false;
        case RightHigh =>
          FixRightRestores(f);
          shorter := LeftShorter(parent, top, c.up, f);
      }
    } else {
      match parent.balance {
        case LeftHigh =>
          FixLeftRestores(f);
          shorter := RightShorter(parent, top, c.up, f);
        case Even =>
          SetBalanceAt(parent, LeftHigh, top, c.up, f);
          shorter := false;
        case RightHigh =>
          SetBalanceAt(parent, Even, top, c.up, f);
          shorter := true;
      }
    }
  }

  // --------------------------------------------------------------- the way back up

  /** Which way the path to the hole turns at each node, as insert records it. */
  ghost function Turns(c: ItemCtx): seq<int> {
    match c
    case Top => []
    case InLeft(_, _, _, up) => Turns(up) + [1]
    case InRight(_, _, _, up) => Turns(up) + [-1]
  }

  /** Seen from any place, memory holds the whole tree. */
  lemma {:induction false} ZipUp(top: MapItem, c: ItemCtx, t: ItemTree)
    ensures At(top, c, t) <==> At(top, Top, Plug(c, t))
    ensures Zone(top, c, t) == Zone(top, Top, Plug(c, t))
    decreases c
  {
    if !c.Top? {
      UpAt(top, c, t);
      ZipUp(top, c.up, Fill(c, t));
    }
  }

  /** What can be read off the node at the focus. */
  lemma LookAt(top: MapItem, c: ItemCtx, t: ItemTree)
    ensures At(top, c, t) && t.Node? ==>
      && t.item.left == RootOf(t.left) && t.item.right == RootOf(t.right) && t.item.parent == Above(c, top)
      && t.item.balance == t.balance && t.item.isNotRoot && t.item != top
    ensures At(top, c, t) && c.Top? ==> top.left == RootOf(t)
  {
  }

  /** How the node above the focus points at it. */
  lemma HoleLink(top: MapItem, c: ItemCtx, t: ItemTree)
    ensures At(top, c, t) && t.Node? ==>
      && (Above(c, top).left == t.item <==> !c.InRight?) && (Above(c, top).right == t.item <==> c.InRight?)
  {
  }

  lemma WholeZone(top: MapItem, t: ItemTree)
    ensures At(top, Top, t) ==> Items(t) == Zone(top, Top, t) - {top} && top !in Items(t)
  {
  }

  /** Removes all references from a deleted node to its tree, and its mark. */
  method Clear(node: MapItem)
    modifies node
    ensures node.container == null && CellOf(node) == Cell(null, null, null, Even, true)
  {
    node.Initialize(null);
    node.container := null;
  }

  lemma SameContents(c: ItemCtx, t: ItemTree, t': ItemTree)
    requires InOrder(t) == InOrder(t')
    ensures InOrder(Plug(c, t)) == InOrder(Plug(c, t'))
  {
    PlugInOrder(c, t);
    PlugInOrder(c, t');
  }

  /** insert's second loop. */
  method ClimbAfterGrowth(start: MapItem, comparisons: array<int>, length: nat,
                          ghost top: MapItem, ghost c0: ItemCtx, ghost t0: ItemTree, ghost h0: nat)
    returns (ghost r: ItemTree)
    requires At(top, c0, t0) && !c0.Top? && start == c0.item && Grown(c0, t0, h0)
    requires length <= comparisons.Length && comparisons[..length] == Turns(c0)
    modifies Zone(top, c0, t0)`left, Zone(top, c0, t0)`right, Zone(top, c0, t0)`parent, Zone(top, c0, t0)`balance
    ensures At(top, Top, r) && Items(r) == Zone(top, c0, t0) - {top}
    ensures Balanced(r) && InOrder(r) == InOrder(Plug(c0, t0))
  {
    var cur, depth, taller := start, length, true;
    ghost var c, t, h := c0, t0, h0;
    hide Holds, AfterGrowth, InOrder, Balanced, Zone;
    while depth > 0 && taller
      invariant At(top, c, t) && Zone(top, c, t) == Zone(top, c0, t0)
      invariant 0 <= depth <= length && comparisons[..depth] == Turns(c) && cur == Above(c, top)
      invariant InOrder(Plug(c, t)) == InOrder(Plug(c0, t0))
      invariant if taller then Grown(c, t, h) else Balanced(t) && BalancedAround(c, Height(t))
      decreases depth
    {
      UpLink(top, c, t);
      var next := cur.parent;
      depth := depth - 1;
      AfterGrowthSettles(c, t, h);
      taller := StepAfterGrowth(cur, comparisons[depth], top, c, t, h);
      SameContents(c.up, Fill(c, t), AfterGrowth(c, t, h).0);
      c, t, h := c.up, AfterGrowth(c, t, h).0, FilledHeight(c, h);
      cur := next;
    }
    assert taller ==> c.Top?;
    r := Plug(c, t);
    ZipUp(top, c, t);
    PlugBalanced(c, t);
    WholeZone(top, r);
  }

  /** What can be read off the nodes above the focus. */
  lemma UpLink(top: MapItem, c: ItemCtx, t: ItemTree)
    ensures At(top, c, t) ==> Above(c, top).isNotRoot == !c.Top?
    ensures At(top, c, t) && !c.Top? ==>
      && c.item.parent == Above(c.up, top)
      && (Above(c.up, top).left == c.item <==> !c.up.InRight?)
      && (Above(c.up, top).right == c.item <==> c.up.InRight?)
  {
    if At(top, c, t) && !c.Top? {
      assert LinkedAround(Snap(Zone(top, c, t)), c.up, c.item, top);
    }
  }

  /** removeItem's loop. */
  method ClimbAfterShrink(start: MapItem, startLeft: bool, ghost top: MapItem, ghost c0: ItemCtx, ghost t0: ItemTree,
      ghost h0: nat)
    returns (ghost r: ItemTree)
    requires At(top, c0, t0) && start == Above(c0, top) && startLeft == !c0.InRight? && Shrunk(c0, t0, h0)
    modifies Zone(top, c0, t0)`left, Zone(top, c0, t0)`right, Zone(top, c0, t0)`parent, Zone(top, c0, t0)`balance
    ensures At(top, Top, r) && Items(r) == Zone(top, c0, t0) - {top}
    ensures Balanced(r) && InOrder(r) == InOrder(Plug(c0, t0))
  {
    var parent, isLeft, shorter := start, startLeft, true;
    ghost var c, t, h := c0, t0, h0;
    hide Holds, AfterShrink, InOrder, Balanced, Zone;
    UpLink(top, c, t);
    while shorter && parent.isNotRoot
      invariant At(top, c, t) && Zone(top, c, t) == Zone(top, c0, t0)
      invariant parent == Above(c, top) && isLeft == !c.InRight? && parent.isNotRoot == !c.Top?
      invariant InOrder(Plug(c, t)) == InOrder(Plug(c0, t0))
      invariant if shorter then Shrunk(c, t, h) else Balanced(t) && BalancedAround(c, Height(t))
      decreases c
    {
      UpLink(top, c, t);
      var next := parent.parent;
      var nextIsLeft := parent == next.left;
      AfterShrinkSettles(c, t, h);
      shorter := StepAfterShrink(parent, isLeft, top, c, t, h);
      SameContents(c.up, Fill(c, t), AfterShrink(c, t, h).0);
      c, t, h := c.up, AfterShrink(c, t, h).0, FilledHeight(c, h);
      parent, isLeft := next, nextIsLeft;
      UpLink(top, c, t);
    }
    r := Plug(c, t);
    ZipUp(top, c, t);
    PlugBalanced(c, t);
    WholeZone(top, r);
  }

  // ------------------------------------------------------------- order of the keys

  ghost predicate Sorted(s: seq<MapItem>) {
    forall i, j :: 0 <= i < j < |s| ==> s[i].key < s[j].key
  }

  lemma {:induction false} ItemsVisited(t: ItemTree)
    ensures forall n :: n in Items(t) <==> n in InOrder(t)
  {
    if t.Node? {
      ItemsVisited(t.left);
      ItemsVisited(t.right);
    }
  }

  lemma RootVisited(c: ItemCtx, t: ItemTree)
    requires t.Node?
    ensures t.item in InOrder(Plug(c, t))
  {
    PlugInOrder(c, t);
  }

  /** The key belongs into the hole of c: everything before is smaller, everything after larger. */
  ghost predicate Between(c: ItemCtx, key: int) {
    (forall n :: n in Before(c) ==> n.key < key) && (forall n :: n in After(c) ==> key < n.key)
  }

  /** In a sorted sequence the neighbours of x on either side are smaller and larger. */
  lemma SortedAround(a: seq<MapItem>, l: seq<MapItem>, x: MapItem, r: seq<MapItem>, b: seq<MapItem>)
    requires Sorted(a + (l + [x] + r) + b)
    ensures forall n :: n in a + l ==> n.key < x.key
    ensures forall n :: n in r + b ==> x.key < n.key
  {
    var s := a + (l + [x] + r) + b;
    var i := |a| + |l|;
    assert s == (a + l) + [x] + (r + b);
    forall j | 0 <= j < |a + l| ensures (a + l)[j].key < x.key {
      assert s[j] == (a + l)[j] && s[i] == x;
    }
    forall j | 0 <= j < |r + b| ensures x.key < (r + b)[j].key {
      assert s[i + 1 + j] == (r + b)[j] && s[i] == x;
    }
  }

  lemma GoLeft(c: ItemCtx, t: ItemTree, key: int)
    requires t.Node? && Sorted(InOrder(Plug(c, t))) && Between(c, key) && key < t.item.key
    ensures Between(InLeft(t.item, t.balance, t.right, c), key)
  {
    PlugInOrder(c, t);
    SortedAround(Before(c), InOrder(t.left), t.item, InOrder(t.right), After(c));
    hide Sorted;
  }

  lemma GoRight(c: ItemCtx, t: ItemTree, key: int)
    requires t.Node? && Sorted(InOrder(Plug(c, t))) && Between(c, key) && t.item.key < key
    ensures Between(InRight(t.left, t.item, t.balance, c), key)
  {
    PlugInOrder(c, t);
    SortedAround(Before(c), InOrder(t.left), t.item, InOrder(t.right), After(c));
    hide Sorted;
  }

  /** A key that belongs into an empty hole is not in the tree. */
  lemma NotBetween(c: ItemCtx, key: int)
    requires Between(c, key)
    ensures forall n :: n in InOrder(Plug(c, Leaf)) ==> n.key != key
  {
    PlugInOrder(c, Leaf);
  }

  lemma Empty(t: ItemTree)
    ensures t.Leaf? <==> InOrder(t) == []
  {
  }

  /** compareKey of two plain keys. */
  function CompareKey(a: int, b: int): (r: int)
    ensures -1 <= r <= 1 && (r < 0 <==> a < b) && (r == 0 <==> a == b)
  {
    if a < b then -1 else if a > b then 1 else 0
  }

  /** Around the hole memory is linked as c says, and the hole holds the given node. */
  ghost predicate Open(top: MapItem, c: ItemCtx, hole: MapItem?)
    reads CtxItems(c), top
  {
    && SepCtx(c) && top !in CtxItems(c) && !top.isNotRoot && top.right == null
    && LinkedAround(Snap(CtxItems(c) + {top}), c, hole, top)
  }

  lemma OpenAt(top: MapItem, c: ItemCtx, t: ItemTree)
    requires At(top, c, t)
    ensures Open(top, c, RootOf(t))
  {
    KeepAround(Snap(Zone(top, c, t)), Snap(CtxItems(c) + {top}), c, RootOf(t), top);
  }

  /** setLeft / setRight of the node above the hole. */
  method FillHole(cur: MapItem, left: bool, child: MapItem?, ghost top: MapItem, ghost c: ItemCtx, ghost hole: MapItem?)
    requires Open(top, c, hole) && cur == Above(c, top) && left == !c.InRight?
    modifies cur`left, cur`right
    ensures Open(top, c, child)
  {
    ghost var m := Snap(CtxItems(c) + {top});
    if left {
      cur.left := child;
    } else {
      cur.right := child;
    }
    RefillAround(m, Snap(CtxItems(c) + {top}), c, hole, child, top);
  }

  /** A filled hole whose content is linked is a whole tree again. */
  lemma CloseAt(top: MapItem, c: ItemCtx, t: ItemTree)
    requires Open(top, c, RootOf(t)) && SepAt(top, c, t) && Linked(Snap(Items(t)), t, Above(c, top))
    ensures At(top, c, t)
  {
    var m := Snap(Zone(top, c, t));
    KeepAround(Snap(CtxItems(c) + {top}), m, c, RootOf(t), top);
    KeepLinked(Snap(Items(t)), m, t, Above(c, top));
  }

  lemma NodeAlone(top: MapItem, c: ItemCtx, node: MapItem)
    requires SepCtx(c) && top !in CtxItems(c) && node != top && node !in CtxItems(c)
    requires node.parent == Above(c, top) && node.left == null && node.right == null
    requires node.balance == Even && node.isNotRoot
    ensures var t := Node(Leaf, node, Even, Leaf);
      SepAt(top, c, t) && Linked(Snap(Items(t)), t, Above(c, top))
  {
    assert Items(Node(Leaf, node, Even, Leaf)) == {node};
  }

  /** A fresh node in the hole, initialized below the node above it. */
  method Settle(node: MapItem, cur: MapItem, ghost top: MapItem, ghost c: ItemCtx)
    requires Open(top, c, node) && cur == Above(c, top) && node != top && node !in CtxItems(c)
    modifies node`left, node`right, node`parent, node`balance, node`isNotRoot
    ensures At(top, c, Node(Leaf, node, Even, Leaf))
  {
    ghost var m := Snap(CtxItems(c) + {top});
    node.Initialize(cur);
    assert Snap(CtxItems(c) + {top}) == m;
    NodeAlone(top, c, node);
    hide At, LinkedAround;
    CloseAt(top, c, Node(Leaf, node, Even, Leaf));
  }

  /** Hangs a fresh node into the empty hole. */
  method HangNew(node: MapItem, cur: MapItem, left: bool, ghost top: MapItem, ghost c: ItemCtx)
    requires At(top, c, Leaf) && cur == Above(c, top) && left == !c.InRight?
    requires node != top && node !in CtxItems(c)
    modifies cur`left, cur`right
    modifies node`left, node`right, node`parent, node`balance, node`isNotRoot
    ensures At(top, c, Node(Leaf, node, Even, Leaf))
  {
    OpenAt(top, c, Leaf);
    hide At, Open;
    FillHole(cur, left, node, top, c, null);
    Settle(node, cur, top, c);
  }

  lemma GraftReady(top: MapItem, tree: ItemTree, c: ItemCtx, node: MapItem)
    requires At(top, Top, tree) && Balanced(tree) && Plug(c, Leaf) == tree
    requires node !in Items(tree) && node != top
    ensures var t := Node(Leaf, node, Even, Leaf);
      && At(top, c, Leaf) && Grown(c, t, 0) && Zone(top, c, t) == Items(tree) + {node, top}
      && node !in CtxItems(c) && top !in Items(tree) && (!c.Top? ==> c.item in Items(tree))
      && InOrder(Plug(c, t)) == Before(c) + [node] + After(c)
  {
    var t := Node(Leaf, node, Even, Leaf);
    ZipUp(top, c, Leaf);
    PlugBalanced(c, Leaf);
    PlugInOrder(c, t);
    PlugInOrder(c, Leaf);
    WholeZone(top, tree);
    assert InOrder(t) == [node] && InOrder<MapItem>(Leaf) == [];
    if !c.Top? {
      assert c.item in Zone(top, c, Leaf);
    }
  }

  lemma InsertSorted(a: seq<MapItem>, node: MapItem, b: seq<MapItem>)
    requires Sorted(a + b) && (forall n :: n in a ==> n.key < node.key) && (forall n :: n in b ==> node.key < n.key)
    ensures Sorted(a + [node] + b) && (a + b)[..|a|] == a && (a + b)[|a|..] == b
  {
    var s, s', k := a + b, a + [node] + b, |a|;
    forall i, j | 0 <= i < j < |s'| ensures s'[i].key < s'[j].key {
      if i == k {
        assert s'[j] == b[j - k - 1];
      } else if j == k {
        assert s'[i] == a[i];
      } else {
        var i', j' := if i < k then i else i - 1, if j < k then j else j - 1;
        assert s'[i] == s[i'];
        assert s'[j] == s[j'];
      }
    }
  }

  /** Putting a node between smaller and larger keys keeps the order. */
  lemma Placed(c: ItemCtx, node: MapItem, s: seq<MapItem>)
    requires s == InOrder(Plug(c, Leaf)) && Sorted(s) && Between(c, node.key)
    ensures Sorted(Before(c) + [node] + After(c))
    ensures forall n :: n in s ==> n.key != node.key
    ensures |Before(c)| <= |s|
    ensures Before(c) + [node] + After(c) == s[..|Before(c)|] + [node] + s[|Before(c)|..]
  {
    PlugInOrder(c, Leaf);
    NotBetween(c, node.key);
    assert s == Before(c) + After(c);
    hide Sorted, Before, After, Plug, InOrder;
    InsertSorted(Before(c), node, After(c));
  }

  /** The place of a node in the tree. */
  lemma {:induction false} Locate(c0: ItemCtx, t0: ItemTree, node: MapItem) returns (c: ItemCtx, t: ItemTree)
    requires node in Items(t0)
    ensures Plug(c, t) == Plug(c0, t0) && t.Node? && t.item == node
    decreases t0
  {
    if node == t0.item {
      c, t := c0, t0;
    } else if node in Items(t0.left) {
      c, t := Locate(InLeft(t0.item, t0.balance, t0.right, c0), t0.left, node);
    } else {
      c, t := Locate(InRight(t0.left, t0.item, t0.balance, c0), t0.right, node);
    }
  }

  /** s' is s without its element node. */
  ghost predicate Dropped(s: seq<MapItem>, s': seq<MapItem>, node: MapItem) {
    exists i :: 0 <= i < |s| && s[i] == node && s' == s[..i] + s[i + 1..]
  }

  lemma DropSorted(s: seq<MapItem>, s': seq<MapItem>, node: MapItem)
    requires Sorted(s) && Dropped(s, s', node)
    ensures Sorted(s')
  {
    var k :| 0 <= k < |s| && s[k] == node && s' == s[..k] + s[k + 1..];
    forall i, j | 0 <= i < j < |s'| ensures s'[i].key < s'[j].key {
      DroppedAt(s, k, i);
      DroppedAt(s, k, j);
    }
  }

  lemma DroppedAt(s: seq<MapItem>, k: nat, i: nat)
    requires k < |s| && i < |s| - 1
    ensures (s[..k] + s[k + 1..])[i] == s[if i < k then i else i + 1]
  {
  }

  lemma DropMiddle(a: seq<MapItem>, l: seq<MapItem>, node: MapItem, r: seq<MapItem>, b: seq<MapItem>)
    ensures Dropped(a + (l + [node] + r) + b, a + (l + r) + b, node)
  {
    var s := a + (l + [node] + r) + b;
    var i := |a| + |l|;
    assert s[i] == node && s[..i] == a + l && s[i + 1..] == r + b;
  }

  /** Removing a node with one child at most: what is missing, and how the heights stand. */
  lemma DropDirect(c: ItemCtx, t: ItemTree)
    requires HalfEmpty(t)
    ensures Dropped(InOrder(Plug(c, t)), InOrder(Plug(c, OnlyChild(t))), t.item)
  {
    PlugInOrder(c, t);
    PlugInOrder(c, OnlyChild(t));
    DropMiddle(Before(c), InOrder(t.left), t.item, InOrder(t.right), After(c));
    assert InOrder(OnlyChild(t)) == InOrder(t.left) + InOrder(t.right);
  }

  lemma ShrinkDirect(c: ItemCtx, t: ItemTree)
    requires HalfEmpty(t) && Balanced(Plug(c, t))
    ensures Shrunk(c, OnlyChild(t), Height(t))
  {
    PlugBalanced(c, t);
  }

  /** The same for a node with two children, after it traded places with its predecessor. */
  lemma DropExchanged(c: ItemCtx, t: ItemTree, p: ItemCtx, u: ItemTree)
    requires TwoSided(t, p, u)
    ensures Dropped(InOrder(Plug(c, t)), InOrder(Plug(NewCtx(c, t, p, u), OnlyChild(NewFocus(t, u)))), t.item)
  {
    var c1 := InLeft(u.item, t.balance, t.right, c);
    PlugInOrder(c, t);
    PlugInOrder(p, u);
    PlugInOrder(NewCtx(c, t, p, u), u.left);
    AppendOrder(p, c1);
    assert InOrder(u) == InOrder(u.left) + [u.item];
    DropPrevious(Before(c), Before(p), InOrder(u.left), u.item, t.item, InOrder(t.right), After(c));
    hide Dropped, Plug;
    assert InOrder(t.left) == Before(p) + (InOrder(u.left) + [u.item]);
    assert After(NewCtx(c, t, p, u)) == [u.item] + InOrder(t.right) + After(c);
  }

  lemma DropPrevious(a: seq<MapItem>, b: seq<MapItem>, l: seq<MapItem>, prev: MapItem, node: MapItem, r: seq<MapItem>,
      d: seq<MapItem>)
    ensures Dropped(a + (b + (l + [prev]) + [node] + r) + d, (a + b) + l + ([prev] + r + d), node)
  {
    var s := a + (b + (l + [prev]) + [node] + r) + d;
    var i := |a| + |b| + |l| + 1;
    assert s[i] == node && s[..i] == a + b + l + [prev] && s[i + 1..] == r + d;
  }

  lemma ShrinkExchanged(c: ItemCtx, t: ItemTree, p: ItemCtx, u: ItemTree)
    requires TwoSided(t, p, u) && Balanced(Plug(c, t))
    ensures HalfEmpty(NewFocus(t, u))
    ensures Shrunk(NewCtx(c, t, p, u), OnlyChild(NewFocus(t, u)), Height(u))
  {
    PlugBalanced(c, t);
    PlugBalanced(p, u);
    HeightOfPlug(p, u);
    AppendBalanced(p, InLeft(u.item, t.balance, t.right, c), Height(u));
    hide Plug, HeightThrough, Append;
    assert Balanced(u) && Height(u) == 1 + Height(u.left);
  }

  // ------------------------------------------------------------------ visiting order

  /** The item after, or before, the one at index i; null at either end. */
  ghost function ItemAt(s: seq<MapItem>, i: int): MapItem? {
    if 0 <= i < |s| then s[i] else null
  }

  lemma Neighbours(a: seq<MapItem>, l: seq<MapItem>, x: MapItem, r: seq<MapItem>, b: seq<MapItem>)
    ensures var s, i := a + (l + [x] + r) + b, |a| + |l|;
      && i < |s| && s[i] == x && |s| == i + 1 + |r| + |b|
      && (r == [] ==> ItemAt(s, i + 1) == ItemAt(b, 0))
      && (l == [] ==> ItemAt(s, i - 1) == ItemAt(a, |a| - 1))
  {
  }

  lemma NodeInOrder(t: ItemTree)
    requires t.Node?
    ensures InOrder(t) == InOrder(t.left) + [t.item] + InOrder(t.right)
    ensures (t.right.Leaf? ==> InOrder(t.right) == []) && (t.left.Leaf? ==> InOrder(t.left) == [])
  {
  }

  /** Where the focus stands in the visiting order. */
  lemma {:induction false} Position(c: ItemCtx, t: ItemTree)
    requires t.Node?
    ensures var s, i := InOrder(Plug(c, t)), |Before(c)| + |InOrder(t.left)|;
      && i < |s| && s[i] == t.item && |s| == i + 1 + |InOrder(t.right)| + |After(c)|
      && (t.right.Leaf? ==> ItemAt(s, i + 1) == ItemAt(After(c), 0))
      && (t.left.Leaf? ==> ItemAt(s, i - 1) == ItemAt(Before(c), |Before(c)| - 1))
  {
    hide ItemAt, Plug, Before, After, InOrder;
    PlugInOrder(c, t);
    NodeInOrder(t);
    Neighbours(Before(c), InOrder(t.left), t.item, InOrder(t.right), After(c));
  }

  /** The place of a node, in the tree and in the visiting order. */
  lemma {:induction false} FindPlace(top: MapItem, tree: ItemTree, node: MapItem)
    returns (c: ItemCtx, t: ItemTree, k: nat)
    requires node in Items(tree)
    ensures Plug(c, t) == tree && t.Node? && t.item == node
    ensures At(top, Top, tree) ==>
      At(top, c, t) && node.left == RootOf(t.left) && node.right == RootOf(t.right)
    ensures var s := InOrder(tree);
      && k == |Before(c)| + |InOrder(t.left)| < |s| && s[k] == node && |s| == k + 1 + |InOrder(t.right)| + |After(c)|
      && (t.right.Leaf? ==> ItemAt(s, k + 1) == ItemAt(After(c), 0))
      && (t.left.Leaf? ==> ItemAt(s, k - 1) == ItemAt(Before(c), |Before(c)| - 1))
  {
    c, t := Locate(Top, tree, node);
    k := |Before(c)| + |InOrder(t.left)|;
    ZipUp(top, c, t);
    LookAt(top, c, t);
    Position(c, t);
    hide At, ItemAt, InOrder;
    assert Plug(c, t) == tree;
  }

  /** An item has one place only, so its neighbour is determined. */
  lemma OnlyPlace(s: seq<MapItem>, k: int, d: int)
    requires Sorted(s) && 0 <= k < |s|
    ensures forall i :: 0 <= i < |s| && s[i] == s[k] ==> ItemAt(s, i + d) == ItemAt(s, k + d)
  {
  }

  // ------------------------------------------------------------------- the walk down

  /** insert's first loop has come from the root of tree to t, by the recorded turns. */
  ghost predicate Tracked(tree: ItemTree, c: ItemCtx, t: ItemTree, key: int, turns: seq<int>) {
    && Plug(c, t) == tree && Sorted(InOrder(tree)) && Between(c, key)
    && |turns| + Height(t) <= Height(tree) && turns == Turns(c)
  }

  lemma Untracked(tree: ItemTree, key: int)
    requires Sorted(InOrder(tree))
    ensures Tracked(tree, Top, tree, key, [])
  {
    hide InOrder, Sorted;
  }

  /** There is room to record one more turn. */
  lemma TrackedDepth(tree: ItemTree, c: ItemCtx, t: ItemTree, key: int, turns: seq<int>)
    requires Tracked(tree, c, t, key, turns) && t.Node?
    ensures |turns| < Height(tree)
  {
    hide InOrder, Sorted, Between, Plug, Turns;
  }

  lemma TrackLeft(tree: ItemTree, c: ItemCtx, t: ItemTree, key: int, turns: seq<int>)
    requires Tracked(tree, c, t, key, turns) && t.Node? && key < t.item.key
    ensures Tracked(tree, InLeft(t.item, t.balance, t.right, c), t.left, key, turns + [1])
  {
    hide InOrder, Sorted, Between;
    GoLeft(c, t, key);
  }

  lemma TrackRight(tree: ItemTree, c: ItemCtx, t: ItemTree, key: int, turns: seq<int>)
    requires Tracked(tree, c, t, key, turns) && t.Node? && key > t.item.key
    ensures Tracked(tree, InRight(t.left, t.item, t.balance, c), t.right, key, turns + [-1])
  {
    hide InOrder, Sorted, Between;
    GoRight(c, t, key);
  }

  lemma TrackedItem(tree: ItemTree, c: ItemCtx, t: ItemTree, key: int, turns: seq<int>)
    requires Tracked(tree, c, t, key, turns) && t.Node?
    ensures t.item in InOrder(tree)
  {
    hide InOrder, Sorted, Between;
    RootVisited(c, t);
  }

  lemma TrackEnds(tree: ItemTree, c: ItemCtx, key: int, turns: seq<int>)
    requires Tracked(tree, c, Leaf, key, turns) && !c.Top?
    ensures Plug(c, Leaf) == tree && Between(c, key) && 0 < |turns| && turns == Turns(c)
  {
    hide InOrder, Sorted, Between, Plug, Height;
  }

  // ----------------------------------------------------------------------- the tree

  /** OPTION_CPL_CONTAINER_AVLTREE_MAX_TREE_DEPTH: the length of insert's record of turns. */
  const MAX_TREE_DEPTH: nat := 32

  class AvlTree {
    const root: MapItem
    ghost var tree: ItemTree
    ghost var items: set<MapItem>

    ghost function Contents(): seq<MapItem>
      reads this
    {
      InOrder(tree)
    }

    /** Well formed: linked both ways, flags true, keys in order, and every item marked as ours. */
    ghost predicate Valid()
      reads this, root, items
    {
      && items == Items(tree)
      && At(root, Top, tree) && Balanced(tree) && Sorted(Contents())
      && forall n :: n in items ==> n.container == this
    }

    constructor ()
      ensures Valid() && Contents() == [] && fresh(root)
    {
      var r := new MapItem(0);
      r.isNotRoot := false;
      root := r;
      tree := Leaf;
      items := {};
    }

    /** insert's first loop: finds the node that takes the new one as a child, and records the turns. */
    method Descend(key: int, comparisons: array<int>)
      returns (duplicate: bool, cur: MapItem, depth: nat, ghost c: ItemCtx)
      requires Valid() && tree.Node? && Height(tree) <= comparisons.Length
      modifies comparisons
      ensures duplicate ==> cur in Contents() && cur.key == key
      ensures !duplicate ==>
        && !c.Top? && cur == c.item && Plug(c, Leaf) == tree && Between(c, key)
        && 0 < depth <= comparisons.Length && comparisons[..depth] == Turns(c)
    {
      hide At, Between, Sorted, InOrder, Balanced, Items, Tracked, Height, Turns, Plug;
      LookAt(root, Top, tree);
      cur, depth, duplicate, c := root.left, 0, false, Top;
      ghost var t := tree;
      Untracked(tree, key);
      var done := false;
      while !done
        invariant At(root, c, t) && depth <= comparisons.Length && Tracked(tree, c, t, key, comparisons[..depth])
        invariant if done then t.Leaf? && !c.Top? && cur == c.item else t.Node? && cur == t.item
        decreases t, !done
      {
        LookAt(root, c, t);
        TrackedDepth(tree, c, t, key, comparisons[..depth]);
        var comparison := CompareKey(cur.key, key);
        comparisons[depth] := comparison;
        depth := depth + 1;
        assert comparisons[..depth] == comparisons[..depth - 1] + [comparison];
        if comparison > 0 {
          TrackLeft(tree, c, t, key, comparisons[..depth - 1]);
          DownLeftAt(root, c, t);
          c, t := InLeft(cur, t.balance, t.right, c), t.left;
          if cur.left == null { done := true; } else { cur := cur.left; }
        } else if comparison < 0 {
          TrackRight(tree, c, t, key, comparisons[..depth - 1]);
          DownRightAt(root, c, t);
          c, t := InRight(t.left, cur, t.balance, c), t.right;
          if cur.right == null { done := true; } else { cur := cur.right; }
        } else {
          TrackedItem(tree, c, t, key, comparisons[..depth - 1]);
          duplicate := true;
          return;
        }
      }
      TrackEnds(tree, c, key, comparisons[..depth]);
    }

    /** The last turn says on which side. */
    lemma LastTurn(c: ItemCtx, turns: seq<int>)
      requires !c.Top? && turns == Turns(c)
      ensures |turns| > 0 && (turns[|turns| - 1] > 0 <==> !c.InRight?)
    {
    }

    /** Hangs the new node under cur, which Descend found, and climbs back up. */
    method Graft(node: MapItem, cur: MapItem, comparisons: array<int>, depth: nat, ghost c: ItemCtx)
      returns (ghost r: ItemTree)
      requires At(root, Top, tree) && Balanced(tree) && items == Items(tree)
      requires !c.Top? && cur == c.item && Plug(c, Leaf) == tree && node !in items && node != root
      requires 0 < depth <= comparisons.Length && comparisons[..depth] == Turns(c)
      modifies (items + {root, node})`left, (items + {root, node})`right, (items + {root, node})`parent
      modifies (items + {root, node})`balance, node`isNotRoot
      ensures At(root, Top, r) && Balanced(r)
      ensures InOrder(r) == Before(c) + [node] + After(c) && Items(r) == items + {node}
    {
      hide At, InOrder, Balanced, Grown, Items, Turns, Sorted, CtxItems, Plug, Zone, Before, After;
      var left := comparisons[depth - 1] > 0;
      LastTurn(c, comparisons[..depth]);
      GraftReady(root, tree, c, node);
      HangNew(node, cur, left, root, c);
      r := ClimbAfterGrowth(cur, comparisons, depth, root, c, Node(Leaf, node, Even, Leaf), 0);
    }

    /** The empty-tree branch of insert. */
    method InsertFirst(node: MapItem)
      requires Valid() && tree.Leaf? && node.container == null && node != root
      modifies this`tree, this`items, root, node
      ensures Valid() && Contents() == [node] && items == {node}
    {
      HangNew(node, root, true, root, Top);
      node.container := this;
      hide Holds;
      tree, items := Node(Leaf, node, Even, Leaf), {node};
    }

    /** The rest of insert, once the place is known. */
    method InsertBelow(node: MapItem, cur: MapItem, comparisons: array<int>, depth: nat, ghost c: ItemCtx)
      requires Valid() && !c.Top? && cur == c.item && Plug(c, Leaf) == tree
      requires Sorted(Before(c) + [node] + After(c))
      requires node.container == null && node != root
      requires 0 < depth <= comparisons.Length && comparisons[..depth] == Turns(c)
      modifies this`tree, this`items, root, items, node
      ensures Valid() && items == old(items) + {node} && Contents() == Before(c) + [node] + After(c)
    {
      hide At, InOrder, Balanced, Sorted;
      ghost var r := Graft(node, cur, comparisons, depth, c);
      node.container := this;
      tree, items := r, items + {node};
    }

    /** Inserts a free item. Below CAPACITY items every access to the record of turns is in range. */
    method Insert(node: MapItem) returns (inserted: bool)
      requires Valid() && node.container == null && node != root && |Contents()| < CAPACITY
      modifies this`tree, this`items, root, items, node
      ensures Valid()
      ensures inserted <==> forall n :: n in old(Contents()) ==> n.key != node.key
      ensures !inserted ==> unchanged(this, root, old(items), node)
      ensures inserted ==> items == old(items) + {node}
      ensures inserted ==>
        exists i :: 0 <= i <= |old(Contents())| && Contents() == old(Contents()[..i]) + [node] + old(Contents()[i..])
    {
      ghost var s := Contents();
      HeightLimit(tree);
      LookAt(root, Top, tree);
      hide At, Balanced, Sorted, Height;
      if root.left == null {
        InsertFirst(node);
        assert s == [] && Contents() == s[..0] + [node] + s[0..];
        return true;
      }
      var comparisons := new int[MAX_TREE_DEPTH];
      var duplicate, cur, depth;
      ghost var c;
      duplicate, cur, depth, c := Descend(node.key, comparisons);
      if duplicate {
        return false;
      }
      Placed(c, node, s);
      InsertBelow(node, cur, comparisons, depth, c);
      return true;
    }

    /** Takes the node at the focus out of the tree, once it has one child at most. */
    method TakeOut(node: MapItem, ghost c: ItemCtx, ghost t: ItemTree, ghost h: nat) returns (ghost r: ItemTree)
      requires At(root, c, t) && HalfEmpty(t) && t.item == node && Shrunk(c, OnlyChild(t), h)
      modifies Zone(root, c, t)`left, Zone(root, c, t)`right, Zone(root, c, t)`parent, Zone(root, c, t)`balance
      ensures At(root, Top, r) && Balanced(r) && InOrder(r) == InOrder(Plug(c, OnlyChild(t)))
      ensures Items(r) == Zone(root, c, t) - {root, node}
    {
      hide At, Balanced, InOrder, Shrunk, Items, Plug;
      var parent, isLeft := Unlink(node, root, c, t);
      r := ClimbAfterShrink(parent, isLeft, root, c, OnlyChild(t), h);
    }

    /** removeItem for a node with two children: exchange, unlink, climb. */
    method TakeOutInner(node: MapItem, ghost c: ItemCtx, ghost t: ItemTree) returns (ghost r: ItemTree)
      requires At(root, c, t) && t.Node? && t.item == node && t.left.Node? && t.right.Node? && Balanced(Plug(c, t))
      modifies Zone(root, c, t)`left, Zone(root, c, t)`right, Zone(root, c, t)`parent, Zone(root, c, t)`balance
      ensures At(root, Top, r) && Balanced(r) && Dropped(InOrder(Plug(c, t)), InOrder(r), node)
      ensures Items(r) == Zone(root, c, t) - {root, node}
    {
      hide At, Balanced, InOrder, Shrunk, Items, Plug, Dropped, Zone;
      ghost var p, u := ExchangeWithPrev(node, root, c, t);
      ShrinkExchanged(c, t, p, u);
      DropExchanged(c, t, p, u);
      r := TakeOut(node, NewCtx(c, t, p, u), NewFocus(t, u), Height(u));
    }

    /** The links and flags of removeItem. */
    method Extract(node: MapItem) returns (ghost r: ItemTree)
      requires Valid() && node in items
      modifies (items + {root})`left, (items + {root})`right, (items + {root})`parent, (items + {root})`balance
      ensures At(root, Top, r) && Balanced(r) && Dropped(Contents(), InOrder(r), node) && Sorted(InOrder(r))
      ensures Items(r) == items - {node} && node !in Zone(root, Top, r)
    {
      hide Balanced, InOrder, Dropped, Sorted, Height, At, Items;
      ghost var c, t := Place(node);
      if node.left != null && node.right != null {
        r := TakeOutInner(node, c, t);
      } else {
        ShrinkDirect(c, t);
        DropDirect(c, t);
        r := TakeOut(node, c, t, Height(t));
      }
      DropSorted(InOrder(tree), InOrder(r), node);
      WholeZone(root, r);
    }

    /** The place of a node in this tree. */
    lemma Place(node: MapItem) returns (c: ItemCtx, t: ItemTree)
      requires items == Items(tree) && At(root, Top, tree) && node in items
      ensures Plug(c, t) == tree && t.Node? && t.item == node && At(root, c, t) && Zone(root, c, t) == items + {root}
      ensures node.left == RootOf(t.left) && node.right == RootOf(t.right) && root !in items
    {
      hide Balanced, InOrder, Sorted;
      c, t := Locate(Top, tree, node);
      ZipUp(root, c, t);
      LookAt(root, c, t);
      WholeZone(root, tree);
      hide Items;
      assert Plug(c, t) == tree;
    }

    /** removeItem for a node of this tree. */
    method Discard(node: MapItem)
      requires Valid() && node in items
      modifies this`tree, this`items, root, items
      ensures Valid() && items == old(items) - {node} && Dropped(old(Contents()), Contents(), node)
      ensures node.container == null && CellOf(node) == Cell(null, null, null, Even, true)
    {
      hide At, Balanced, InOrder, Sorted, Dropped;
      ghost var r := Extract(node);
      Clear(node);
      tree, items := r, items - {node};
    }

    /** Removes an item that carries this tree's mark; the mark is only ever set by the tree
        that holds the item. Any other item is left alone. */
    method Remove(node: MapItem) returns (removed: MapItem?)
      requires Valid() && (node.container == this ==> node in items)
      modifies this`tree, this`items, root, items
      ensures Valid()
      ensures old(node.container) != this ==> removed == null && unchanged(this, root, old(items))
      ensures old(node.container) == this ==>
        && removed == node && items == old(items) - {node} && Dropped(old(Contents()), Contents(), node)
        && node.container == null && CellOf(node) == Cell(null, null, null, Even, true)
    {
      if node.container != this {
        return null;
      }
      Discard(node);
      return node;
    }

    // ----------------------------------------------------------------- read-only

    /** The item with the given key, if there is one. */
    method Find(key: int) returns (found: MapItem?)
      requires Valid()
      ensures found != null ==> found in Contents() && found.key == key
      ensures found == null ==> forall n :: n in Contents() ==> n.key != key
    {
      found := root.left;
      ghost var c, t := Top, tree;
      LookAt(root, c, t);
      assert Between(c, key);
      hide At, Between, Sorted, InOrder, Balanced;
      while found != null
        invariant At(root, c, t) && Plug(c, t) == tree && found == RootOf(t) && Between(c, key)
        decreases t
      {
        LookAt(root, c, t);
        var comparison := CompareKey(found.key, key);
        if comparison > 0 {
          GoLeft(c, t, key);
          DownLeftAt(root, c, t);
          found := found.left;
          c, t := InLeft(t.item, t.balance, t.right, c), t.left;
        } else if comparison == 0 {
          RootVisited(c, t);
          return;
        } else {
          GoRight(c, t, key);
          DownRightAt(root, c, t);
          found := found.right;
          c, t := InRight(t.left, t.item, t.balance, c), t.right;
        }
      }
      NotBetween(c, key);
    }

    /** The leftmost node below the focus. */
    method Leftmost(start: MapItem, ghost c0: ItemCtx, ghost t0: ItemTree) returns (node: MapItem)
      requires At(root, c0, t0) && t0.Node? && start == t0.item
      ensures node == ItemAt(InOrder(Plug(c0, t0)), |Before(c0)|)
    {
      node := start;
      ghost var c, t := c0, t0;
      LookAt(root, c, t);
      hide At, InOrder;
      while node.left != null
        invariant At(root, c, t) && Plug(c, t) == Plug(c0, t0) && t.Node? && node == t.item
        invariant Before(c) == Before(c0) && node.left == RootOf(t.left)
        decreases t
      {
        DownLeftAt(root, c, t);
        node := node.left;
        c, t := InLeft(t.item, t.balance, t.right, c), t.left;
        LookAt(root, c, t);
      }
      Position(c, t);
      assert |InOrder(t.left)| == 0 by { Empty(t.left); }
    }

    /** The rightmost node below the focus. */
    method Rightmost(start: MapItem, ghost c0: ItemCtx, ghost t0: ItemTree) returns (node: MapItem)
      requires At(root, c0, t0) && t0.Node? && start == t0.item
      ensures node == ItemAt(InOrder(Plug(c0, t0)), |InOrder(Plug(c0, t0))| - 1 - |After(c0)|)
    {
      node := start;
      ghost var c, t := c0, t0;
      LookAt(root, c, t);
      hide At;
      while node.right != null
        invariant At(root, c, t) && Plug(c, t) == Plug(c0, t0) && t.Node? && node == t.item
        invariant After(c) == After(c0) && node.right == RootOf(t.right)
        decreases t
      {
        DownRightAt(root, c, t);
        node := node.right;
        c, t := InRight(t.left, t.item, t.balance, c), t.right;
        LookAt(root, c, t);
      }
      PlugInOrder(c, t);
    }

    /** The first item in key order. */
    method First() returns (node: MapItem?)
      requires Valid()
      ensures node == ItemAt(Contents(), 0)
    {
      LookAt(root, Top, tree);
      node := root.left;
      hide At;
      if node != null {
        node := Leftmost(node, Top, tree);
      }
    }

    /** The last item in key order. */
    method Last() returns (node: MapItem?)
      requires Valid()
      ensures node == ItemAt(Contents(), |Contents()| - 1)
    {
      LookAt(root, Top, tree);
      node := root.left;
      hide At;
      if node != null {
        node := Rightmost(node, Top, tree);
      }
    }

    /** The item after node in key order, or null after the last. */
    method Next(node: MapItem) returns (next: MapItem?)
      requires Valid() && node in items
      ensures forall i :: 0 <= i < |Contents()| && Contents()[i] == node ==> next == ItemAt(Contents(), i + 1)
    {
      hide At, InOrder, Sorted, Balanced, Items, Plug, Before, After, ItemAt;
      ghost var c, t, k := FindPlace(root, tree, node);
      next := NextFrom(node, c, t);
      OnlyPlace(Contents(), k, 1);
    }

    method NextFrom(node: MapItem, ghost c: ItemCtx, ghost t: ItemTree) returns (next: MapItem?)
      requires At(root, c, t) && t.Node? && t.item == node
      ensures next == ItemAt(InOrder(Plug(c, t)), |Before(c)| + |InOrder(t.left)| + 1)
    {
      LookAt(root, c, t);
      Position(c, t);
      hide At, InOrder;
      if node.right != null {
        DownRightAt(root, c, t);
        next := Leftmost(node.right, InRight(t.left, node, t.balance, c), t.right);
      } else {
        next := AfterUp(node, c, t);
      }
    }

    /** The climbing branch of next: node has no right child. */
    method AfterUp(node: MapItem, ghost c0: ItemCtx, ghost t0: ItemTree) returns (next: MapItem?)
      requires At(root, c0, t0) && t0.Node? && t0.item == node
      ensures next == ItemAt(After(c0), 0)
    {
      next := null;
      LookAt(root, c0, t0);
      UpLink(root, c0, t0);
      HoleLink(root, c0, t0);
      if node.parent.left == node {
        if node.parent.isNotRoot {
          next := node.parent;
        }
      } else if node.parent.right == node {
        var parent := node.parent;
        ghost var c, t := c0, t0;
        hide At, InOrder;
        while parent.isNotRoot && parent.parent.right == parent
          invariant At(root, c, t) && c.InRight? && parent == c.item && After(c) == After(c0)
          invariant parent.parent == Above(c.up, root)
          decreases c
        {
          UpLink(root, c, t);
          UpAt(root, c, t);
          t, c := Fill(c, t), c.up;
          parent := parent.parent;
          UpLink(root, c, t);
        }
        UpLink(root, c, t);
        UpAt(root, c, t);
        UpLink(root, c.up, Fill(c, t));
        if parent.parent.isNotRoot {
          next := parent.parent;
        }
      }
    }

    /** The item before node in key order, or null before the first. */
    method Previous(node: MapItem) returns (previous: MapItem?)
      requires Valid() && node in items
      ensures forall i :: 0 <= i < |Contents()| && Contents()[i] == node ==> previous == ItemAt(Contents(), i - 1)
    {
      hide At, InOrder, Sorted, Balanced, Items, Plug, Before, After, ItemAt;
      ghost var c, t, k := FindPlace(root, tree, node);
      previous := PreviousFrom(node, c, t);
      OnlyPlace(Contents(), k, -1);
    }

    lemma AfterDown(c: ItemCtx, t: ItemTree)
      requires t.Node?
      ensures Plug(InLeft(t.item, t.balance, t.right, c), t.left) == Plug(c, t)
      ensures |After(InLeft(t.item, t.balance, t.right, c))| == 1 + |InOrder(t.right)| + |After(c)|
    {
      hide InOrder;
    }

    method PreviousFrom(node: MapItem, ghost c: ItemCtx, ghost t: ItemTree) returns (previous: MapItem?)
      requires At(root, c, t) && t.Node? && t.item == node
      ensures previous == ItemAt(InOrder(Plug(c, t)), |Before(c)| + |InOrder(t.left)| - 1)
    {
      LookAt(root, c, t);
      Position(c, t);
      hide At, InOrder;
      if node.left != null {
        DownLeftAt(root, c, t);
        AfterDown(c, t);
        hide Plug, After;
        previous := Rightmost(node.left, InLeft(node, t.balance, t.right, c), t.left);
      } else {
        previous := BeforeUp(node, c, t);
      }
    }

    /** The climbing branch of previous: node has no left child. */
    method BeforeUp(node: MapItem, ghost c0: ItemCtx, ghost t0: ItemTree) returns (previous: MapItem?)
      requires At(root, c0, t0) && t0.Node? && t0.item == node
      ensures previous == ItemAt(Before(c0), |Before(c0)| - 1)
    {
      previous := null;
      LookAt(root, c0, t0);
      UpLink(root, c0, t0);
      HoleLink(root, c0, t0);
      if node.parent.right == node {
        previous := node.parent;
      } else if node.parent.left == node {
        var parent := node.parent;
        ghost var c, t := c0, t0;
        hide At, InOrder;
        while parent.isNotRoot && parent.parent.left == parent
          invariant At(root, c, t) && !c.InRight? && parent == Above(c, root) && Before(c) == Before(c0)
          invariant parent.isNotRoot == !c.Top? && (!c.Top? ==> parent.parent == Above(c.up, root))
          decreases c
        {
          UpLink(root, c, t);
          UpAt(root, c, t);
          t, c := Fill(c, t), c.up;
          parent := parent.parent;
          UpLink(root, c, t);
        }
        UpLink(root, c, t);
        if parent.isNotRoot {
          UpAt(root, c, t);
          UpLink(root, c.up, Fill(c, t));
        }
        if parent.isNotRoot && parent.parent.isNotRoot {
          previous := parent.parent;
        }
      }
    }

    /** Visiting the tree as its clients do: every item once, in increasing key order. */
    method Walk() returns (s: seq<MapItem>)
      requires Valid()
      ensures s == Contents() && Sorted(s)
    {
      s := [];
      var node := First();
      ItemsVisited(tree);
      hide At, Items, Balanced;
      while node != null
        invariant |s| <= |Contents()| && s == Contents()[..|s|] && node == ItemAt(Contents(), |s|)
        decreases |Contents()| - |s|
      {
        var next := Next(node);
        s, node := s + [node], next;
      }
    }

    /** Backwards: the same items in the opposite order. */
    method WalkBack() returns (s: seq<MapItem>)
      requires Valid()
      ensures |s| == |Contents()| && forall i :: 0 <= i < |s| ==> s[i] == Contents()[|s| - 1 - i]
    {
      s := [];
      var node := Last();
      ItemsVisited(tree);
      hide At, Items, Balanced, InOrder, Sorted;
      ghost var n := |Contents()|;
      while node != null
        invariant |s| <= n && node == ItemAt(Contents(), n - 1 - |s|)
        invariant forall i :: 0 <= i < |s| ==> s[i] == Contents()[n - 1 - i]
        decreases n - |s|
      {
        var previous := Previous(node);
        s, node := s + [node], previous;
      }
    }

    /** previous undoes next, and next undoes previous. */
    method ThereAndBack(node: MapItem) returns (viaNext: MapItem?, viaPrevious: MapItem?)
      requires Valid() && node in items
      ensures viaNext == (if node == ItemAt(Contents(), |Contents()| - 1) then null else node)
      ensures viaPrevious == (if node == ItemAt(Contents(), 0) then null else node)
    {
      ItemsVisited(tree);
      hide At, Items, Balanced;
      ghost var i :| 0 <= i < |Contents()| && Contents()[i] == node;
      viaNext, viaPrevious := null, null;
      var next := Next(node);
      if next != null {
        viaNext := Previous(next);
      }
      var previous := Previous(node);
      if previous != null {
        viaPrevious := Next(previous);
      }
    }
  }
}
