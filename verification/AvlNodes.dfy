/** The intrusive AVL tree of src/Cpl/Container/AvlTree_.cpp: nodes linked by left,
    right and parent pointers under a sentinel whose left child is the tree. */
module AvlNodes {
  import opened AvlShape

  class MapItem {
    const key: int
    var parent: MapItem?
    var left: MapItem?
    var right: MapItem?
    var balance: Balance
    var isNotRoot: bool
    var container: object?

    constructor (key: int)
      ensures this.key == key && container == null
      ensures parent == null && left == null && right == null && balance == Even && isNotRoot
    {
      this.key := key;
      parent, left, right, balance, isNotRoot, container := null, null, null, Even, true, null;
    }

    /** Called when the node enters or leaves a tree. */
    method Initialize(parent: MapItem?)
      modifies this`parent, this`left, this`right, this`balance, this`isNotRoot
      ensures this.parent == parent && left == null && right == null && balance == Even && isNotRoot
    {
      this.parent, isNotRoot, balance, right, left := parent, true, Even, null, null;
    }
  }

  // ------------------------------------------------------------- representation

  type ItemTree = Tree<MapItem>
  type ItemCtx = Ctx<MapItem>

  ghost function RootOf(t: ItemTree): MapItem? {
    if t.Leaf? then null else t.item
  }

  ghost function Roots(t: ItemTree): set<MapItem> {
    if t.Leaf? then {} else {t.item}
  }

  ghost function Items(t: ItemTree): set<MapItem> {
    match t
    case Leaf => {}
    case Node(l, n, _, r) => Items(l) + {n} + Items(r)
  }

  ghost function CtxItems(c: ItemCtx): set<MapItem> {
    match c
    case Top => {}
    case InLeft(n, _, r, up) => {n} + Items(r) + CtxItems(up)
    case InRight(l, n, _, up) => Items(l) + {n} + CtxItems(up)
  }

  /** No node occurs twice. */
  ghost predicate Sep(t: ItemTree) {
    match t
    case Leaf => true
    case Node(l, n, _, r) => n !in Items(l) && n !in Items(r) && Items(l) !! Items(r) && Sep(l) && Sep(r)
  }

  ghost predicate SepCtx(c: ItemCtx) {
    match c
    case Top => true
    case InLeft(n, _, r, up) =>
      n !in Items(r) && n !in CtxItems(up) && Items(r) !! CtxItems(up) && Sep(r) && SepCtx(up)
    case InRight(l, n, _, up) =>
      n !in Items(l) && n !in CtxItems(up) && Items(l) !! CtxItems(up) && Sep(l) && SepCtx(up)
  }

  /** The links of one node, and the links of a set of nodes. */
  datatype Cell = Cell(left: MapItem?, right: MapItem?, parent: MapItem?, balance: Balance, isNotRoot: bool)

  type Memory = map<MapItem, Cell>

  ghost function CellOf(n: MapItem): Cell
    reads n`left, n`right, n`parent, n`balance, n`isNotRoot
  {
    Cell(n.left, n.right, n.parent, n.balance, n.isNotRoot)
  }

  ghost function Snap(s: set<MapItem>): Memory
    reads s`left, s`right, s`parent, s`balance, s`isNotRoot
  {
    map n | n in s :: CellOf(n)
  }

  ghost predicate Has(m: Memory, n: MapItem, cell: Cell) {
    n in m && m[n] == cell
  }

  /** The nodes of t are linked as t says, hanging below parent. */
  ghost predicate Linked(m: Memory, t: ItemTree, parent: MapItem)
    decreases t
  {
    match t
    case Leaf => true
    case Node(l, n, b, r) =>
      && Has(m, n, Cell(RootOf(l), RootOf(r), parent, b, true))
      && Linked(m, l, n) && Linked(m, r, n)
  }

  /** The node that owns the hole of c; top owns the outermost link. */
  ghost function Above(c: ItemCtx, top: MapItem): MapItem {
    if c.Top? then top else c.item
  }

  /** The nodes of c are linked as c says, with hole in the hole, hanging left below top. */
  ghost predicate LinkedAround(m: Memory, c: ItemCtx, hole: MapItem?, top: MapItem)
    decreases c
  {
    match c
    case Top => top in m && m[top].left == hole
    case InLeft(n, b, r, up) =>
      && Has(m, n, Cell(hole, RootOf(r), Above(up, top), b, true))
      && Linked(m, r, n) && LinkedAround(m, up, n, top)
    case InRight(l, n, b, up) =>
      && Has(m, n, Cell(RootOf(l), hole, Above(up, top), b, true))
      && Linked(m, l, n) && LinkedAround(m, up, n, top)
  }

  ghost predicate SepAt(top: MapItem, c: ItemCtx, t: ItemTree) {
    Sep(t) && SepCtx(c) && Items(t) !! CtxItems(c) && top !in Items(t) && top !in CtxItems(c)
  }

  /** The memory below the sentinel top holds Plug(c, t), seen at the place of t. */
  ghost predicate Holds(m: Memory, top: MapItem, c: ItemCtx, t: ItemTree) {
    && SepAt(top, c, t)
    && top in m && !m[top].isNotRoot && m[top].right == null
    && Linked(m, t, Above(c, top)) && LinkedAround(m, c, RootOf(t), top)
  }

  ghost function Zone(top: MapItem, c: ItemCtx, t: ItemTree): set<MapItem> {
    Items(t) + CtxItems(c) + {top}
  }

  ghost predicate At(top: MapItem, c: ItemCtx, t: ItemTree)
    reads Zone(top, c, t)`left, Zone(top, c, t)`right, Zone(top, c, t)`parent
    reads Zone(top, c, t)`balance, Zone(top, c, t)`isNotRoot
  {
    Holds(Snap(Zone(top, c, t)), top, c, t)
  }

  lemma DownLeft(m: Memory, top: MapItem, c: ItemCtx, t: ItemTree)
    requires t.Node?
    ensures Holds(m, top, c, t) <==> Holds(m, top, InLeft(t.item, t.balance, t.right, c), t.left)
    ensures Zone(top, c, t) == Zone(top, InLeft(t.item, t.balance, t.right, c), t.left)
  {
  }

  lemma DownRight(m: Memory, top: MapItem, c: ItemCtx, t: ItemTree)
    requires t.Node?
    ensures Holds(m, top, c, t) <==> Holds(m, top, InRight(t.left, t.item, t.balance, c), t.right)
    ensures Zone(top, c, t) == Zone(top, InRight(t.left, t.item, t.balance, c), t.right)
  {
  }

  lemma DownLeftAt(top: MapItem, c: ItemCtx, t: ItemTree)
    requires t.Node?
    ensures At(top, c, t) <==> At(top, InLeft(t.item, t.balance, t.right, c), t.left)
    ensures Zone(top, c, t) == Zone(top, InLeft(t.item, t.balance, t.right, c), t.left)
  {
    DownLeft(Snap(Zone(top, c, t)), top, c, t);
  }

  lemma DownRightAt(top: MapItem, c: ItemCtx, t: ItemTree)
    requires t.Node?
    ensures At(top, c, t) <==> At(top, InRight(t.left, t.item, t.balance, c), t.right)
    ensures Zone(top, c, t) == Zone(top, InRight(t.left, t.item, t.balance, c), t.right)
  {
    DownRight(Snap(Zone(top, c, t)), top, c, t);
  }

  /** Two memories give the nodes of s the same links. */
  ghost predicate Same(m: Memory, m': Memory, s: set<MapItem>) {
    forall n :: n in s && n in m ==> n in m' && m'[n] == m[n]
  }

  lemma {:induction false} KeepLinked(m: Memory, m': Memory, t: ItemTree, parent: MapItem)
    requires Linked(m, t, parent) && Same(m, m', Items(t))
    ensures Linked(m', t, parent)
    decreases t
  {
    if t.Node? {
      KeepLinked(m, m', t.left, t.item);
      KeepLinked(m, m', t.right, t.item);
    }
  }

  lemma {:induction false} KeepAround(m: Memory, m': Memory, c: ItemCtx, hole: MapItem?, top: MapItem)
    requires LinkedAround(m, c, hole, top) && Same(m, m', CtxItems(c) + {top})
    ensures LinkedAround(m', c, hole, top)
    decreases c
  {
    match c
    case Top =>
    case InLeft(n, _, r, up) =>
      KeepLinked(m, m', r, n);
      KeepAround(m, m', up, n, top);
    case InRight(l, n, _, up) =>
      KeepLinked(m, m', l, n);
      KeepAround(m, m', up, n, top);
  }

  /** Handing a subtree to a new parent: only its root's parent link changes. */
  lemma Reparent(m: Memory, m': Memory, t: ItemTree, from: MapItem, to: MapItem)
    requires Sep(t) && Linked(m, t, from) && Same(m, m', Items(t) - Roots(t))
    requires t.Node? ==> Has(m', t.item, Cell(RootOf(t.left), RootOf(t.right), to, t.balance, true))
    ensures Linked(m', t, to)
  {
    if t.Node? {
      KeepLinked(m, m', t.left, t.item);
      KeepLinked(m, m', t.right, t.item);
    }
  }

  /** The link that leads from the context into the hole. */
  ghost function Refill(c: ItemCtx, owner: Cell, hole: MapItem?): Cell {
    if c.InRight? then owner.(right := hole) else owner.(left := hole)
  }

  /** Redirecting that link fills the hole with something else. */
  lemma RefillAround(m: Memory, m': Memory, c: ItemCtx, hole: MapItem?, hole': MapItem?, top: MapItem)
    requires LinkedAround(m, c, hole, top) && SepCtx(c) && top !in CtxItems(c)
    requires Same(m, m', CtxItems(c) + {top} - {Above(c, top)})
    requires Above(c, top) in m && Above(c, top) in m'
    requires m'[Above(c, top)] == Refill(c, m[Above(c, top)], hole')
    ensures LinkedAround(m', c, hole', top)
  {
    match c
    case Top =>
    case InLeft(n, _, r, up) =>
      KeepLinked(m, m', r, n);
      KeepAround(m, m', up, n, top);
    case InRight(l, n, _, up) =>
      KeepLinked(m, m', l, n);
      KeepAround(m, m', up, n, top);
  }

  // ------------------------------------------------------------------ rotations

  lemma RotLeftSep(t: ItemTree)
    requires t.Node? && t.right.Node? && Sep(t)
    ensures Sep(RotLeft(t)) && Items(RotLeft(t)) == Items(t)
  {
  }

  lemma RotRightSep(t: ItemTree)
    requires t.Node? && t.left.Node? && Sep(t)
    ensures Sep(RotRight(t)) && Items(RotRight(t)) == Items(t)
  {
  }

  lemma RotLeftFocus(m: Memory, m': Memory, t: ItemTree, p: MapItem)
    requires Sep(t) && t.Node? && t.right.Node? && Linked(m, t, p)
    requires var x, y, mid := t.item, t.right.item, t.right.left;
      && Has(m', x, Cell(RootOf(t.left), RootOf(mid), y, t.balance, true))
      && Has(m', y, Cell(x, RootOf(t.right.right), p, t.right.balance, true))
      && (mid.Node? ==> Has(m', mid.item, Cell(RootOf(mid.left), RootOf(mid.right), x, mid.balance, true)))
      && Same(m, m', Items(t) - {x, y} - Roots(mid))
    ensures Linked(m', RotLeft(t), p)
  {
    var x, y := t.item, t.right.item;
    assert Linked(m, t.right, x);
    Reparent(m, m', t.right.left, y, x);
    KeepLinked(m, m', t.left, x);
    KeepLinked(m, m', t.right.right, y);
    assert Linked(m', RotLeft(t).left, y);
  }

  lemma RotLeftLinks(m: Memory, m': Memory, top: MapItem, c: ItemCtx, t: ItemTree)
    requires Holds(m, top, c, t) && t.Node? && t.right.Node?
    requires var x, y, mid, p := t.item, t.right.item, t.right.left, Above(c, top);
      && Has(m', x, Cell(RootOf(t.left), RootOf(mid), y, t.balance, true))
      && Has(m', y, Cell(x, RootOf(t.right.right), p, t.right.balance, true))
      && (mid.Node? ==> Has(m', mid.item, Cell(RootOf(mid.left), RootOf(mid.right), x, mid.balance, true)))
      && p in m && Has(m', p, Refill(c, m[p], y))
      && Same(m, m', Zone(top, c, t) - {x, y, p} - Roots(mid))
    ensures Holds(m', top, c, RotLeft(t))
  {
    var mid, p := t.right.left, Above(c, top);
    RotLeftSep(t);
    assert {t.item, t.right.item} + Roots(mid) <= Items(t) && p in CtxItems(c) + {top};
    hide Linked;
    RotLeftFocus(m, m', t, p);
    RefillAround(m, m', c, t.item, t.right.item, top);
  }

  lemma RotRightFocus(m: Memory, m': Memory, t: ItemTree, p: MapItem)
    requires Sep(t) && t.Node? && t.left.Node? && Linked(m, t, p)
    requires var x, y, mid := t.item, t.left.item, t.left.right;
      && Has(m', x, Cell(RootOf(mid), RootOf(t.right), y, t.balance, true))
      && Has(m', y, Cell(RootOf(t.left.left), x, p, t.left.balance, true))
      && (mid.Node? ==> Has(m', mid.item, Cell(RootOf(mid.left), RootOf(mid.right), x, mid.balance, true)))
      && Same(m, m', Items(t) - {x, y} - Roots(mid))
    ensures Linked(m', RotRight(t), p)
  {
    var x, y := t.item, t.left.item;
    assert Linked(m, t.left, x);
    Reparent(m, m', t.left.right, y, x);
    KeepLinked(m, m', t.right, x);
    KeepLinked(m, m', t.left.left, y);
    assert Linked(m', RotRight(t).right, y);
  }

  lemma RotRightLinks(m: Memory, m': Memory, top: MapItem, c: ItemCtx, t: ItemTree)
    requires Holds(m, top, c, t) && t.Node? && t.left.Node?
    requires var x, y, mid, p := t.item, t.left.item, t.left.right, Above(c, top);
      && Has(m', x, Cell(RootOf(mid), RootOf(t.right), y, t.balance, true))
      && Has(m', y, Cell(RootOf(t.left.left), x, p, t.left.balance, true))
      && (mid.Node? ==> Has(m', mid.item, Cell(RootOf(mid.left), RootOf(mid.right), x, mid.balance, true)))
      && p in m && Has(m', p, Refill(c, m[p], y))
      && Same(m, m', Zone(top, c, t) - {x, y, p} - Roots(mid))
    ensures Holds(m', top, c, RotRight(t))
  {
    var mid, p := t.left.right, Above(c, top);
    RotRightSep(t);
    assert {t.item, t.left.item} + Roots(mid) <= Items(t) && p in CtxItems(c) + {top};
    hide Linked;
    RotRightFocus(m, m', t, p);
    RefillAround(m, m', c, t.item, t.left.item, top);
  }

  /** rotateLeft: the right child moves up over node, whatever surrounds them. */
  method RotateLeft(node: MapItem) returns (temp: MapItem)
    requires node.right != null && node.parent != null && node !in {node.right, node.parent}
    requires node.right != node.parent && node.right.left !in {node, node.right, node.parent}
    modifies {node, node.right, node.parent}`left, {node, node.right, node.parent}`right
    modifies {node, node.right, node.right.left}`parent
    ensures temp == old(node.right)
    ensures CellOf(node) == old(CellOf(node)).(right := old(node.right.left), parent := temp)
    ensures CellOf(temp) == old(CellOf(node.right)).(left := node, parent := old(node.parent))
    ensures old(node.right.left) != null ==>
      CellOf(old(node.right.left)) == old(CellOf(node.right.left)).(parent := node)
    ensures CellOf(old(node.parent)) ==
      if old(node.parent.left) == node then old(CellOf(node.parent)).(left := temp)
      else old(CellOf(node.parent)).(right := temp)
  {
    temp := node.right;
    node.right := temp.left;
    temp.left := node;
    if node.parent.left == node {
      node.parent.left := temp;
    } else {
      node.parent.right := temp;
    }
    if node.right != null {
      node.right.parent := node;
    }
    temp.parent := node.parent;
    node.parent := temp;
  }

  /** The same, with the tree it happens in. */
  method RotateLeftAt(node: MapItem, ghost top: MapItem, ghost c: ItemCtx, ghost t: ItemTree) returns (temp: MapItem)
    requires At(top, c, t) && t.Node? && t.item == node && t.right.Node?
    modifies Zone(top, c, t)`left, Zone(top, c, t)`right, Zone(top, c, t)`parent
    ensures At(top, c, RotLeft(t)) && temp == t.right.item
    ensures Zone(top, c, RotLeft(t)) == Zone(top, c, t)
  {
    hide Holds, Items, CtxItems, Linked, RotLeft;
    ghost var m := Snap(Zone(top, c, t));
    RotLeftCast(m, top, c, t);
    temp := RotateLeft(node);
    RotLeftLinks(m, Snap(Zone(top, c, t)), top, c, t);
  }

  /** The nodes a left rotation is about, as they are before it. */
  lemma RotLeftCast(m: Memory, top: MapItem, c: ItemCtx, t: ItemTree)
    requires Holds(m, top, c, t) && t.Node? && t.right.Node?
    ensures var x, y, mid, p := t.item, t.right.item, t.right.left, Above(c, top);
      && Has(m, x, Cell(RootOf(t.left), RootOf(t.right), p, t.balance, true))
      && Has(m, y, Cell(RootOf(t.right.left), RootOf(t.right.right), x, t.right.balance, true))
      && (mid.Node? ==> Has(m, mid.item, Cell(RootOf(mid.left), RootOf(mid.right), y, mid.balance, true)))
      && p in m && (m[p].left == x <==> !c.InRight?)
      && x != y && p != x && p != y && (mid.Node? ==> mid.item != x && mid.item != y && mid.item != p)
      && {x, y, p} + Roots(mid) <= Zone(top, c, t)
    ensures Zone(top, c, RotLeft(t)) == Zone(top, c, t)
  {
    RotLeftSep(t);
    assert Linked(m, t.right, t.item) && Linked(m, t.right.left, t.right.item);
    assert {t.item, t.right.item} + Roots(t.right.left) <= Items(t) && Above(c, top) in CtxItems(c) + {top};
  }

  /** rotateRight: the left child moves up over node, whatever surrounds them. */
  method RotateRight(node: MapItem) returns (temp: MapItem)
    requires node.left != null && node.parent != null && node !in {node.left, node.parent}
    requires node.left != node.parent && node.left.right !in {node, node.left, node.parent}
    modifies {node, node.left, node.parent}`right, {node, node.left, node.parent}`left
    modifies {node, node.left, node.left.right}`parent
    ensures temp == old(node.left)
    ensures CellOf(node) == old(CellOf(node)).(left := old(node.left.right), parent := temp)
    ensures CellOf(temp) == old(CellOf(node.left)).(right := node, parent := old(node.parent))
    ensures old(node.left.right) != null ==>
      CellOf(old(node.left.right)) == old(CellOf(node.left.right)).(parent := node)
    ensures CellOf(old(node.parent)) ==
      if old(node.parent.right) == node then old(CellOf(node.parent)).(right := temp)
      else old(CellOf(node.parent)).(left := temp)
  {
    temp := node.left;
    node.left := temp.right;
    temp.right := node;
    if node.parent.right == node {
      node.parent.right := temp;
    } else {
      node.parent.left := temp;
    }
    if node.left != null {
      node.left.parent := node;
    }
    temp.parent := node.parent;
    node.parent := temp;
  }

  /** The same, with the tree it happens in. */
  method RotateRightAt(node: MapItem, ghost top: MapItem, ghost c: ItemCtx, ghost t: ItemTree) returns (temp: MapItem)
    requires At(top, c, t) && t.Node? && t.item == node && t.left.Node?
    modifies Zone(top, c, t)`right, Zone(top, c, t)`left, Zone(top, c, t)`parent
    ensures At(top, c, RotRight(t)) && temp == t.left.item
    ensures Zone(top, c, RotRight(t)) == Zone(top, c, t)
  {
    hide Holds, Items, CtxItems, Linked, RotRight;
    ghost var m := Snap(Zone(top, c, t));
    RotRightCast(m, top, c, t);
    temp := RotateRight(node);
    RotRightLinks(m, Snap(Zone(top, c, t)), top, c, t);
  }

  /** The nodes a right rotation is about, as they are before it. */
  lemma RotRightCast(m: Memory, top: MapItem, c: ItemCtx, t: ItemTree)
    requires Holds(m, top, c, t) && t.Node? && t.left.Node?
    ensures var x, y, mid, p := t.item, t.left.item, t.left.right, Above(c, top);
      && Has(m, x, Cell(RootOf(t.left), RootOf(t.right), p, t.balance, true))
      && Has(m, y, Cell(RootOf(t.left.left), RootOf(t.left.right), x, t.left.balance, true))
      && (mid.Node? ==> Has(m, mid.item, Cell(RootOf(mid.left), RootOf(mid.right), y, mid.balance, true)))
      && p in m && (m[p].right == x <==> c.InRight?)
      && x != y && p != x && p != y && (mid.Node? ==> mid.item != x && mid.item != y && mid.item != p)
      && {x, y, p} + Roots(mid) <= Zone(top, c, t)
    ensures Zone(top, c, RotRight(t)) == Zone(top, c, t)
  {
    RotRightSep(t);
    assert Linked(m, t.left, t.item) && Linked(m, t.left.right, t.left.item);
    assert {t.item, t.left.item} + Roots(t.left.right) <= Items(t) && Above(c, top) in CtxItems(c) + {top};
  }

  // ---------------------------------------------------------------- rebalancing

  lemma SetBalanceLinks(m: Memory, m': Memory, top: MapItem, c: ItemCtx, t: ItemTree, b: Balance)
    requires Holds(m, top, c, t) && t.Node?
    requires Has(m', t.item, Cell(RootOf(t.left), RootOf(t.right), Above(c, top), b, true))
    requires Same(m, m', Zone(top, c, t) - {t.item})
    ensures Holds(m', top, c, t.(balance := b))
  {
    KeepLinked(m, m', t.left, t.item);
    KeepLinked(m, m', t.right, t.item);
    KeepAround(m, m', c, t.item, top);
  }

  /** Stores a balance flag in the node at the focus. */
  method SetBalanceAt(node: MapItem, b: Balance, ghost top: MapItem, ghost c: ItemCtx, ghost t: ItemTree)
    requires At(top, c, t) && t.Node? && t.item == node
    modifies node`balance
    ensures At(top, c, t.(balance := b)) && Zone(top, c, t.(balance := b)) == Zone(top, c, t)
  {
    ghost var m := Snap(Zone(top, c, t));
    node.balance := b;
    assert Zone(top, c, t.(balance := b)) == Zone(top, c, t);
    hide Holds;
    SetBalanceLinks(m, Snap(Zone(top, c, t)), top, c, t, b);
  }



  /** grewLeft: the left subtree of cur, already the higher one, grew by one level.
      An even left child cannot have grown, and the code leaves it alone. */
  method GrewLeft(cur: MapItem, ghost top: MapItem, ghost c: ItemCtx, ghost t: ItemTree) returns (taller: bool)
    requires At(top, c, t) && t.Node? && t.item == cur
    requires t.left.Node? && (t.left.balance.RightHigh? ==> t.left.right.Node?)
    modifies Zone(top, c, t)`left, Zone(top, c, t)`right, Zone(top, c, t)`parent, Zone(top, c, t)`balance
    ensures taller == t.left.balance.Even?
    ensures At(top, c, if taller then t else FixLeft(t))
    ensures Zone(top, c, if taller then t else FixLeft(t)) == Zone(top, c, t)
  {
    taller := true;
    var child := cur.left;
    assert Linked(Snap(Zone(top, c, t)), t.left, cur);
    hide Holds;
    match child.balance {
      case LeftHigh =>
        SetBalancesAt(cur, Even, child, Even, top, c, t);
        var _ := RotateRightAt(cur, top, c, Node(t.left.(balance := Even), cur, Even, t.right));
        taller := false;
      case Even =>
      case RightHigh =>
        DoubleRight(cur, child, top, c, t);
        taller := false;
    }
  }

  /** rightShorter: the right subtree of the left-high node parent lost a level. */
  method RightShorter(parent: MapItem, ghost top: MapItem, ghost c: ItemCtx, ghost t: ItemTree) returns (shorter: bool)
    requires At(top, c, t) && t.Node? && t.item == parent
    requires t.left.Node? && (t.left.balance.RightHigh? ==> t.left.right.Node?)
    modifies Zone(top, c, t)`left, Zone(top, c, t)`right, Zone(top, c, t)`parent, Zone(top, c, t)`balance
    ensures shorter == !t.left.balance.Even?
    ensures At(top, c, FixLeft(t)) && Zone(top, c, FixLeft(t)) == Zone(top, c, t)
  {
    var left := parent.left;
    assert Linked(Snap(Zone(top, c, t)), t.left, parent);
    hide Holds;
    match left.balance {
      case LeftHigh =>
        SetBalancesAt(parent, Even, left, Even, top, c, t);
        var _ := RotateRightAt(parent, top, c, Node(t.left.(balance := Even), parent, Even, t.right));
        shorter := true;
      case Even =>
        SetBalancesAt(parent, LeftHigh, left, RightHigh, top, c, t);
        var _ := RotateRightAt(parent, top, c, Node(t.left.(balance := RightHigh), parent, LeftHigh, t.right));
        shorter := false;
      case RightHigh =>
        DoubleRight(parent, left, top, c, t);
        shorter := true;
    }
  }

  /** The flags of the node at the focus and of its left child. */
  method SetBalancesAt(node: MapItem, b: Balance, child: MapItem, bc: Balance,
                       ghost top: MapItem, ghost c: ItemCtx, ghost t: ItemTree)
    requires At(top, c, t) && t.Node? && t.item == node && t.left.Node? && t.left.item == child
    modifies node`balance, child`balance
    ensures At(top, c, Node(t.left.(balance := bc), node, b, t.right))
    ensures Zone(top, c, Node(t.left.(balance := bc), node, b, t.right)) == Zone(top, c, t)
  {
    hide Holds;
    SetBalanceAt(node, b, top, c, t);
    DownLeftAt(top, c, t.(balance := b));
    SetBalanceAt(child, bc, top, InLeft(node, b, t.right, c), t.left);
    DownLeftAt(top, c, Node(t.left.(balance := bc), node, b, t.right));
  }

  /** The double rotation shared by grewLeft and rightShorter. */
  method DoubleRight(cur: MapItem, child: MapItem, ghost top: MapItem, ghost c: ItemCtx, ghost t: ItemTree)
    requires At(top, c, t) && t.Node? && t.item == cur && t.left.Node? && t.left.item == child
    requires t.left.balance.RightHigh? && t.left.right.Node?
    modifies Zone(top, c, t)`left, Zone(top, c, t)`right, Zone(top, c, t)`parent, Zone(top, c, t)`balance
    ensures At(top, c, FixLeft(t)) && Zone(top, c, FixLeft(t)) == Zone(top, c, t)
  {
    assert Linked(Snap(Zone(top, c, t)), t.left, cur);
    assert Linked(Snap(Zone(top, c, t)), t.left.right, child);
    var grandChild := child.right;
    ghost var l, g := t.left, t.left.right;
    var bl := if grandChild.balance.RightHigh? then LeftHigh else Even;
    var bt := if grandChild.balance.LeftHigh? then RightHigh else Even;
    ghost var c1, l1 := InLeft(cur, bt, t.right, c), l.(balance := bl);
    ghost var l2 := l1.(right := g.(balance := Even));
    assert FixLeft(t) == RotRight(Node(RotLeft(l2), cur, bt, t.right));
    hide Holds, FixLeft;
    SetBalancesAt(cur, bt, child, bl, top, c, t);
    DownLeftAt(top, c, Node(l1, cur, bt, t.right));
    DownRightAt(top, c1, l1);
    SetBalanceAt(grandChild, Even, top, InRight(l.left, child, bl, c1), g);
    DownRightAt(top, c1, l2);
    var _ := RotateLeftAt(child, top, c1, l2);
    DownLeftAt(top, c, Node(RotLeft(l2), cur, bt, t.right));
    var _ := RotateRightAt(cur, top, c, Node(RotLeft(l2), cur, bt, t.right));
  }

  /** grewRight: the right subtree of cur, already the higher one, grew by one level.
      An even right child cannot have grown, and the code leaves it alone. */
  method GrewRight(cur: MapItem, ghost top: MapItem, ghost c: ItemCtx, ghost t: ItemTree) returns (taller: bool)
    requires At(top, c, t) && t.Node? && t.item == cur
    requires t.right.Node? && (t.right.balance.LeftHigh? ==> t.right.left.Node?)
    modifies Zone(top, c, t)`right, Zone(top, c, t)`left, Zone(top, c, t)`parent, Zone(top, c, t)`balance
    ensures taller == t.right.balance.Even?
    ensures At(top, c, if taller then t else FixRight(t))
    ensures Zone(top, c, if taller then t else FixRight(t)) == Zone(top, c, t)
  {
    taller := true;
    var child := cur.right;
    assert Linked(Snap(Zone(top, c, t)), t.right, cur);
    hide Holds;
    match child.balance {
      case RightHigh =>
        SetBalancesRightAt(cur, Even, child, Even, top, c, t);
        var _ := RotateLeftAt(cur, top, c, Node(t.left, cur, Even, t.right.(balance := Even)));
        taller := false;
      case Even =>
      case LeftHigh =>
        DoubleLeft(cur, child, top, c, t);
        taller := false;
    }
  }

  /** leftShorter: the left subtree of the right-high node parent lost a level. */
  method LeftShorter(parent: MapItem, ghost top: MapItem, ghost c: ItemCtx, ghost t: ItemTree) returns (shorter: bool)
    requires At(top, c, t) && t.Node? && t.item == parent
    requires t.right.Node? && (t.right.balance.LeftHigh? ==> t.right.left.Node?)
    modifies Zone(top, c, t)`right, Zone(top, c, t)`left, Zone(top, c, t)`parent, Zone(top, c, t)`balance
    ensures shorter == !t.right.balance.Even?
    ensures At(top, c, FixRight(t)) && Zone(top, c, FixRight(t)) == Zone(top, c, t)
  {
    var right := parent.right;
    assert Linked(Snap(Zone(top, c, t)), t.right, parent);
    hide Holds;
    match right.balance {
      case RightHigh =>
        SetBalancesRightAt(parent, Even, right, Even, top, c, t);
        var _ := RotateLeftAt(parent, top, c, Node(t.left, parent, Even, t.right.(balance := Even)));
        shorter := true;
      case Even =>
        SetBalancesRightAt(parent, RightHigh, right, LeftHigh, top, c, t);
        var _ := RotateLeftAt(parent, top, c, Node(t.left, parent, RightHigh, t.right.(balance := LeftHigh)));
        shorter := false;
      case LeftHigh =>
        DoubleLeft(parent, right, top, c, t);
        shorter := true;
    }
  }

  /** The flags of the node at the focus and of its right child. */
  method SetBalancesRightAt(node: MapItem, b: Balance, child: MapItem, bc: Balance,
                       ghost top: MapItem, ghost c: ItemCtx, ghost t: ItemTree)
    requires At(top, c, t) && t.Node? && t.item == node && t.right.Node? && t.right.item == child
    modifies node`balance, child`balance
    ensures At(top, c, Node(t.left, node, b, t.right.(balance := bc)))
    ensures Zone(top, c, Node(t.left, node, b, t.right.(balance := bc))) == Zone(top, c, t)
  {
    hide Holds;
    SetBalanceAt(node, b, top, c, t);
    DownRightAt(top, c, t.(balance := b));
    SetBalanceAt(child, bc, top, InRight(t.left, node, b, c), t.right);
    DownRightAt(top, c, Node(t.left, node, b, t.right.(balance := bc)));
  }

  /** The double rotation shared by grewRight and leftShorter. */
  method DoubleLeft(cur: MapItem, child: MapItem, ghost top: MapItem, ghost c: ItemCtx, ghost t: ItemTree)
    requires At(top, c, t) && t.Node? && t.item == cur && t.right.Node? && t.right.item == child
    requires t.right.balance.LeftHigh? && t.right.left.Node?
    modifies Zone(top, c, t)`right, Zone(top, c, t)`left, Zone(top, c, t)`parent, Zone(top, c, t)`balance
    ensures At(top, c, FixRight(t)) && Zone(top, c, FixRight(t)) == Zone(top, c, t)
  {
    assert Linked(Snap(Zone(top, c, t)), t.right, cur);
    assert Linked(Snap(Zone(top, c, t)), t.right.left, child);
    var grandChild := child.left;
    ghost var r, g := t.right, t.right.left;
    var br := if grandChild.balance.LeftHigh? then RightHigh else Even;
    var bt := if grandChild.balance.RightHigh? then LeftHigh else Even;
    ghost var c1, r1 := InRight(t.left, cur, bt, c), r.(balance := br);
    ghost var r2 := r1.(left := g.(balance := Even));
    assert FixRight(t) == RotLeft(Node(t.left, cur, bt, RotRight(r2)));
    hide Holds, FixRight;
    SetBalancesRightAt(cur, bt, child, br, top, c, t);
    DownRightAt(top, c, Node(t.left, cur, bt, r1));
    DownLeftAt(top, c1, r1);
    SetBalanceAt(grandChild, Even, top, InLeft(child, br, r.right, c1), g);
    DownLeftAt(top, c1, r2);
    var _ := RotateRightAt(child, top, c1, r2);
    DownRightAt(top, c, Node(t.left, cur, bt, RotRight(r2)));
    var _ := RotateLeftAt(cur, top, c, Node(t.left, cur, bt, RotRight(r2)));
  }
}
