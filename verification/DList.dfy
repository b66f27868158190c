/** Intrusive doubly linked lists (DList.h) and the mark that keeps an item in at most one container
    (Item.cpp). */
module DList {

  class DictItem<K> {
    const key: K
    var hashCode: nat
    var nextItem: DictItem?<K>
    var prevItem: DictItem?<K>
    var container: object?

    constructor (key: K)
      ensures this.key == key && container == null && hashCode == 0
    {
      this.key := key;
      hashCode := 0;
      nextItem, prevItem, container := null, null, null;
    }

    /** The double-insert trap. */
    method Insert(newContainer: object) returns (ok: bool)
      modifies this`container
      ensures ok <==> old(container) == null
      ensures container == if ok then newContainer else old(container)
    {
      if container != null { return false; }
      container := newContainer;
      return true;
    }
  }

  ghost function At<K>(s: seq<DictItem<K>>, i: int): DictItem?<K> {
    if 0 <= i < |s| then s[i] else null
  }

  ghost predicate Distinct<K>(s: seq<DictItem<K>>) {
    forall i, j :: 0 <= i < j < |s| ==> s[i] != s[j]
  }

  lemma InsertedDistinct<K>(s: seq<DictItem<K>>, k: nat, x: DictItem<K>)
    requires k <= |s| && Distinct(s) && x !in s
    ensures Distinct(s[..k] + [x] + s[k..])
  {
    var r := s[..k] + [x] + s[k..];
    forall i, j | 0 <= i < j < |r| ensures r[i] != r[j] {
      assert i != k && j != k ==> s[if i < k then i else i - 1] != s[if j < k then j else j - 1];
    }
  }

  lemma TakenOutDistinct<K>(s: seq<DictItem<K>>, k: nat)
    requires k < |s| && Distinct(s)
    ensures Distinct(s[..k] + s[k + 1..]) && s[k] !in s[..k] + s[k + 1..]
  {
    var r := s[..k] + s[k + 1..];
    forall i, j | 0 <= i < j < |r| ensures r[i] != r[j] {
      assert s[if i < k then i else i + 1] != s[if j < k then j else j + 1];
    }
  }

  /** Item i points to its neighbours. */
  ghost predicate Linked<K>(s: seq<DictItem<K>>, i: int)
    reads s
    requires 0 <= i < |s|
  {
    s[i].nextItem == At(s, i + 1) && s[i].prevItem == At(s, i - 1)
  }

  class DList<K> {
    var head: DictItem?<K>
    var tail: DictItem?<K>
    ghost var items: seq<DictItem<K>>

    ghost predicate Valid()
      reads this, items
    {
      && Distinct(items)
      && head == At(items, 0) && tail == At(items, |items| - 1)
      && (forall x :: x in items ==> x.container == this)
      && forall i :: 0 <= i < |items| ==> Linked(items, i)
    }

    constructor ()
      ensures Valid() && items == []
    {
      head, tail, items := null, null, [];
    }

    /** A list whose items are not touched stays as it is. */
    twostate lemma StaysValid()
      requires old(Valid()) && unchanged(this) && forall x :: x in items ==> unchanged(x)
      ensures Valid()
    {
      forall i | 0 <= i < |items| ensures Linked(items, i) {
        assert items[i] in items && old(Linked(items, i));
      }
    }

    /** What the links must be for the list to have one item more, at index k. */
    twostate predicate HooksAt(was: seq<DictItem<K>>, k: int, new item: DictItem<K>)
      reads this, item, was
    {
      && item.container == this && item.nextItem == At(was, k) && item.prevItem == At(was, k - 1)
      && head == (if k == 0 then item else old(head)) && tail == (if k == |was| then item else old(tail))
      && forall i :: 0 <= i < |was| ==> HookAt(was, k, item, i)
    }

    /** Item i points to the new one if it is next to it. */
    twostate predicate HookAt(was: seq<DictItem<K>>, k: int, new item: DictItem<K>, i: int)
      requires 0 <= i < |was|
      reads was
    {
      var x := was[i];
      && x.container == old(x.container)
      && x.nextItem == (if i == k - 1 then item else old(x.nextItem))
      && x.prevItem == (if i == k then item else old(x.prevItem))
    }

    twostate lemma Hooked(k: nat, new item: DictItem<K>)
      requires old(Valid()) && k <= |old(items)| && item !in old(items) && HooksAt(old(items), k, item)
      requires items == old(items)[..k] + [item] + old(items)[k..]
      ensures Valid()
    {
      var was := old(items);
      InsertedDistinct(was, k, item);
      hide Distinct;
      forall i | 0 <= i < |items| ensures Linked(items, i) && items[i].container == this {
        if i != k {
          var j := if i < k then i else i - 1;
          assert items[i] == was[j] && was[j] in was && old(Linked(items, j)) && HookAt(was, k, item, j);
        }
      }
    }

    /** What the links of item i must be for the list to have one item less, the one at index k. */
    twostate predicate UnhookAt(was: seq<DictItem<K>>, k: int, i: int)
      requires 0 <= i < |was|
      reads was
    {
      var x := was[i];
      && (i != k ==> x.container == old(x.container))
      && (i != k ==> x.nextItem == (if i == k - 1 then At(was, k + 1) else old(x.nextItem)))
      && (i != k ==> x.prevItem == (if i == k + 1 then At(was, k - 1) else old(x.prevItem)))
    }

    twostate lemma Unhooked(k: nat)
      requires old(Valid()) && k < |old(items)| && items == old(items)[..k] + old(items)[k + 1..]
      requires forall i :: 0 <= i < |old(items)| ==> UnhookAt(old(items), k, i)
      requires head == (if k == 0 then At(old(items), 1) else old(head))
      requires tail == (if k == |old(items)| - 1 then At(old(items), k - 1) else old(tail))
      ensures Valid() && old(items)[k] !in items
    {
      var was := old(items);
      TakenOutDistinct(was, k);
      hide Distinct;
      forall i | 0 <= i < |items| ensures Linked(items, i) && items[i].container == this {
        var j := if i < k then i else i + 1;
        assert items[i] == was[j] && was[j] in was && old(Linked(items, j)) && UnhookAt(was, k, j);
      }
    }

    /** Adds an item at the end, unless it is in a container. */
    method Put(item: DictItem<K>)
      requires Valid()
      modifies this, item, items
      ensures Valid()
      ensures old(item.container) == null ==> items == old(items) + [item]
      ensures old(item.container) != null ==> items == old(items) && unchanged(this, item, old(items))
      ensures forall x :: x in old(items) && x != item ==> x.hashCode == old(x.hashCode)
      ensures item.hashCode == old(item.hashCode)
    {
      assert item in items ==> item.container == this;
      var free := item.Insert(this);
      if free {
        if head != null {
          tail.nextItem := item;
          item.prevItem := tail;
        } else {
          head := item;
          item.prevItem := null;
        }
        item.nextItem := null;
        tail := item;
        ghost var was := items;
        items := was + [item];
        forall i | 0 <= i < |items| ensures Linked(items, i) {
          assert i < |was| ==> old(Linked(items, i));
        }
      }
    }

    method PutFirst(item: DictItem<K>)
      requires Valid()
      modifies this, item, items
      ensures Valid()
      ensures old(item.container) == null ==> items == [item] + old(items)
      ensures old(item.container) != null ==> items == old(items) && unchanged(this, item, old(items))
    {
      assert item in items ==> item.container == this;
      var free := item.Insert(this);
      if free {
        if head != null {
          item.nextItem := head;
          head.prevItem := item;
          head := item;
        } else {
          head, tail := item, item;
          item.nextItem := null;
        }
        item.prevItem := null;
        ghost var was := items;
        items := [item] + items;
        forall i | 0 <= i < |items| ensures Linked(items, i) {
          assert i > 0 ==> old(Linked(items, i - 1));
        }
      }
    }

    /** Takes an item out, wherever in the list it is. */
    method Remove(item: DictItem<K>, ghost k: nat) returns (found: bool)
      requires Valid()
      requires item.container == this ==> k < |items| && items[k] == item
      modifies this, items
      ensures Valid()
      ensures found <==> old(item.container) == this
      ensures found ==> items == old(items[..k]) + old(items[k + 1..]) && item.container == null && item !in items
      ensures !found ==> unchanged(this, old(items))
      ensures forall x :: x in old(items) ==> x.hashCode == old(x.hashCode)
    {
      if item.container != this { return false; }
      assert Linked(items, k);
      ghost var was := items;
      var prv, nxt := item.prevItem, item.nextItem;
      assert k > 0 ==> Linked(items, k - 1);
      assert k + 1 < |items| ==> Linked(items, k + 1);
      if prv != null {
        prv.nextItem := nxt;
        if nxt == null {
          tail := prv;
        } else {
          nxt.prevItem := prv;
        }
      } else {
        head := nxt;
        if nxt == null {
          tail := null;
        } else {
          nxt.prevItem := null;
        }
      }
      item.container := null;
      items := was[..k] + was[k + 1..];
      Unhooked(k);
      return true;
    }

    /** Takes out the first item. */
    method Get() returns (item: DictItem?<K>)
      requires Valid()
      modifies this, items
      ensures Valid()
      ensures item == At(old(items), 0)
      ensures items == if old(items) == [] then [] else old(items)[1..]
      ensures item != null ==> item.container == null && item !in items
      ensures old(items) == [] ==> unchanged(this)
    {
      item := head;
      if item != null {
        assert Linked(items, 0);
        var found := Remove(item, 0);
      }
    }

    method InsertAfter(after: DictItem<K>, item: DictItem<K>, ghost k: nat)
      requires Valid() && k < |items| && items[k] == after
      modifies this, item, items
      ensures Valid()
      ensures old(item.container) == null ==> items == old(items[..k + 1]) + [item] + old(items[k + 1..])
      ensures old(item.container) != null ==> unchanged(this, item, old(items))
    {
      assert Linked(items, k);
      assert k + 1 < |items| ==> Linked(items, k + 1);
      assert item in items ==> item.container == this;
      var free := item.Insert(this);
      if free {
        ghost var was := items;
        var nxt := after.nextItem;
        item.nextItem := nxt;
        item.prevItem := after;
        after.nextItem := item;
        if nxt == null {
          tail := item;
        } else {
          nxt.prevItem := item;
        }
        items := was[..k + 1] + [item] + was[k + 1..];
        Hooked(k + 1, item);
      }
    }

    method InsertBefore(before: DictItem<K>, item: DictItem<K>, ghost k: nat)
      requires Valid() && k < |items| && items[k] == before
      modifies this, item, items
      ensures Valid()
      ensures old(item.container) == null ==> items == old(items[..k]) + [item] + old(items[k..])
      ensures old(item.container) != null ==> unchanged(this, item, old(items))
    {
      assert Linked(items, k);
      assert k > 0 ==> Linked(items, k - 1);
      assert item in items ==> item.container == this;
      var free := item.Insert(this);
      if free {
        ghost var was := items;
        var prv := before.prevItem;
        item.prevItem := prv;
        item.nextItem := before;
        before.prevItem := item;
        if prv == null {
          head := item;
        } else {
          prv.nextItem := item;
        }
        items := was[..k] + [item] + was[k..];
        Hooked(k, item);
      }
    }
  }
}
