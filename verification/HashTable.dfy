/** The hash table (HashTable_.cpp): an array of intrusive lists that together act as one set of
    items, found by key and enumerated bucket by bucket. */
module HashTable {
  import opened DList

  // ------------------------------------------------------------- the order of enumeration

  function Flat<T>(ls: seq<seq<T>>): seq<T> {
    if ls == [] then [] else Flat(ls[..|ls| - 1]) + ls[|ls| - 1]
  }

  /** Where bucket i begins. */
  function Start<T>(ls: seq<seq<T>>, i: nat): (n: nat)
    requires i <= |ls|
  {
    |Flat(ls[..i])|
  }

  lemma {:induction false} StartNext<T>(ls: seq<seq<T>>, i: nat)
    requires i < |ls|
    ensures Start(ls, i + 1) == Start(ls, i) + |ls[i]|
  {
    assert ls[..i + 1][..i] == ls[..i];
  }

  lemma {:induction false} FlatAt<T>(ls: seq<seq<T>>, i: nat, k: nat)
    requires i < |ls| && k < |ls[i]|
    ensures Start(ls, i) + k < |Flat(ls)| && Flat(ls)[Start(ls, i) + k] == ls[i][k]
    decreases |ls|
  {
    var init := ls[..|ls| - 1];
    if i < |init| {
      FlatAt(init, i, k);
      assert init[..i] == ls[..i];
    }
  }

  /** Every position is in some bucket. */
  lemma {:induction false} FlatFrom<T>(ls: seq<seq<T>>, p: nat) returns (i: nat, k: nat)
    requires p < |Flat(ls)|
    ensures i < |ls| && k < |ls[i]| && p == Start(ls, i) + k && Flat(ls)[p] == ls[i][k]
    decreases |ls|
  {
    var init := ls[..|ls| - 1];
    if p < |Flat(init)| {
      i, k := FlatFrom(init, p);
      assert init[..i] == ls[..i];
    } else {
      i, k := |ls| - 1, p - |Flat(init)|;
    }
  }

  lemma {:induction false} StartSame<T>(ls: seq<seq<T>>, i: nat, j: nat)
    requires i <= j <= |ls| && forall m :: i <= m < j ==> ls[m] == []
    ensures Start(ls, i) == Start(ls, j)
    decreases j - i
  {
    if i < j {
      StartNext(ls, i);
      StartSame(ls, i + 1, j);
    }
  }

  lemma FlatWhole<T>(ls: seq<seq<T>>)
    ensures Start(ls, |ls|) == |Flat(ls)| && Start(ls, 0) == 0
  {
    assert ls[..|ls|] == ls;
  }

  lemma {:induction false} FlatUpdate<T>(ls: seq<seq<T>>, i: nat, b: seq<T>)
    requires i < |ls|
    ensures |Flat(ls[i := b])| == |Flat(ls)| - |ls[i]| + |b|
    decreases |ls|
  {
    var init := ls[..|ls| - 1];
    if i < |init| {
      FlatUpdate(init, i, b);
      assert ls[i := b][..|ls| - 1] == init[i := b];
    } else {
      assert ls[i := b][..|ls| - 1] == init;
    }
  }

  // ------------------------------------------------------------------------ the hash value

  /** Hashing one more byte: four bits up, and the four that overflow folded back in. */
  function Mixed(key: bv32, b: bv8): bv32 {
    Folded(Shifted(key, b))
  }

  function Shifted(key: bv32, b: bv8): bv32 {
    (key << 4) + (b as bv32)
  }

  function Folded(k: bv32): bv32 {
    var g := High(k);
    if g != 0 then Turned(k, g) else k
  }

  function High(k: bv32): bv32 { k & 0xf000_0000 }

  function Turned(k: bv32, g: bv32): bv32 { (k ^ (g >> 24)) & 0x0fff_ffff }

  function Hash(bytes: seq<bv8>): bv32 {
    if bytes == [] then 0 else Mixed(Hash(bytes[..|bytes| - 1]), bytes[|bytes| - 1])
  }

  lemma MixedIsLow(key: bv32, b: bv8)
    ensures Mixed(key, b) & 0xf000_0000 == 0
  {
    FoldedIsLow(Shifted(key, b));
    hide Folded, Shifted;
  }

  lemma FoldedIsLow(k: bv32)
    ensures Folded(k) & 0xf000_0000 == 0
  {
  }

  function BucketOf(key: seq<bv8>, n: nat): (i: nat)
    requires n > 0
    ensures i < n
  {
    Hash(key) as nat % n
  }

  method HashKey(key: seq<bv8>, maxBuckets: nat) returns (index: nat)
    requires maxBuckets > 0
    ensures index == BucketOf(key, maxBuckets)
  {
    hide Mixed;
    var h: bv32 := 0;
    for i := 0 to |key|
      invariant h == Hash(key[..i])
    {
      assert key[..i + 1][..i] == key[..i];
      h := Mixed(h, key[i]);
    }
    assert key[..|key|] == key;
    index := h as nat % maxBuckets;
  }

  /** The hash value has 28 bits. */
  lemma HashIsLow(bytes: seq<bv8>)
    ensures Hash(bytes) & 0xf000_0000 == 0
  {
    if bytes != [] { MixedIsLow(Hash(bytes[..|bytes| - 1]), bytes[|bytes| - 1]); }
    hide Mixed;
  }

  // -------------------------------------------------------------------------- the table

  class HashTable<K(==,!new)> {
    const buckets: seq<DList<K>>
    const hash: K -> nat
    var numItems: nat
    ghost var stored: set<DictItem<K>>

    /** The buckets' contents. */
    ghost function Lists(): (ls: seq<seq<DictItem<K>>>)
      reads buckets
      ensures |ls| == |buckets|
    {
      seq(|buckets|, i requires 0 <= i < |buckets| reads buckets => buckets[i].items)
    }

    ghost function Order(): seq<DictItem<K>>
      reads buckets
    {
      Flat(Lists())
    }

    ghost predicate Valid()
      reads this, buckets, stored
    {
      Sound() && numItems == |Order()|
    }

    /** Each item is in the bucket its key hashes to, and nowhere else. */
    ghost predicate Sound()
      reads this`stored, buckets, stored
    {
      && |buckets| > 0
      && (forall k :: hash(k) < |buckets|)
      && (forall i, j :: 0 <= i < j < |buckets| ==> buckets[i] != buckets[j])
      && (forall i :: 0 <= i < |buckets| ==> InBucket(i))
      && (forall x :: x in stored ==> x in buckets[hash(x.key)].items)
    }

    ghost predicate InBucket(i: int)
      requires 0 <= i < |buckets|
      reads this`stored, buckets, stored
    {
      && (forall x :: x in buckets[i].items ==> x in stored && x.hashCode == i && hash(x.key) == i)
      && buckets[i].Valid()
    }

    constructor (buckets: seq<DList<K>>, hash: K -> nat)
      requires |buckets| > 0 && (forall k :: hash(k) < |buckets|)
      requires forall i, j :: 0 <= i < j < |buckets| ==> buckets[i] != buckets[j]
      requires forall i :: 0 <= i < |buckets| ==> buckets[i].Valid() && buckets[i].items == []
      ensures Valid() && stored == {} && this.buckets == buckets && this.hash == hash
    {
      this.buckets, this.hash := buckets, hash;
      numItems, stored := 0, {};
      new;
      StartSame(Lists(), 0, |buckets|);
      FlatWhole(Lists());
    }

    /** Adds a free item. */
    method Insert(node: DictItem<K>)
      requires Valid() && node.container == null
      modifies this, buckets, stored, node
      ensures Valid() && stored == old(stored) + {node} && node.hashCode == hash(node.key)
      ensures node.container == buckets[hash(node.key)]
      ensures Lists() == old(Lists()[hash(node.key) := Lists()[hash(node.key)] + [node]])
    {
      hide Sound, Flat;
      ghost var ls := Lists();
      var index := hash(node.key);
      InRange(node.key);
      Plant(node, index);
      numItems := numItems + 1;
      FlatUpdate(ls, index, ls[index] + [node]);
    }

    lemma InRange(key: K)
      requires Sound()
      ensures hash(key) < |buckets|
    {
    }

    method Plant(node: DictItem<K>, index: nat)
      requires Sound() && node.container == null && index < |buckets| && index == hash(node.key)
      modifies this`stored, buckets, stored, node
      ensures Sound() && stored == old(stored) + {node}
      ensures node.hashCode == index && node.container == buckets[index]
      ensures Lists() == old(Lists()[index := Lists()[index] + [node]])
    {
      PutInBucket(node, index);
      assert node in buckets[index].items;
      stored := stored + {node};
      Planted(index, node);
    }

    /** The list operation, and what it leaves alone. */
    method PutInBucket(node: DictItem<K>, index: nat)
      requires Sound() && node.container == null && index < |buckets| && index == hash(node.key)
      modifies buckets, stored, node
      ensures buckets[index].Valid() && buckets[index].items == old(buckets[index].items) + [node]
      ensures node.hashCode == index
      ensures forall x :: x in old(buckets[index].items) ==> x.hashCode == old(x.hashCode) && x != node
      ensures forall i :: 0 <= i < |buckets| && i != index ==> unchanged(buckets[i])
      ensures forall x :: x in old(stored) && x !in old(buckets[index].items) ==> unchanged(x)
    {
      assert InBucket(index);
      AllApart(index, node);
      var bucket := buckets[index];
      node.hashCode := index;
      bucket.Put(node);
      assert forall i :: 0 <= i < |buckets| && i != index ==> buckets[i] != bucket;
    }

    ghost predicate HashesTo(node: DictItem<K>, index: nat) {
      hash(node.key) == index
    }

    twostate lemma Planted(new index: nat, new node: DictItem<K>)
      requires old(Sound()) && index < |buckets| && stored == old(stored) + {node}
      requires HashesTo(node, index)
      requires buckets[index].Valid() && buckets[index].items == old(buckets[index].items) + [node]
      requires node.hashCode == index && forall x :: x in old(buckets[index].items) ==> x.hashCode == old(x.hashCode)
      requires forall i :: 0 <= i < |buckets| && i != index ==> unchanged(buckets[i])
      requires forall x :: x in old(stored) && x !in old(buckets[index].items) ==> unchanged(x)
      ensures Sound()
      ensures Lists() == old(Lists())[index := old(Lists())[index] + [node]]
    {
      assert old(InBucket(index));
      forall i | 0 <= i < |buckets| && i != index ensures InBucket(i) {
        assert old(InBucket(i)) && buckets[i] != buckets[index];
        BucketStays(i);
      }
      assert InBucket(index);
    }

    /** No item of bucket i is the node or in the other bucket. */
    ghost predicate Apart(i: int, index: int, node: DictItem<K>)
      requires 0 <= i < |buckets| && 0 <= index < |buckets|
      reads buckets
    {
      forall x :: x in buckets[i].items ==> x != node && x !in buckets[index].items
    }

    lemma AllApart(index: nat, node: DictItem<K>)
      requires Sound() && index < |buckets| && (node.container == null || node.container == buckets[index])
      ensures forall i :: 0 <= i < |buckets| && i != index ==> Apart(i, index, node)
    {
      forall i | 0 <= i < |buckets| && i != index ensures Apart(i, index, node) {
        assert InBucket(i) && InBucket(index);
        assert buckets[i] != buckets[index];
      }
    }

    /** A bucket that an operation leaves alone. */
    twostate lemma BucketStays(i: nat)
      requires i < |buckets| && old(InBucket(i)) && unchanged(buckets[i])
      requires forall x :: x in buckets[i].items ==> unchanged(x) && x in stored
      ensures InBucket(i)
    {
      buckets[i].StaysValid();
    }

    /** Takes an item out; nothing happens if it is not in the table. The bucket number the item
        remembers, which outlives a removal, must be one of this table's. */
    method RemoveItem(node: DictItem<K>) returns (found: bool)
      requires Valid() && node.hashCode < |buckets|
      requires node.container == buckets[node.hashCode] ==> node in stored
      modifies this, buckets, stored
      ensures Valid()
      ensures found <==> node in old(stored)
      ensures stored == old(stored) - {node}
      ensures node.hashCode == old(node.hashCode) && (found ==> node.container == null)
    {
      hide Sound, Flat;
      ghost var ls := Lists();
      ghost var k := Place(node);
      found := Uproot(node, k);
      if found {
        FlatUpdate(ls, node.hashCode, ls[node.hashCode][..k] + ls[node.hashCode][k + 1..]);
        numItems := numItems - 1;
      }
    }

    method Uproot(node: DictItem<K>, ghost k: nat) returns (found: bool)
      requires Sound() && node.hashCode < |buckets|
      requires node.container == buckets[node.hashCode] <==> node in stored
      requires node in stored ==> k < |Lists()[node.hashCode]| && Lists()[node.hashCode][k] == node
      modifies this`stored, buckets, stored
      ensures Sound() && (found <==> node in old(stored)) && stored == old(stored) - {node}
      ensures node.hashCode == old(node.hashCode) && (found ==> node.container == null)
      ensures !found ==> Lists() == old(Lists())
      ensures found ==>
        Lists() == (var j, ls := node.hashCode, old(Lists()); ls[j := ls[j][..k] + ls[j][k + 1..]])
    {
      var index := node.hashCode;
      found := RemoveFromBucket(node, index, k);
      if found {
        stored := stored - {node};
        Uprooted(index, node, k);
      }
    }

    method RemoveFromBucket(node: DictItem<K>, index: nat, ghost k: nat) returns (found: bool)
      requires Sound() && index < |buckets| && index == node.hashCode
      requires node.container == buckets[index] <==> node in stored
      requires node in stored ==> k < |buckets[index].items| && buckets[index].items[k] == node
      modifies buckets, stored
      ensures found <==> node in stored
      ensures !found ==> unchanged(buckets[index]) && unchanged(old(buckets[index].items))
      ensures found ==>
        && buckets[index].Valid() && node.container == null && node !in buckets[index].items
        && buckets[index].items == old(buckets[index].items[..k]) + old(buckets[index].items[k + 1..])
      ensures forall x :: x in old(buckets[index].items) ==> x.hashCode == old(x.hashCode)
      ensures forall i :: 0 <= i < |buckets| && i != index ==> unchanged(buckets[i])
      ensures forall x :: x in old(stored) && x !in old(buckets[index].items) ==> unchanged(x)
    {
      assert InBucket(index);
      if node in stored { AllApart(index, node); }
      var bucket := buckets[index];
      found := bucket.Remove(node, k);
      assert forall i :: 0 <= i < |buckets| && i != index ==> buckets[i] != bucket;
    }

    twostate lemma Uprooted(new index: nat, new node: DictItem<K>, new k: nat)
      requires old(Sound()) && index < |buckets| && stored == old(stored) - {node} && node !in buckets[index].items
      requires k < |old(buckets[index].items)| && old(buckets[index].items)[k] == node
      requires buckets[index].Valid()
      requires buckets[index].items == old(buckets[index].items)[..k] + old(buckets[index].items)[k + 1..]
      requires forall x :: x in old(buckets[index].items) ==> x.hashCode == old(x.hashCode)
      requires forall i :: 0 <= i < |buckets| && i != index ==> unchanged(buckets[i])
      requires forall x :: x in old(stored) && x !in old(buckets[index].items) ==> unchanged(x)
      ensures Sound()
      ensures Lists() == old(Lists())[index := old(Lists())[index][..k] + old(Lists())[index][k + 1..]]
    {
      assert old(InBucket(index));
      forall i | 0 <= i < |buckets| && i != index ensures InBucket(i) {
        assert old(InBucket(i)) && buckets[i] != buckets[index];
        BucketStays(i);
      }
      assert InBucket(index);
      forall x | x in stored ensures x in buckets[hash(x.key)].items {
        assert x in old(buckets[hash(x.key)].items);
        assert hash(x.key) != index ==> unchanged(buckets[hash(x.key)]);
      }
    }

    /** Where in its bucket an item is. */
    lemma Place(node: DictItem<K>) returns (k: nat)
      requires Valid() && node.hashCode < |buckets|
      requires node.container == buckets[node.hashCode] ==> node in stored
      ensures node.container == buckets[node.hashCode] <==> node in stored
      ensures node in stored ==> k < |buckets[node.hashCode].items| && buckets[node.hashCode].items[k] == node
    {
      k := 0;
      if node in stored {
        assert InBucket(hash(node.key));
        k :| 0 <= k < |buckets[node.hashCode].items| && buckets[node.hashCode].items[k] == node;
      }
    }

    /** Finds an item by its key, the one longest in the table if there are several. */
    method Find(key: K) returns (item: DictItem?<K>)
      requires Valid()
      ensures item == null <==> forall x :: x in stored ==> x.key != key
      ensures item != null ==> item in stored && item.key == key
      ensures item != null ==>
        exists k :: 0 <= k < |Lists()[hash(key)]| &&
          Lists()[hash(key)][k] == item && FirstWith(Lists()[hash(key)], key, k)
    {
      var index := hash(key);
      var list := buckets[index];
      assert InBucket(index);
      item := list.head;
      ghost var k := 0;
      while item != null
        invariant 0 <= k <= |list.items| && item == At(list.items, k)
        invariant FirstWith(list.items, key, k)
        decreases |list.items| - k
      {
        if item.key == key { break; }
        assert Linked(list.items, k);
        item := item.nextItem;
        k := k + 1;
      }
      assert list.items == Lists()[index];
    }

    // --------------------------------------------------------------------- enumeration

    /** The order of enumeration has each stored item exactly once. */
    lemma OrderIsStored()
      requires Valid()
      ensures Distinct(Order())
      ensures forall x :: x in stored <==> x in Order()
      ensures |stored| == numItems
    {
      var ls := Lists();
      forall p, q | 0 <= p < q < |Order()| ensures Order()[p] != Order()[q] {
        var i, k := FlatFrom(ls, p);
        var j, m := FlatFrom(ls, q);
        assert InBucket(i) && InBucket(j);
        assert ls[i][k] in buckets[i].items && ls[j][m] in buckets[j].items;
        assert i == j ==> k < m;
      }
      forall x | x in stored ensures x in Order() {
        var i := hash(x.key);
        var k :| 0 <= k < |ls[i]| && ls[i][k] == x;
        FlatAt(ls, i, k);
      }
      forall x | x in Order() ensures x in stored {
        var p :| 0 <= p < |Order()| && Order()[p] == x;
        var i, k := FlatFrom(ls, p);
        assert InBucket(i);
      }
      DistinctCount(Order(), stored);
    }

    method First() returns (item: DictItem?<K>)
      requires Valid()
      ensures item == At(Order(), 0)
    {
      if numItems != 0 {
        item := FirstFrom(0);
        FlatWhole(Lists());
      } else {
        item := null;
      }
    }

    /** The first item in the buckets from i on. */
    method FirstFrom(from: nat) returns (item: DictItem?<K>)
      requires Valid() && from <= |buckets|
      ensures item == At(Order(), Start(Lists(), from))
    {
      ghost var ls := Lists();
      for i := from to |buckets|
        invariant forall m :: from <= m < i ==> ls[m] == []
      {
        assert InBucket(i);
        item := buckets[i].head;
        if item != null {
          FlatAt(ls, i, 0);
          StartSame(ls, from, i);
          return;
        }
      }
      StartSame(ls, from, |buckets|);
      FlatWhole(ls);
      item := null;
    }

    method Next(current: DictItem<K>, ghost p: nat) returns (item: DictItem?<K>)
      requires Valid() && p < |Order()| && Order()[p] == current
      ensures item == At(Order(), p + 1)
    {
      var index := current.hashCode;
      ghost var ls := Lists();
      ghost var i, k := FlatFrom(ls, p);
      assert InBucket(i) && Linked(ls[i], k);
      item := current.nextItem;
      if item != null {
        FlatAt(ls, i, k + 1);
        return;
      }
      StartNext(ls, index);
      item := FirstFrom(index + 1);
    }

    /** First and Next visit each stored item exactly once. */
    method Walk() returns (visited: seq<DictItem<K>>)
      requires Valid()
      ensures visited == Order() && Distinct(visited) && |visited| == numItems
      ensures forall x :: x in stored <==> x in visited
    {
      hide Flat, InBucket, Distinct;
      ghost var order := Order();
      visited := [];
      var item := First();
      while item != null
        invariant |visited| <= |order| && visited == order[..|visited|]
        invariant item == At(order, |visited|)
        decreases |order| - |visited|
      {
        ghost var p := |visited|;
        visited := visited + [item];
        item := Next(item, p);
      }
      assert visited == order;
      OrderIsStored();
    }
  }

  /** The table that hashes its keys itself. */
  method DefaultTable(buckets: seq<DList<seq<bv8>>>) returns (table: HashTable<seq<bv8>>)
    requires |buckets| > 0 && forall i, j :: 0 <= i < j < |buckets| ==> buckets[i] != buckets[j]
    requires forall i :: 0 <= i < |buckets| ==> buckets[i].Valid() && buckets[i].items == []
    ensures fresh(table) && table.Valid() && table.stored == {} && table.buckets == buckets
    ensures forall key :: table.hash(key) == BucketOf(key, |buckets|)
  {
    hide BucketOf, HashTable.Valid;
    var n := |buckets|;
    table := new HashTable<seq<bv8>>(buckets, key => if n > 0 then BucketOf(key, n) else 0);
  }

  /** An item that was in a table and was taken out keeps its bucket number. */
  method TakesCodeAlong<K(==,!new)>(first: HashTable<K>, node: DictItem<K>)
    requires first.Valid() && node.container == null
    modifies first, first.buckets, first.stored, node
    ensures first.Valid() && first.stored == old(first.stored) - {node}
    ensures node.container == null && node.hashCode == first.hash(node.key)
  {
    hide HashTable.Sound, HashTable.Order;
    first.Insert(node);
    first.InRange(node.key);
    var found := first.RemoveItem(node);
  }

  /** So it can be out of range in another table: the first has two buckets and uses the second, the
      other has one. */
  method RemovalOutOfRange() returns (node: DictItem<int>, second: HashTable<int>)
    ensures second.Valid() && node.container == null && node.hashCode >= |second.buckets|
  {
    hide HashTable.Valid;
    node := new DictItem<int>(7);
    var first := TwoBuckets();
    TakesCodeAlong(first, node);
    second := OneBucket();
  }

  method TwoBuckets() returns (table: HashTable<int>)
    ensures table.Valid() && fresh(table) && fresh(table.buckets) && table.stored == {} && table.hash(7) == 1
  {
    var a := new DList<int>();
    var b := new DList<int>();
    hide HashTable.Valid;
    table := new HashTable<int>([a, b], k => 1);
  }

  method OneBucket() returns (table: HashTable<int>)
    ensures table.Valid() && |table.buckets| == 1
  {
    var a := new DList<int>();
    hide HashTable.Valid;
    table := new HashTable<int>([a], k => 0);
  }

  ghost predicate FirstWith<K>(s: seq<DictItem<K>>, key: K, k: nat) {
    k <= |s| && forall j :: 0 <= j < k ==> s[j].key != key
  }

  lemma {:induction false} DistinctCount<K>(s: seq<DictItem<K>>, all: set<DictItem<K>>)
    requires Distinct(s) && forall x :: x in all <==> x in s
    ensures |all| == |s|
    decreases |s|
  {
    if s == [] {
      assert all == {};
    } else {
      var n := |s| - 1;
      var rest := s[..n];
      assert s[n] in all;
      forall x | x in all - {s[n]} ensures x in rest {
        var i :| 0 <= i < |s| && s[i] == x;
        assert rest[i] == x;
      }
      assert forall x :: x in rest ==> x in s && x != s[n];
      DistinctCount(rest, all - {s[n]});
    }
  }
}
