/** The ring buffer (RingBuffer.h): a queue of bounded length in an array, with one slot unused, and
    windows through which several elements are added or removed at once. */
module RingBuffer {
  import opened Basics

  /** The elements in use, oldest first. */
  function Queue<T>(mem: seq<T>, head: nat, tail: nat): (q: seq<T>)
    requires head < |mem| && tail < |mem|
    ensures |q| == Count(|mem|, head, tail)
    ensures forall k :: 0 <= k < |q| ==> q[k] == mem[Slot(|mem|, head, k)]
  {
    if head <= tail then mem[head..tail] else mem[head..] + mem[..tail]
  }

  function Count(n: nat, head: nat, tail: nat): (c: nat)
    requires head < n && tail < n
    ensures c < n
  {
    if tail < head then tail + n - head else tail - head
  }

  /** The slot k places after another one. */
  function Slot(n: nat, at: nat, k: nat): (s: nat)
    requires at < n && k < n
    ensures s < n
  {
    if at + k < n then at + k else at + k - n
  }

  /** Advancing within the memory: the end wraps around to the beginning. */
  function Wrapped(n: nat, at: nat): (s: nat)
    requires 0 < n && at <= n
    ensures s < n
  {
    if at >= n then 0 else at
  }

  /** How many elements can be added without a break: up to the end of the memory, and leaving one
      slot free. */
  function Room(n: nat, head: nat, tail: nat): (m: nat)
    requires head < n && tail < n
    ensures m <= n - tail && m + Count(n, head, tail) < n
    ensures m == n - tail || m + Count(n, head, tail) == n - 1
    ensures m == 0 <==> Count(n, head, tail) == n - 1
  {
    var free := n - 1 - Count(n, head, tail);
    if n - tail > free then free else n - tail
  }

  /** How many elements can be removed without a break. */
  function Flat(n: nat, head: nat, tail: nat): (m: nat)
    requires head < n && tail < n
    ensures m <= n - head && m <= Count(n, head, tail)
    ensures m == n - head || m == Count(n, head, tail)
    ensures m == 0 <==> head == tail
  {
    var count := Count(n, head, tail);
    if n - head > count then count else n - head
  }

  // ------------------------------------------------------------------ what windows do

  /** The queue does not depend on the slots outside it. */
  lemma WriteOutside<T>(mem: seq<T>, head: nat, tail: nat, k: nat, x: T)
    requires head < |mem| && tail < |mem| && k < Room(|mem|, head, tail)
    ensures Queue(mem[tail + k := x], head, tail) == Queue(mem, head, tail)
  {
    var n := |mem|;
    var p, q := Queue(mem[tail + k := x], head, tail), Queue(mem, head, tail);
    forall i | 0 <= i < |q| ensures p[i] == q[i] {
      assert Slot(n, head, i) != tail + k;
    }
  }

  /** Advancing the tail appends what was written behind it. */
  lemma Committed<T>(mem: seq<T>, head: nat, tail: nat, k: nat)
    requires head < |mem| && tail < |mem| && k <= Room(|mem|, head, tail)
    ensures Queue(mem, head, Wrapped(|mem|, tail + k)) == Queue(mem, head, tail) + mem[tail..tail + k]
  {
    var n := |mem|;
    var t := Wrapped(n, tail + k);
    assert Count(n, head, t) == Count(n, head, tail) + k;
    var p, q := Queue(mem, head, t), Queue(mem, head, tail);
    forall i | 0 <= i < |p| ensures p[i] == (q + mem[tail..tail + k])[i] {
      if i >= |q| { assert Slot(n, head, i) == tail + (i - |q|); }
    }
  }

  /** Advancing the head drops the oldest elements. */
  lemma Released<T>(mem: seq<T>, head: nat, tail: nat, k: nat)
    requires head < |mem| && tail < |mem| && k <= Flat(|mem|, head, tail)
    ensures Queue(mem, Wrapped(|mem|, head + k), tail) == Queue(mem, head, tail)[k..]
  {
    var n := |mem|;
    var h := Wrapped(n, head + k);
    assert Count(n, h, tail) == Count(n, head, tail) - k;
    var p, q := Queue(mem, h, tail), Queue(mem, head, tail);
    forall i | 0 <= i < |p| ensures p[i] == q[k..][i] {
      assert Slot(n, h, i) == Slot(n, head, i + k);
    }
  }

  /** The window to remove from is the front of the queue. */
  lemma FrontIsFlat<T>(mem: seq<T>, head: nat, tail: nat, k: nat)
    requires head < |mem| && tail < |mem| && k <= Flat(|mem|, head, tail)
    ensures mem[head..head + k] == Queue(mem, head, tail)[..k]
  {
    var n := |mem|;
    assert forall i :: 0 <= i < k ==> Slot(n, head, i) == head + i;
  }

  /** A window once computed stays good when the other end moves on. */
  lemma WindowsGrow(n: nat, head: nat, tail: nat, k: nat)
    requires head < n && tail < n
    ensures k <= Room(n, head, tail) ==> Flat(n, head, tail) <= Flat(n, head, Wrapped(n, tail + k))
    ensures k <= Flat(n, head, tail) ==> Room(n, head, tail) <= Room(n, Wrapped(n, head + k), tail)
  {
  }

  // ------------------------------------------------------------------------- the class

  class RingBuffer<T> {
    const elements: array<T>
    var head: nat
    var tail: nat

    ghost predicate Valid()
      reads this
    {
      if elements.Length == 0 then head == tail == 0 else head < elements.Length && tail < elements.Length
    }

    ghost function Contents(): seq<T>
      requires Valid()
      reads this, elements
    {
      if elements.Length == 0 then [] else Queue(elements[..], head, tail)
    }

    /** The windows; a buffer without memory has none. */
    ghost function AddWindow(): nat
      requires Valid()
      reads this
    {
      if elements.Length == 0 then 0 else Room(elements.Length, head, tail)
    }

    ghost function RemoveWindow(): nat
      requires Valid()
      reads this
    {
      if elements.Length == 0 then 0 else Flat(elements.Length, head, tail)
    }

    constructor (memory: array<T>)
      ensures Valid() && Contents() == [] && elements == memory
    {
      head, tail := 0, 0;
      elements := memory;
    }

    method ClearTheBuffer()
      requires Valid()
      modifies this
      ensures Valid() && Contents() == []
    {
      head, tail := 0, 0;
    }

    method IsEmpty() returns (r: bool)
      requires Valid()
      ensures r <==> Contents() == []
    {
      return head == tail;
    }

    method IsFull() returns (r: bool)
      requires Valid()
      ensures r <==> |Contents()| >= elements.Length - 1
    {
      var nextElem := tail + 1;
      if nextElem >= elements.Length { nextElem := 0; }
      return nextElem == head;
    }

    method GetNumItems() returns (r: nat)
      requires Valid()
      ensures r == |Contents()|
    {
      var tailIdx := tail;
      if tailIdx < head { tailIdx := tailIdx + elements.Length; }
      return tailIdx - head;
    }

    method Add(item: T) returns (ok: bool)
      requires Valid()
      modifies this`tail, elements
      ensures Valid()
      ensures ok <==> |old(Contents())| < elements.Length - 1
      ensures Contents() == if ok then old(Contents()) + [item] else old(Contents())
    {
      var full := IsFull();
      if full { return false; }
      ghost var mem := elements[..];
      WriteOutside(mem, head, tail, 0, item);
      Committed(mem[tail := item], head, tail, 1);
      elements[tail] := item;
      assert elements[..] == mem[tail := item];
      tail := tail + 1;
      if tail >= elements.Length { tail := 0; }
      return true;
    }

    method Remove() returns (r: Option<T>)
      requires Valid()
      modifies this`head
      ensures Valid()
      ensures old(Contents()) == [] ==> r == None && Contents() == []
      ensures old(Contents()) != [] ==> r == Some(old(Contents())[0]) && Contents() == old(Contents())[1..]
    {
      var empty := IsEmpty();
      if empty { return None; }
      Released(elements[..], head, tail, 1);
      r := Some(elements[head]);
      head := head + 1;
      if head >= elements.Length { head := 0; }
    }

    /** The longest run of elements that can be added in place. None, and a count of zero, when full. */
    method PeekNextAddItems() returns (at: Option<nat>, count: nat)
      requires Valid()
      ensures at == None <==> |Contents()| >= elements.Length - 1
      ensures at == None ==> count == 0
      ensures at != None ==> at.value == tail && 0 < count == AddWindow()
    {
      var full := IsFull();
      if full { return None, 0; }
      var num := GetNumItems();
      var totalAvail := elements.Length - 1 - num;
      count := elements.Length - tail;
      if count > totalAvail { count := totalAvail; }
      at := Some(tail);
    }

    /** Adds the elements that were written into the window. */
    method AddElements(k: nat)
      requires Valid() && k <= AddWindow()
      modifies this`tail
      ensures Valid()
      ensures Contents() == old(Contents()) + elements[old(tail)..old(tail) + k]
    {
      if elements.Length > 0 { Committed(elements[..], head, tail, k); }
      assert elements[..][tail..tail + k] == elements[tail..tail + k];
      tail := tail + k;
      if tail >= elements.Length { tail := 0; }
    }

    /** The longest run of elements that can be removed in place. When there are none, the caller's
        count is left as it was. */
    method PeekNextRemoveItems(count: nat) returns (at: Option<nat>, count': nat)
      requires Valid()
      ensures at == None <==> Contents() == []
      ensures at == None ==> count' == count
      ensures at != None ==> at.value == head && 0 < count' == RemoveWindow()
      ensures at != None ==>
        at.value + count' <= elements.Length && elements[at.value..at.value + count'] == Contents()[..count']
    {
      var empty := IsEmpty();
      if empty { return None, count; }
      var total := GetNumItems();
      count' := elements.Length - head;
      if count' > total { count' := total; }
      at := Some(head);
      FrontIsFlat(elements[..], head, tail, count');
    }

    method RemoveElements(k: nat)
      requires Valid() && k <= RemoveWindow()
      modifies this`head
      ensures Valid() && Contents() == old(Contents())[k..]
    {
      if elements.Length > 0 { Released(elements[..], head, tail, k); }
      head := head + k;
      if head >= elements.Length { head := 0; }
    }

    /** Writing into the window does not show until it is added. */
    method FillWindow(src: seq<T>) returns (k: nat)
      requires Valid()
      modifies this`tail, elements
      ensures Valid() && k <= |src|
      ensures Contents() == old(Contents()) + src[..k]
      ensures k == 0 ==> src == [] || |old(Contents())| >= elements.Length - 1
    {
      hide Queue, Room, Count, Slot;
      var at, count := PeekNextAddItems();
      if at == None { return 0; }
      k := if |src| < count then |src| else count;
      WriteWindow(at.value, src[..k]);
      ghost var window := elements[tail..tail + k];
      forall j | 0 <= j < k ensures window[j] == src[..k][j] {
        assert window[j] == elements[tail + j];
      }
      assert window == src[..k];
      AddElements(k);
    }

    /** The first i elements of the data are in the slots from at on. */
    ghost predicate Written(at: nat, data: seq<T>, i: int)
      reads elements
    {
      0 <= i <= |data| && at + i <= elements.Length && forall j :: at <= j < at + i ==> elements[j] == data[j - at]
    }

    method WriteWindow(at: nat, data: seq<T>)
      requires Valid() && at == tail && |data| <= AddWindow()
      modifies elements
      ensures Contents() == old(Contents()) && Written(at, data, |data|)
    {
      assert Written(at, data, 0);
      hide Contents, Written;
      for i := 0 to |data|
        invariant Contents() == old(Contents()) && Written(at, data, i)
      {
        WriteSlot(at, data, i);
      }
    }

    method WriteSlot(at: nat, data: seq<T>, i: nat)
      requires Valid() && at == tail && i < |data| <= AddWindow() && Written(at, data, i)
      modifies elements
      ensures Contents() == old(Contents()) && Written(at, data, i + 1)
    {
      ghost var mem := elements[..];
      WriteOutside(mem, head, tail, i, data[i]);
      hide Queue, Room, Count, Slot;
      elements[at + i] := data[i];
      assert elements[..] == mem[tail + i := data[i]];
    }

    method PeekHead() returns (r: Option<T>)
      requires Valid()
      ensures r == if Contents() == [] then None else Some(Contents()[0])
    {
      if head == tail { return None; }
      return Some(elements[head]);
    }

    method PeekTail() returns (r: Option<T>)
      requires Valid()
      ensures r == if Contents() == [] then None else Some(Contents()[|Contents()| - 1])
    {
      if head == tail { return None; }
      var prevElem: int := tail - 1;
      if prevElem < 0 { prevElem := elements.Length - 1; }
      return Some(elements[prevElem]);
    }
  }
}
