/** The lists of the notification protocol as they are in memory: points and loops hold intrusive
    lists of subscribers, and a subscriber's container mark says in which of them it is. */
module NotificationLists {
  import opened Basics
  import opened Notification
  import DL = DList

  // -------------------------------------------------------------- the lists of a state

  ghost predicate HasList(st: State, h: Home) {
    (h.AtPoint? && h.p in st.points) || (h.AtLoop? && h.l in st.loops)
  }

  ghost function Queue(st: State, h: Home): seq<nat>
    requires HasList(st, h)
  {
    if h.AtPoint? then st.points[h.p].subscribers else st.loops[h.l].pending
  }

  /** st' differs from st in list h, which is now q, and in the mark of s, which is now home. */
  ghost predicate ListChanged(st: State, st': State, h: Home, q: seq<nat>, s: nat, home: Home) {
    && (forall g :: HasList(st, g) <==> HasList(st', g)) && HasList(st', h) && Queue(st', h) == q
    && (forall g :: HasList(st, g) && g != h ==> Queue(st', g) == Queue(st, g))
    && st'.subs.Keys == st.subs.Keys && s in st'.subs && st'.subs[s].home == home
    && (forall r :: r in st.subs && r != s ==> st'.subs[r].home == st.subs[r].home)
  }

  lemma PutPointChanges(st: State, p: nat, s: nat)
    requires p in st.points && s in st.subs && st.subs[s].home == Nowhere
    ensures ListChanged(st, PutPoint(st, p, s), AtPoint(p), st.points[p].subscribers + [s], s, AtPoint(p))
  {
  }

  lemma PutLoopChanges(st: State, l: nat, s: nat)
    requires l in st.loops && s in st.subs && st.subs[s].home == Nowhere
    ensures ListChanged(st, PutLoop(st, l, s), AtLoop(l), st.loops[l].pending + [s], s, AtLoop(l))
  {
  }

  lemma DropPointChanges(st: State, p: nat, s: nat)
    requires p in st.points && s in st.subs && st.subs[s].home == AtPoint(p)
    ensures ListChanged(st, DropPoint(st, p, s), AtPoint(p), Without(st.points[p].subscribers, s), s, Nowhere)
  {
    hide Without;
    var st' := DropPoint(st, p, s);
    assert st'.loops == st.loops && st'.subs == st.subs[s := st.subs[s].(home := Nowhere)];
    assert st'.points == st.points[p := st.points[p].(subscribers := Without(st.points[p].subscribers, s))];
    hide DropPoint;
  }

  lemma DropLoopChanges(st: State, l: nat, s: nat)
    requires l in st.loops && s in st.subs && st.subs[s].home == AtLoop(l)
    ensures ListChanged(st, DropLoop(st, l, s), AtLoop(l), Without(st.loops[l].pending, s), s, Nowhere)
  {
    hide Without;
    var st' := DropLoop(st, l, s);
    assert st'.points == st.points && st'.subs == st.subs[s := st.subs[s].(home := Nowhere)];
    assert st'.loops == st.loops[l := st.loops[l].(pending := Without(st.loops[l].pending, s))];
    hide DropLoop;
  }

  /** Taking out the one at index k is what Without does, when there is only one. */
  lemma {:induction false} WithoutAt(q: seq<nat>, k: nat)
    requires k < |q| && Distinct(q)
    ensures Without(q, q[k]) == q[..k] + q[k + 1..]
  {
    if k > 0 {
      WithoutAt(q[1..], k - 1);
      assert q[1..][..k - 1] == q[1..k] && q[1..][k..] == q[k + 1..];
      assert q[..k] == [q[0]] + q[1..k];
    }
  }

  class Registry {
    const lists: map<Home, DL.DList<nat>>
    const nodes: map<nat, DL.DictItem<nat>>

    constructor (lists: map<Home, DL.DList<nat>>, nodes: map<nat, DL.DictItem<nat>>)
      ensures this.lists == lists && this.nodes == nodes
    {
      this.lists, this.nodes := lists, nodes;
    }

    /** The lists in memory are those of the state, and so are the marks. */
    ghost predicate Represents(st: State)
      reads lists.Values, nodes.Values
    {
      && (forall h :: h in lists <==> HasList(st, h)) && nodes.Keys == st.subs.Keys
      && (forall g, h :: g in lists && h in lists && lists[g] == lists[h] ==> g == h)
      && (forall s :: s in nodes ==> nodes[s].key == s)
      && (forall h :: h in lists ==> ListHolds(h, Queue(st, h)))
      && (forall s :: s in nodes ==> MarkedAt(s, st.subs[s].home))
    }

    ghost predicate ListHolds(h: Home, q: seq<nat>)
      requires h in lists
      reads lists.Values, nodes.Values
    {
      && (forall x :: x in lists[h].items ==> x in nodes.Values)
      && lists[h].Valid() && |lists[h].items| == |q|
      && forall i :: 0 <= i < |q| ==> lists[h].items[i].key == q[i]
    }

    ghost predicate MarkedAt(s: nat, home: Home)
      requires s in nodes
      reads nodes.Values
    {
      nodes[s].container == if home in lists then lists[home] else null
    }

    /** No item of list g is the node or in list h. */
    ghost predicate Apart(g: Home, h: Home, x: DL.DictItem<nat>)
      requires g in lists && h in lists
      reads lists.Values
    {
      forall y :: y in lists[g].items ==> y != x && y !in lists[h].items
    }

    lemma AllApart(st: State, h: Home, x: DL.DictItem<nat>)
      requires Represents(st) && h in lists && (x.container == null || x.container == lists[h])
      ensures forall g :: g in lists && g != h ==> lists[g] != lists[h] && Apart(g, h, x)
    {
      forall g | g in lists && g != h ensures lists[g] != lists[h] && Apart(g, h, x) {
        assert ListHolds(g, Queue(st, g)) && ListHolds(h, Queue(st, h));
      }
    }

    /** A list that an operation leaves alone. */
    twostate lemma ListStays(new g: Home, q: seq<nat>)
      requires g in lists && old(ListHolds(g, q)) && unchanged(lists[g])
      requires forall x :: x in lists[g].items ==> unchanged(x)
      ensures ListHolds(g, q)
    {
      lists[g].StaysValid();
    }

    /** DList::put: a free subscriber goes to the end of list h, one in a list is left where it is. */
    method Put(h: Home, s: nat, ghost st: State, ghost st': State)
      requires Represents(st) && h in lists && s in nodes
      requires if st.subs[s].home in lists then st' == st else ListChanged(st, st', h, Queue(st, h) + [s], s, h)
      modifies lists.Values, nodes.Values
      ensures Represents(st')
    {
      assert ListHolds(h, Queue(st, h)) && MarkedAt(s, st.subs[s].home);
      if nodes[s].container == null { AllApart(st, h, nodes[s]); }
      var list, node := lists[h], nodes[s];
      list.Put(node);
      if old(node.container) == null {
        OthersStay(st, h, node);
        PutDone(st, st', h, s);
      } else {
        NothingDone(st);
      }
    }

    /** What an operation on list h that touches only its items and x leaves as it was. */
    twostate lemma OthersStay(new st: State, new h: Home, x: DL.DictItem<nat>)
      requires old(Represents(st)) && h in lists
      requires forall g :: g in lists && g != h ==> old(Apart(g, h, x)) && unchanged(lists[g])
      requires forall y :: y in nodes.Values && y != x && y !in old(lists[h].items) ==> unchanged(y)
      ensures forall g :: g in lists && g != h ==> ListHolds(g, Queue(st, g))
    {
      forall g | g in lists && g != h ensures ListHolds(g, Queue(st, g)) {
        assert old(ListHolds(g, Queue(st, g))) && old(Apart(g, h, x));
        ListStays(g, Queue(st, g));
      }
    }

    twostate lemma NothingDone(st: State)
      requires old(Represents(st))
      requires forall g :: g in lists ==> unchanged(lists[g])
      requires forall y :: y in nodes.Values ==> unchanged(y)
      ensures Represents(st)
    {
      forall g | g in lists ensures ListHolds(g, Queue(st, g)) {
        assert old(ListHolds(g, Queue(st, g)));
        ListStays(g, Queue(st, g));
      }
      forall r | r in nodes ensures MarkedAt(r, st.subs[r].home) { assert old(MarkedAt(r, st.subs[r].home)); }
    }

    twostate lemma PutDone(st: State, new st': State, new h: Home, new s: nat)
      requires old(Represents(st)) && h in lists && s in nodes
      requires ListChanged(st, st', h, Queue(st, h) + [s], s, h)
      requires lists[h].Valid() && lists[h].items == old(lists[h].items) + [nodes[s]]
      requires forall g :: g in lists && g != h ==> ListHolds(g, Queue(st, g))
      requires forall y :: y in nodes.Values && y != nodes[s] && y !in old(lists[h].items) ==> unchanged(y)
      ensures Represents(st')
    {
      assert old(ListHolds(h, Queue(st, h)));
      assert ListHolds(h, Queue(st', h));
      forall r | r in nodes ensures MarkedAt(r, st'.subs[r].home) {
        assert old(MarkedAt(r, st.subs[r].home));
        if nodes[r] in lists[h].items { assert nodes[r].container == lists[h]; }
      }
    }

    /** Where in its list a subscriber is. */
    lemma IndexOf(st: State, h: Home, s: nat) returns (k: nat)
      requires Represents(st) && ListsOk(st) && h in lists && s in nodes
      ensures nodes[s].container == lists[h] <==> st.subs[s].home == h
      ensures st.subs[s].home == h ==>
        && k < |lists[h].items| == |Queue(st, h)| && lists[h].items[k] == nodes[s] && Queue(st, h)[k] == s
        && Distinct(Queue(st, h))
    {
      k := 0;
      assert MarkedAt(s, st.subs[s].home) && ListHolds(h, Queue(st, h));
      if st.subs[s].home == h {
        assert ListOk(st, Queue(st, h), h);
        k :| 0 <= k < |Queue(st, h)| && Queue(st, h)[k] == s;
        var x := lists[h].items[k];
        assert x in lists[h].items;
        var r :| r in nodes && nodes[r] == x;
      }
    }

    /** DList::remove: takes out a subscriber that is marked as being in list h. */
    method Remove(h: Home, s: nat, ghost st: State, ghost st': State)
      requires Represents(st) && ListsOk(st) && h in lists && s in nodes
      requires if st.subs[s].home == h then ListChanged(st, st', h, Without(Queue(st, h), s), s, Nowhere) else st' == st
      modifies lists.Values, nodes.Values
      ensures Represents(st')
    {
      hide ListsOk, Without;
      ghost var k := IndexOf(st, h, s);
      assert ListHolds(h, Queue(st, h));
      var list, node := lists[h], nodes[s];
      if node.container == list { AllApart(st, h, node); }
      var found := list.Remove(node, k);
      if found {
        OthersStay(st, h, node);
        WithoutAt(Queue(st, h), k);
        RemoveDone(st, st', h, s, k);
      } else {
        NothingDone(st);
      }
    }

    twostate lemma RemoveDone(st: State, new st': State, new h: Home, new s: nat, new k: nat)
      requires old(Represents(st)) && h in lists && s in nodes && k < |old(lists[h].items)| && k < |Queue(st, h)|
      requires ListChanged(st, st', h, Queue(st, h)[..k] + Queue(st, h)[k + 1..], s, Nowhere)
      requires old(lists[h].items)[k] == nodes[s] && nodes[s].container == null && nodes[s] !in lists[h].items
      requires lists[h].Valid() && lists[h].items == old(lists[h].items)[..k] + old(lists[h].items)[k + 1..]
      requires forall g :: g in lists && g != h ==> ListHolds(g, Queue(st, g))
      requires forall y :: y in nodes.Values && y !in old(lists[h].items) ==> unchanged(y)
      ensures Represents(st')
    {
      assert old(ListHolds(h, Queue(st, h)));
      ShorterHolds(h, old(lists[h].items), Queue(st, h), k);
      assert Nowhere !in lists;
      forall r | r in nodes ensures MarkedAt(r, st'.subs[r].home) {
        assert old(MarkedAt(r, st.subs[r].home));
        if nodes[r] in old(lists[h].items) && r != s {
          StillIn(old(lists[h].items), k, nodes[r]);
          assert nodes[r].container == lists[h];
        }
      }
    }

    lemma ShorterHolds(h: Home, was: seq<DL.DictItem<nat>>, q: seq<nat>, k: nat)
      requires h in lists && lists[h].Valid() && |was| == |q| && k < |q|
      requires lists[h].items == was[..k] + was[k + 1..]
      requires forall x :: x in was ==> x in nodes.Values
      requires forall i :: 0 <= i < |q| ==> was[i].key == q[i]
      ensures ListHolds(h, q[..k] + q[k + 1..])
    {
      var r := q[..k] + q[k + 1..];
      forall i | 0 <= i < |r| ensures lists[h].items[i].key == r[i] {
        var j := if i < k then i else i + 1;
        assert lists[h].items[i] == was[j] && r[i] == q[j];
      }
    }

    lemma StillIn(was: seq<DL.DictItem<nat>>, k: nat, x: DL.DictItem<nat>)
      requires k < |was| && x in was && x != was[k]
      ensures x in was[..k] + was[k + 1..]
    {
      var i :| 0 <= i < |was| && was[i] == x;
      assert (was[..k] + was[k + 1..])[if i < k then i else i - 1] == x;
    }

    // ---------------------------------------------- the operations of the protocol

    method PutInPoint(p: nat, s: nat, ghost st: State)
      requires Represents(st) && p in st.points && s in st.subs
      requires st.subs[s].home != Nowhere ==> HasList(st, st.subs[s].home)
      modifies lists.Values, nodes.Values
      ensures Represents(PutPoint(st, p, s))
    {
      Start(st, AtPoint(p), s);
      if st.subs[s].home == Nowhere { PutPointChanges(st, p, s); }
      Put(AtPoint(p), s, st, if st.subs[s].home == Nowhere then PutPoint(st, p, s) else st);
      if st.subs[s].home != Nowhere { FatalSame(st); }
    }

    lemma Start(st: State, h: Home, s: nat)
      requires Represents(st) && HasList(st, h) && s in st.subs
      ensures h in lists && s in nodes && Nowhere !in lists
      ensures st.subs[s].home in lists <==> HasList(st, st.subs[s].home)
    {
    }

    lemma FatalSame(st: State)
      requires Represents(st)
      ensures Represents(st.(fatal := true))
    {
      var st' := st.(fatal := true);
      assert forall h :: HasList(st', h) <==> HasList(st, h);
      assert forall h :: HasList(st, h) ==> Queue(st', h) == Queue(st, h);
    }

    method RemoveFromPoint(p: nat, s: nat, ghost st: State)
      requires Represents(st) && ListsOk(st) && p in st.points && s in st.subs
      modifies lists.Values, nodes.Values
      ensures Represents(DropPoint(st, p, s))
    {
      hide ListsOk;
      Start(st, AtPoint(p), s);
      if st.subs[s].home == AtPoint(p) { DropPointChanges(st, p, s); }
      Remove(AtPoint(p), s, st, DropPoint(st, p, s));
    }

    method PutInLoop(l: nat, s: nat, ghost st: State)
      requires Represents(st) && l in st.loops && s in st.subs
      requires st.subs[s].home != Nowhere ==> HasList(st, st.subs[s].home)
      modifies lists.Values, nodes.Values
      ensures Represents(PutLoop(st, l, s))
    {
      Start(st, AtLoop(l), s);
      if st.subs[s].home == Nowhere { PutLoopChanges(st, l, s); }
      Put(AtLoop(l), s, st, if st.subs[s].home == Nowhere then PutLoop(st, l, s) else st);
      if st.subs[s].home != Nowhere { FatalSame(st); }
    }

    method RemoveFromLoop(l: nat, s: nat, ghost st: State)
      requires Represents(st) && ListsOk(st) && l in st.loops && s in st.subs
      modifies lists.Values, nodes.Values
      ensures Represents(DropLoop(st, l, s))
    {
      hide ListsOk;
      Start(st, AtLoop(l), s);
      if st.subs[s].home == AtLoop(l) { DropLoopChanges(st, l, s); }
      Remove(AtLoop(l), s, st, DropLoop(st, l, s));
    }

    /** What a writer finds first in a point's list, and a loop in its queue: get's first half. */
    method First(h: Home, ghost st: State) returns (s: Option<nat>)
      requires Represents(st) && HasList(st, h)
      ensures s == if Queue(st, h) == [] then None else Some(Queue(st, h)[0])
    {
      assert ListHolds(h, Queue(st, h));
      var node := lists[h].head;
      if node == null { return None; }
      return Some(node.key);
    }

    /** Locks and the like are not represented. */
    lemma RepresentsSame(st: State, st': State)
      requires Represents(st) && st'.points == st.points && st'.subs == st.subs && st'.loops.Keys == st.loops.Keys
      requires forall l :: l in st.loops ==> st'.loops[l].pending == st.loops[l].pending
      ensures Represents(st')
    {
      assert forall h :: HasList(st', h) <==> HasList(st, h);
      assert forall h :: HasList(st, h) ==> Queue(st', h) == Queue(st, h);
    }

    /** The protocol's step from a point's list to a loop's queue, on the lists in memory. */
    method TakeNextInMemory(cfg: Config, t: Thread, p: nat, ghost st: State)
      requires Inv(cfg, st) && Represents(st) && Enabled(cfg, st, TakeNext(t, p))
      modifies lists.Values, nodes.Values
      ensures Represents(Next(cfg, st, TakeNext(t, p)))
    {
      hide Inv, Next, DropPoint, PutLoop, Represents, Enabled, ListsOk, Drains;
      TakeNextSame(cfg, st, t, p);
      var first := First(AtPoint(p), st);
      var s := first.value;
      RemoveFromPoint(p, s, st);
      PutInLoop(cfg.loopOf[s], s, DropPoint(st, p, s));
      RepresentsSame(PutLoop(DropPoint(st, p, s), cfg.loopOf[s], s), Next(cfg, st, TakeNext(t, p)));
    }

    /** A loop takes its next subscriber; the number it returns is the one the protocol has in hand. */
    method DequeueInMemory(cfg: Config, l: nat, ghost st: State) returns (s: nat)
      requires Inv(cfg, st) && Represents(st) && Enabled(cfg, st, Dequeue(l))
      modifies lists.Values, nodes.Values
      ensures l in st.loops && st.loops[l].pending != [] && s == st.loops[l].pending[0]
      ensures Represents(Next(cfg, st, Dequeue(l)))
    {
      hide Inv, Next, DropLoop, Represents, Enabled, ListsOk;
      DequeueSame(cfg, st, l);
      var first := First(AtLoop(l), st);
      s := first.value;
      RemoveFromLoop(l, s, st);
      RepresentsSame(DropLoop(st, l, s), Next(cfg, st, Dequeue(l)));
    }
  }

  lemma DequeueSame(cfg: Config, st: State, l: nat)
    requires Inv(cfg, st) && Enabled(cfg, st, Dequeue(l))
    ensures l in st.loops && st.loops[l].pending != [] && Shaped(cfg, st) && ListsOk(st)
    ensures st.loops[l].pending[0] in st.subs
    ensures var st1, st' := DropLoop(st, l, st.loops[l].pending[0]), Next(cfg, st, Dequeue(l));
      && st'.points == st1.points && st'.subs == st1.subs && st'.loops.Keys == st1.loops.Keys
      && forall k :: k in st1.loops ==> st'.loops[k].pending == st1.loops[k].pending
  {
    hide Inv, ListsOk, SubOk, DropLoop;
    HeadIsQueued(cfg, st, l);
    SubIs(cfg, st, st.loops[l].pending[0]);
  }

  lemma TakeNextSame(cfg: Config, st: State, t: Thread, p: nat)
    requires Inv(cfg, st) && Enabled(cfg, st, TakeNext(t, p))
    ensures p in st.points && st.points[p].subscribers != [] && Shaped(cfg, st)
    ensures var s := st.points[p].subscribers[0];
      && s in st.subs && s in cfg.loopOf && cfg.loopOf[s] in st.loops && p in st.points && ListsOk(st)
      && var st1, st' := DropPoint(st, p, s), Next(cfg, st, TakeNext(t, p));
         && s in st1.subs && st1.subs[s].home == Nowhere && cfg.loopOf[s] in st1.loops
         && var st2 := PutLoop(st1, cfg.loopOf[s], s);
            st'.points == st2.points && st'.loops == st2.loops && st'.subs == st2.subs
  {
    HeadIsIdle(cfg, st, t, p);
    hide ListsOk, LocksOk, LoopsOk, VersionsOk, SubOk, Without;
  }
}
