/** The change-notification protocol of src/Cpl/Dm as a transition system: model points,
    subscribers, event loops and writer threads, at the granularity of the two locks.

    The database lock is held for a whole update, so between two other steps of the same
    database nothing is ever half done; the global lock only covers single operations on a
    loop's pending list, so a loop can dequeue in the middle of somebody's update. Attaching,
    detaching and notifying a subscriber all run on its own loop's thread. */
module Notification {
  import opened Basics
  import opened SequenceNumbers

  /** The five states of a subscriber. */
  datatype Fsm = Unsubscribed | Idle | Pending | Notifying | PendingDetach

  datatype Event = Attaching | Detaching | NotifyStarting | NotifyComplete | DataChanged

  /** m_inListPtr_: the one list an item is marked as being in. */
  datatype Home = Nowhere | AtPoint(p: nat) | AtLoop(l: nat)

  /** known is the version of the point's data the subscriber last learnt of, if it is known. */
  datatype Sub = Sub(state: Fsm, point: Option<nat>, seqNum: nat, known: Option<nat>, home: Home)

  /** version counts the changes; seqNum is what the code keeps of it. */
  datatype Point = Point(seqNum: nat, version: nat, subscribers: seq<nat>)

  /** inHand: dequeued, its eNOTIFYING event not yet sent. callback: the subscriber whose
      callback runs, and the point it runs for. */
  datatype Loop = Loop(pending: seq<nat>, inHand: Option<nat>, callback: Option<(nat, nat)>)

  /** Loop threads run callbacks, which may write too; any other thread only writes. */
  datatype Thread = OfLoop(l: nat) | Other(id: nat)

  /** The database lock: free, or held by the thread that updates a point. Marking stands
      between lines 539 and 540: subscriber s is enqueued but not yet in the Pending state. */
  datatype Lock = Free | Draining(t: Thread, p: nat) | Marking(t: Thread, p: nat, s: nat)

  datatype Config = Config(dbOf: map<nat, nat>, loopOf: map<nat, nat>)

  datatype State = State(
    points: map<nat, Point>, subs: map<nat, Sub>, loops: map<nat, Loop>, locks: map<nat, Lock>,
    fatal: bool)

  /** The lists and maps belong together. */
  ghost predicate Shaped(cfg: Config, st: State) {
    && st.points.Keys == cfg.dbOf.Keys && st.subs.Keys == cfg.loopOf.Keys
    && (forall p :: p in cfg.dbOf ==> cfg.dbOf[p] in st.locks)
    && (forall s :: s in cfg.loopOf ==> cfg.loopOf[s] in st.loops)
  }

  // --------------------------------------------------------------------- the lists

  function Without(q: seq<nat>, s: nat): seq<nat> {
    if q == [] then [] else if q[0] == s then q[1..] else [q[0]] + Without(q[1..], s)
  }

  ghost predicate Distinct(q: seq<nat>) {
    forall i, j :: 0 <= i < j < |q| ==> q[i] != q[j]
  }

  lemma {:induction false} WithoutKeeps(q: seq<nat>, s: nat)
    requires Distinct(q)
    ensures Distinct(Without(q, s))
    ensures forall x :: x in Without(q, s) <==> x in q && x != s
  {
    if q != [] {
      assert q == [q[0]] + q[1..] && q[0] !in q[1..];
      if q[0] != s {
        WithoutKeeps(q[1..], s);
        DistinctCons(q[0], Without(q[1..], s));
      }
    }
  }

  lemma DistinctCons(x: nat, q: seq<nat>)
    requires Distinct(q) && x !in q
    ensures Distinct([x] + q) && Distinct(q + [x])
  {
    var r := [x] + q;
    forall i, j | 0 <= i < j < |r| ensures r[i] != r[j] {
      assert r[j] == q[j - 1];
    }
  }

  ghost predicate SameKeys(st: State, st': State) {
    && st'.points.Keys == st.points.Keys && st'.subs.Keys == st.subs.Keys
    && st'.loops.Keys == st.loops.Keys && st'.locks.Keys == st.locks.Keys
  }

  /** DList::put on a point's list; a double insert is a fatal error and inserts nothing. */
  function PutPoint(st: State, p: nat, s: nat): (r: State)
    requires p in st.points && s in st.subs
    ensures SameKeys(st, r)
  {
    if st.subs[s].home != Nowhere then st.(fatal := true)
    else st.(points := st.points[p := st.points[p].(subscribers := st.points[p].subscribers + [s])],
             subs := st.subs[s := st.subs[s].(home := AtPoint(p))])
  }

  /** DList::remove on a point's list: nothing unless the item is marked as being in it. */
  function DropPoint(st: State, p: nat, s: nat): (r: State)
    requires p in st.points && s in st.subs
    ensures SameKeys(st, r)
  {
    if st.subs[s].home != AtPoint(p) then st
    else st.(points := st.points[p := st.points[p].(subscribers := Without(st.points[p].subscribers, s))],
             subs := st.subs[s := st.subs[s].(home := Nowhere)])
  }

  /** addPendingChangingNotification_. */
  function PutLoop(st: State, l: nat, s: nat): (r: State)
    requires l in st.loops && s in st.subs
    ensures SameKeys(st, r)
  {
    if st.subs[s].home != Nowhere then st.(fatal := true)
    else st.(loops := st.loops[l := st.loops[l].(pending := st.loops[l].pending + [s])],
             subs := st.subs[s := st.subs[s].(home := AtLoop(l))])
  }

  /** removePendingChangingNotification_. */
  function DropLoop(st: State, l: nat, s: nat): (r: State)
    requires l in st.loops && s in st.subs
    ensures SameKeys(st, r)
  {
    if st.subs[s].home != AtLoop(l) then st
    else st.(loops := st.loops[l := st.loops[l].(pending := Without(st.loops[l].pending, s))],
             subs := st.subs[s := st.subs[s].(home := Nowhere)])
  }

  function SetState(st: State, s: nat, state: Fsm): (r: State)
    requires s in st.subs
    ensures SameKeys(st, r)
  {
    st.(subs := st.subs[s := st.subs[s].(state := state)])
  }

  // ------------------------------------------------------- processSubscriptionEvent_

  /** transitionToNotifyPending, in one piece. */
  function ToPending(cfg: Config, st: State, s: nat): (r: State)
    requires s in st.subs && s in cfg.loopOf && cfg.loopOf[s] in st.loops
    ensures SameKeys(st, r)
  {
    SetState(PutLoop(st, cfg.loopOf[s], s), s, Pending)
  }

  /** transitionToSubscribed. */
  function ToSubscribed(cfg: Config, st: State, p: nat, s: nat): (r: State)
    requires s in st.subs && p in st.points && s in cfg.loopOf && cfg.loopOf[s] in st.loops
    ensures SameKeys(st, r)
  {
    var st1 := DropPoint(st, p, s);
    if st1.points[p].seqNum == st1.subs[s].seqNum then PutPoint(SetState(st1, s, Idle), p, s)
    else ToPending(cfg, st1, s)
  }

  /** The event table of model point p. */
  function Deliver(cfg: Config, st: State, p: nat, s: nat, e: Event): (r: State)
    requires s in st.subs && p in st.points && s in cfg.loopOf && cfg.loopOf[s] in st.loops
    ensures SameKeys(st, r)
  {
    var x := st.subs[s];
    match x.state
    case Unsubscribed =>
      (match e
       case Attaching => ToSubscribed(cfg, st, p, s)
       case DataChanged => st.(fatal := true)
       case _ => st)
    case Idle =>
      (match e
       case Attaching => ToSubscribed(cfg, st, p, s)
       case Detaching => SetState(DropPoint(st, p, s), s, Unsubscribed)
       case DataChanged => ToPending(cfg, st, s)
       case _ => st)
    case Pending =>
      (match e
       case Attaching => ToSubscribed(cfg, DropLoop(st, cfg.loopOf[s], s), p, s)
       case Detaching => SetState(DropLoop(st, cfg.loopOf[s], s), s, Unsubscribed)
       case NotifyStarting =>
         var y := x.(state := Notifying, seqNum := st.points[p].seqNum, known := Some(st.points[p].version));
         st.(subs := st.subs[s := y])
       case DataChanged => st.(fatal := true)
       case _ => st)
    case Notifying =>
      (match e
       case Detaching => SetState(st, s, PendingDetach)
       case NotifyComplete => ToSubscribed(cfg, st, p, s)
       case DataChanged => st.(fatal := true)
       case _ => st)
    case PendingDetach =>
      (match e
       case Attaching => SetState(st, s, Notifying)
       case NotifyComplete => SetState(st, s, Unsubscribed)
       case DataChanged => st.(fatal := true)
       case _ => st)
  }

  // --------------------------------------------------------------------------- steps

  datatype Step =
    | StartWrite(t: Thread, p: nat)              // writeData, setInvalid, touch, importData: lock, change, advance
    | TakeNext(t: Thread, p: nat)                // get() from m_subscribers, eDATA_CHANGED up to line 539
    | Mark(t: Thread, p: nat)                    // line 540
    | EndWrite(t: Thread, p: nat)                // the list is drained: unlock
    | Dequeue(l: nat)                            // processChangeNotifications: get() under the global lock
    | BeginNotify(l: nat)                        // getModelPoint_, eNOTIFYING
    | EndNotify(l: nat)                          // eNOTIFY_COMPLETE
    | Attach(l: nat, s: nat, p: nat, seqNum: nat, known: Option<nat>)   // attachSubscriber
    | Detach(l: nat, s: nat, p: nat)             // detachSubscriber

  /** The thread holds no database lock. */
  predicate HandsFree(st: State, t: Thread) {
    forall d :: d in st.locks ==> st.locks[d].Free? || st.locks[d].t != t
  }

  predicate Unlocked(cfg: Config, st: State, p: nat) {
    p in cfg.dbOf && cfg.dbOf[p] in st.locks && st.locks[cfg.dbOf[p]] == Free
  }

  /** A loop's thread may run application code: no notification step of its own is half done. */
  predicate AtLiberty(st: State, l: nat) {
    l in st.loops && st.loops[l].inHand == None && HandsFree(st, OfLoop(l))
  }

  /** A subscriber is bound to one model point until its detach completes, and is not
      rebound inside its own callback. */
  predicate MayBind(st: State, l: nat, s: nat, p: nat)
    requires s in st.subs && l in st.loops
  {
    && (st.subs[s].point == None || st.subs[s].point == Some(p))
    && (st.loops[l].callback.Some? && st.loops[l].callback.value.0 == s ==> st.loops[l].callback.value.1 == p)
  }

  /** Thread t holds the database lock and is draining the list of p. */
  predicate Drains(cfg: Config, st: State, t: Thread, p: nat) {
    p in st.points && p in cfg.dbOf && cfg.dbOf[p] in st.locks && st.locks[cfg.dbOf[p]] == Draining(t, p)
  }

  predicate Marks(cfg: Config, st: State, t: Thread, p: nat) {
    && p in cfg.dbOf && cfg.dbOf[p] in st.locks && st.locks[cfg.dbOf[p]].Marking?
    && st.locks[cfg.dbOf[p]].t == t && st.locks[cfg.dbOf[p]].p == p
  }

  predicate MayCall(cfg: Config, st: State, l: nat, s: nat, p: nat) {
    && s in cfg.loopOf && cfg.loopOf[s] == l && AtLiberty(st, l) && s in st.subs
    && p in st.points && Unlocked(cfg, st, p) && MayBind(st, l, s, p)
  }

  predicate MayBegin(cfg: Config, st: State, l: nat) {
    && l in st.loops && st.loops[l].inHand.Some? && st.loops[l].inHand.value in st.subs
    && var x := st.subs[st.loops[l].inHand.value]; x.point.Some? ==> Unlocked(cfg, st, x.point.value)
  }

  /** When a step can be taken; what the code does in it is Next. */
  predicate Enabled(cfg: Config, st: State, step: Step) {
    match step
    case StartWrite(t, p) =>
      p in st.points && Unlocked(cfg, st, p) && HandsFree(st, t) && (t.OfLoop? ==> AtLiberty(st, t.l))
    case TakeNext(t, p) => Drains(cfg, st, t, p) && st.points[p].subscribers != []
    case Mark(t, p) => Marks(cfg, st, t, p)
    case EndWrite(t, p) => Drains(cfg, st, t, p) && st.points[p].subscribers == []
    case Dequeue(l) => AtLiberty(st, l) && st.loops[l].callback == None && st.loops[l].pending != []
    case BeginNotify(l) => MayBegin(cfg, st, l)
    case EndNotify(l) =>
      AtLiberty(st, l) && st.loops[l].callback.Some? && Unlocked(cfg, st, st.loops[l].callback.value.1)
    case Attach(l, s, p, q, v) =>
      MayCall(cfg, st, l, s, p) && (v.Some? ==> v.value <= st.points[p].version && q == SeqOf(v.value))
    case Detach(l, s, p) => MayCall(cfg, st, l, s, p)
  }

  function Next(cfg: Config, st: State, step: Step): State
    requires Shaped(cfg, st) && Enabled(cfg, st, step)
  {
    match step
    case StartWrite(t, p) =>
      var x := st.points[p];
      st.(points := st.points[p := x.(seqNum := Advance(x.seqNum), version := x.version + 1)],
          locks := st.locks[cfg.dbOf[p] := Draining(t, p)])
    case TakeNext(t, p) =>
      var s := st.points[p].subscribers[0];
      if s !in st.subs then st.(fatal := true) else
      var st1 := DropPoint(st, p, s);
      if st1.subs[s].state == Idle then
        PutLoop(st1, cfg.loopOf[s], s).(locks := st.locks[cfg.dbOf[p] := Marking(t, p, s)])
      else st1.(fatal := true)
    case Mark(t, p) =>
      var s := st.locks[cfg.dbOf[p]].s;
      if s !in st.subs then st.(fatal := true) else
      SetState(st, s, Pending).(locks := st.locks[cfg.dbOf[p] := Draining(t, p)])
    case EndWrite(t, p) => st.(locks := st.locks[cfg.dbOf[p] := Free])
    case Dequeue(l) =>
      var s := st.loops[l].pending[0];
      if s !in st.subs then st.(fatal := true) else
      var st1 := DropLoop(st, l, s);
      st1.(loops := st1.loops[l := st1.loops[l].(inHand := Some(s))])
    case BeginNotify(l) =>
      var s := st.loops[l].inHand.value;
      if st.subs[s].point == None || st.subs[s].point.value !in st.points then st.(fatal := true) else
      var p := st.subs[s].point.value;
      Deliver(cfg, st, p, s, NotifyStarting)
        .(loops := st.loops[l := st.loops[l].(inHand := None, callback := Some((s, p)))])
    case EndNotify(l) =>
      var (s, p) := st.loops[l].callback.value;
      if s !in st.subs || p !in st.points then st.(fatal := true) else
      Deliver(cfg, st.(loops := st.loops[l := st.loops[l].(callback := None)]), p, s, NotifyComplete)
    case Attach(l, s, p, q, v) =>
      var st1 := st.(subs := st.subs[s := st.subs[s].(seqNum := q, known := v, point := Some(p))]);
      Deliver(cfg, st1, p, s, Attaching)
    case Detach(l, s, p) =>
      var st1 := Deliver(cfg, st, p, s, Detaching);
      st1.(subs := st1.subs[s := st1.subs[s].(point := None)])
  }

  // ----------------------------------------------------------------------- invariant

  /** Somebody is updating point p. */
  ghost predicate Busy(cfg: Config, st: State, p: nat)
    requires Shaped(cfg, st) && p in st.points
  {
    var k := st.locks[cfg.dbOf[p]];
    !k.Free? && k.p == p
  }

  /** Subscriber s stands between lines 539 and 540. */
  ghost predicate HalfMarked(cfg: Config, st: State, p: nat, s: nat)
    requires Shaped(cfg, st) && p in st.points
  {
    var k := st.locks[cfg.dbOf[p]];
    k.Marking? && k.p == p && k.s == s
  }

  ghost predicate HasInHand(cfg: Config, st: State, s: nat)
    requires Shaped(cfg, st) && s in st.subs
  {
    st.loops[cfg.loopOf[s]].inHand == Some(s)
  }

  ghost predicate RunsCallback(cfg: Config, st: State, s: nat)
    requires Shaped(cfg, st) && s in st.subs
  {
    var k := st.loops[cfg.loopOf[s]].callback;
    k.Some? && k.value.0 == s
  }

  /** Queued at its own loop, or just dequeued by it. */
  ghost predicate Queued(cfg: Config, st: State, s: nat)
    requires Shaped(cfg, st) && s in st.subs
  {
    if HasInHand(cfg, st, s) then st.subs[s].home == Nowhere else st.subs[s].home == AtLoop(cfg.loopOf[s])
  }

  /** Where a subscriber is, state by state. */
  ghost predicate SubOk(cfg: Config, st: State, s: nat)
    requires Shaped(cfg, st) && s in st.subs
  {
    var x := st.subs[s];
    && (x.point.Some? ==> x.point.value in st.points)
    && match x.state
       case Unsubscribed =>
         x.point == None && x.home == Nowhere && !HasInHand(cfg, st, s) && !RunsCallback(cfg, st, s)
       case Idle =>
         && x.point.Some? && !RunsCallback(cfg, st, s)
         && var p := x.point.value;
            if HalfMarked(cfg, st, p, s) then Queued(cfg, st, s)
            else && x.home == AtPoint(p) && !HasInHand(cfg, st, s)
                 && (Busy(cfg, st, p) || x.seqNum == st.points[p].seqNum)
       case Pending =>
         x.point.Some? && Queued(cfg, st, s) && !RunsCallback(cfg, st, s)
       case Notifying =>
         && x.point.Some? && x.home == Nowhere && !HasInHand(cfg, st, s)
         && st.loops[cfg.loopOf[s]].callback == Some((s, x.point.value))
       case PendingDetach =>
         x.point == None && x.home == Nowhere && !HasInHand(cfg, st, s) && RunsCallback(cfg, st, s)
  }

  /** The lists hold exactly the subscribers marked as being in them, once each. */
  ghost predicate ListsOk(st: State) {
    && (forall p :: p in st.points ==> ListOk(st, st.points[p].subscribers, AtPoint(p)))
    && (forall l :: l in st.loops ==> ListOk(st, st.loops[l].pending, AtLoop(l)))
  }

  ghost predicate ListOk(st: State, q: seq<nat>, home: Home) {
    Distinct(q) && forall s :: s in q <==> s in st.subs && st.subs[s].home == home
  }

  ghost predicate LocksOk(cfg: Config, st: State)
    requires Shaped(cfg, st)
  {
    forall d :: d in st.locks && !st.locks[d].Free? ==>
      && var k := st.locks[d];
         && k.p in st.points && cfg.dbOf[k.p] == d
         && (k.Marking? ==> k.s in st.subs && st.subs[k.s].state == Idle && st.subs[k.s].point == Some(k.p))
  }

  ghost predicate LoopsOk(cfg: Config, st: State)
    requires Shaped(cfg, st)
  {
    forall l :: l in st.loops ==> LoopOk(cfg, st, l)
  }

  ghost predicate LoopOk(cfg: Config, st: State, l: nat)
    requires Shaped(cfg, st) && l in st.loops
  {
    var k := st.loops[l];
    && (k.inHand.Some? ==>
      && k.callback == None && k.inHand.value in st.subs && cfg.loopOf[k.inHand.value] == l
      && st.subs[k.inHand.value].state in {Idle, Pending})
    && (k.callback.Some? ==>
      && k.callback.value.0 in st.subs && k.callback.value.1 in st.points && cfg.loopOf[k.callback.value.0] == l
      && st.subs[k.callback.value.0].state in {Notifying, PendingDetach})
  }

  ghost predicate VersionsOk(st: State) {
    && (forall p :: p in st.points ==> st.points[p].seqNum == SeqOf(st.points[p].version))
    && (forall s :: s in st.subs && st.subs[s].known.Some? ==> st.subs[s].seqNum == SeqOf(st.subs[s].known.value))
    && (forall s |
          && s in st.subs && st.subs[s].known.Some?
          && st.subs[s].point.Some? && st.subs[s].point.value in st.points ::
          st.subs[s].known.value <= st.points[st.subs[s].point.value].version)
  }

  ghost predicate Inv(cfg: Config, st: State) {
    && Shaped(cfg, st) && !st.fatal && ListsOk(st) && LocksOk(cfg, st) && LoopsOk(cfg, st) && VersionsOk(st)
    && forall s :: s in st.subs ==> SubOk(cfg, st, s)
  }

  // ------------------------------------------------------- what one delivery changes

  /** st' differs from st in subscriber s and in list contents only. */
  ghost predicate OnlySub(st: State, st': State, s: nat) {
    && st'.points.Keys == st.points.Keys && st'.subs.Keys == st.subs.Keys && st'.loops.Keys == st.loops.Keys
    && st'.locks == st.locks && st'.fatal == st.fatal
    && (forall p :: p in st.points ==>
         st'.points[p].seqNum == st.points[p].seqNum && st'.points[p].version == st.points[p].version)
    && (forall l :: l in st.loops ==>
         st'.loops[l].inHand == st.loops[l].inHand && st'.loops[l].callback == st.loops[l].callback)
    && (forall r :: r in st.subs && r != s ==> st'.subs[r] == st.subs[r])
  }

  lemma OnlySubTrans(a: State, b: State, c: State, s: nat)
    requires OnlySub(a, b, s) && OnlySub(b, c, s)
    ensures OnlySub(a, c, s)
  {
  }

  lemma OnlySubFacts(cfg: Config, st: State, st': State, p: nat, s: nat)
    requires Shaped(cfg, st) && OnlySub(st, st', s) && p in st.points
    ensures Shaped(cfg, st') && p in st'.points && st'.points[p].seqNum == st.points[p].seqNum
  {
  }

  lemma ListAppend(st: State, st': State, q: seq<nat>, s: nat, home: Home)
    requires s in st.subs && ListOk(st, q, home) && st.subs[s].home == Nowhere && home != Nowhere
    requires st'.subs == st.subs[s := st.subs[s].(home := home)]
    ensures ListOk(st', q + [s], home)
  {
    DistinctCons(s, q);
  }

  lemma ListWithout(st: State, st': State, q: seq<nat>, s: nat, home: Home)
    requires s in st.subs && ListOk(st, q, home) && st.subs[s].home == home && home != Nowhere
    requires st'.subs == st.subs[s := st.subs[s].(home := Nowhere)]
    ensures ListOk(st', Without(q, s), home)
  {
    WithoutKeeps(q, s);
  }

  /** A list that s neither enters nor leaves. */
  lemma ListOther(st: State, st': State, q: seq<nat>, s: nat, home: Home)
    requires s in st.subs && ListOk(st, q, home) && st.subs[s].home != home
    requires s in st'.subs && st'.subs == st.subs[s := st'.subs[s]] && st'.subs[s].home != home
    ensures ListOk(st', q, home)
  {
  }

  lemma PutPointResult(st: State, p: nat, s: nat)
    requires p in st.points && s in st.subs && ListsOk(st) && st.subs[s].home == Nowhere
    ensures var st' := PutPoint(st, p, s);
      s in st'.subs && ListsOk(st') && OnlySub(st, st', s) && st'.subs[s] == st.subs[s].(home := AtPoint(p))
  {
    var st' := PutPoint(st, p, s);
    ListAppend(st, st', st.points[p].subscribers, s, AtPoint(p));
    OthersStay(st, st', s, AtPoint(p));
  }

  /** The lists named by neither the old nor the new mark of s. */
  lemma OthersStay(st: State, st': State, s: nat, home: Home)
    requires s in st.subs && ListsOk(st) && st.subs[s].home in {Nowhere, home}
    requires s in st'.subs && st'.subs == st.subs[s := st'.subs[s]] && st'.subs[s].home in {Nowhere, home}
    ensures forall p :: p in st.points && AtPoint(p) != home ==> ListOk(st', st.points[p].subscribers, AtPoint(p))
    ensures forall l :: l in st.loops && AtLoop(l) != home ==> ListOk(st', st.loops[l].pending, AtLoop(l))
  {
    forall p | p in st.points && AtPoint(p) != home ensures ListOk(st', st.points[p].subscribers, AtPoint(p)) {
      ListOther(st, st', st.points[p].subscribers, s, AtPoint(p));
    }
    forall l | l in st.loops && AtLoop(l) != home ensures ListOk(st', st.loops[l].pending, AtLoop(l)) {
      ListOther(st, st', st.loops[l].pending, s, AtLoop(l));
    }
  }

  lemma DropPointResult(st: State, p: nat, s: nat)
    requires p in st.points && s in st.subs && ListsOk(st)
    ensures var st' := DropPoint(st, p, s);
      && s in st'.subs && ListsOk(st') && OnlySub(st, st', s)
      && st'.subs[s] == st.subs[s].(home := if st.subs[s].home == AtPoint(p) then Nowhere else st.subs[s].home)
  {
    hide ListOk;
    if st.subs[s].home == AtPoint(p) {
      ListWithout(st, DropPoint(st, p, s), st.points[p].subscribers, s, AtPoint(p));
      OthersStay(st, DropPoint(st, p, s), s, AtPoint(p));
    }
  }

  lemma PutLoopResult(st: State, l: nat, s: nat)
    requires l in st.loops && s in st.subs && ListsOk(st) && st.subs[s].home == Nowhere
    ensures var st' := PutLoop(st, l, s);
      s in st'.subs && ListsOk(st') && OnlySub(st, st', s) && st'.subs[s] == st.subs[s].(home := AtLoop(l))
  {
    ListAppend(st, PutLoop(st, l, s), st.loops[l].pending, s, AtLoop(l));
    OthersStay(st, PutLoop(st, l, s), s, AtLoop(l));
    hide ListOk;
  }

  lemma DropLoopResult(st: State, l: nat, s: nat)
    requires l in st.loops && s in st.subs && ListsOk(st)
    ensures var st' := DropLoop(st, l, s);
      && s in st'.subs && ListsOk(st') && OnlySub(st, st', s)
      && st'.subs[s] == st.subs[s].(home := if st.subs[s].home == AtLoop(l) then Nowhere else st.subs[s].home)
  {
    hide ListOk;
    if st.subs[s].home == AtLoop(l) {
      ListWithout(st, DropLoop(st, l, s), st.loops[l].pending, s, AtLoop(l));
      OthersStay(st, DropLoop(st, l, s), s, AtLoop(l));
    }
  }

  lemma SetSubResult(st: State, s: nat, x: Sub)
    requires s in st.subs && ListsOk(st) && x.home == st.subs[s].home
    ensures var st' := st.(subs := st.subs[s := x]);
      ListsOk(st') && OnlySub(st, st', s)
  {
  }

  /** What transitionToSubscribed makes of a subscriber that is in no other list. */
  ghost function Subscribed(cfg: Config, st: State, p: nat, s: nat): Sub
    requires Shaped(cfg, st) && p in st.points && s in st.subs
  {
    if st.points[p].seqNum == st.subs[s].seqNum then st.subs[s].(state := Idle, home := AtPoint(p))
    else st.subs[s].(state := Pending, home := AtLoop(cfg.loopOf[s]))
  }

  lemma ToSubscribedResult(cfg: Config, st: State, p: nat, s: nat)
    requires Shaped(cfg, st) && p in st.points && s in st.subs && ListsOk(st)
    requires st.subs[s].home in {Nowhere, AtPoint(p)}
    ensures var st' := ToSubscribed(cfg, st, p, s);
      s in st'.subs && ListsOk(st') && OnlySub(st, st', s) && st'.subs[s] == Subscribed(cfg, st, p, s)
  {
    DropPointResult(st, p, s);
    var st1 := DropPoint(st, p, s);
    hide ListsOk, OnlySub, DropPoint, PutPoint, PutLoop;
    OnlySubFacts(cfg, st, st1, p, s);
    if st1.points[p].seqNum == st1.subs[s].seqNum {
      var st2 := SetState(st1, s, Idle);
      SetSubResult(st1, s, st1.subs[s].(state := Idle));
      PutPointResult(st2, p, s);
      OnlySubTrans(st, st1, st2, s);
      OnlySubTrans(st, st2, PutPoint(st2, p, s), s);
    } else {
      var st2 := PutLoop(st1, cfg.loopOf[s], s);
      PutLoopResult(st1, cfg.loopOf[s], s);
      SetSubResult(st2, s, st2.subs[s].(state := Pending));
      OnlySubTrans(st, st1, st2, s);
      OnlySubTrans(st, st2, SetState(st2, s, Pending), s);
    }
  }

  // --------------------------------------------------------------- every step keeps it

  /** What SubOk looks at, besides the subscriber itself. */
  ghost predicate SameSurroundings(cfg: Config, st: State, st': State, r: nat)
    requires Shaped(cfg, st) && Shaped(cfg, st') && r in st.subs
  {
    && (HasInHand(cfg, st, r) <==> HasInHand(cfg, st', r))
    && (RunsCallback(cfg, st, r) <==> RunsCallback(cfg, st', r))
    && (RunsCallback(cfg, st, r) ==> st'.loops[cfg.loopOf[r]].callback == st.loops[cfg.loopOf[r]].callback)
    && (st.subs[r].point.Some? && st.subs[r].point.value in st.points ==>
      var p := st.subs[r].point.value;
      && st'.points[p].seqNum == st.points[p].seqNum
      && (Busy(cfg, st, p) <==> Busy(cfg, st', p)) && (HalfMarked(cfg, st, p, r) <==> HalfMarked(cfg, st', p, r)))
  }

  lemma SubFrame(cfg: Config, st: State, st': State, r: nat)
    requires Shaped(cfg, st) && Shaped(cfg, st') && r in st.subs && SubOk(cfg, st, r)
    requires st'.subs[r] == st.subs[r] && SameSurroundings(cfg, st, st', r)
    ensures SubOk(cfg, st', r)
  {
  }

  lemma OthersOk(cfg: Config, st: State, st': State, s: nat)
    requires Shaped(cfg, st) && Shaped(cfg, st') && OnlySub(st, st', s)
    ensures forall r :: r in st.subs && r != s && SubOk(cfg, st, r) ==> SubOk(cfg, st', r)
  {
    hide SubOk;
    forall r | r in st.subs && r != s && SubOk(cfg, st, r) ensures SubOk(cfg, st', r) {
      SubFrame(cfg, st, st', r);
    }
  }

  lemma LoopsStay(cfg: Config, st: State, st': State, s: nat)
    requires Shaped(cfg, st) && Shaped(cfg, st') && s in st.subs && LoopsOk(cfg, st) && OnlySub(st, st', s)
    requires st.loops[cfg.loopOf[s]].inHand != Some(s)
    requires RunsCallback(cfg, st, s) ==> st'.subs[s].state in {Notifying, PendingDetach}
    ensures LoopsOk(cfg, st')
  {
    forall l | l in st'.loops ensures LoopOk(cfg, st', l) {
      assert LoopOk(cfg, st, l);
    }
  }

  lemma LocksStay(cfg: Config, st: State, st': State, s: nat)
    requires Shaped(cfg, st) && Shaped(cfg, st') && LocksOk(cfg, st) && OnlySub(st, st', s)
    requires forall d :: d in st.locks && st.locks[d].Marking? ==> st.locks[d].s != s
    ensures LocksOk(cfg, st')
  {
  }

  lemma VersionsStay(cfg: Config, st: State, st': State, s: nat)
    requires Shaped(cfg, st) && s in st.subs && VersionsOk(st) && OnlySub(st, st', s)
    requires var x := st'.subs[s]; x.known.Some? ==>
      x.seqNum == SeqOf(x.known.value) &&
      (x.point.Some? && x.point.value in st.points ==> x.known.value <= st.points[x.point.value].version)
    ensures VersionsOk(st')
  {
  }

  /** A step that changes one subscriber, not being marked by a writer nor held by its loop. */
  lemma OneSub(cfg: Config, st: State, st': State, s: nat)
    requires Inv(cfg, st) && s in st.subs && OnlySub(st, st', s) && ListsOk(st')
    requires Shaped(cfg, st') && SubOk(cfg, st', s)
    requires forall d :: d in st.locks && st.locks[d].Marking? ==> st.locks[d].s != s
    requires st.loops[cfg.loopOf[s]].inHand != Some(s)
    requires RunsCallback(cfg, st, s) ==> st'.subs[s].state in {Notifying, PendingDetach}
    requires var x := st'.subs[s]; x.known.Some? ==>
      x.seqNum == SeqOf(x.known.value) &&
      (x.point.Some? && x.point.value in st.points ==> x.known.value <= st.points[x.point.value].version)
    ensures Inv(cfg, st')
  {
    hide SubOk, ListsOk, LocksOk, LoopsOk, VersionsOk;
    OthersOk(cfg, st, st', s);
    LoopsStay(cfg, st, st', s);
    LocksStay(cfg, st, st', s);
    VersionsStay(cfg, st, st', s);
  }

  /** While its point is unlocked nobody is marking a subscriber. */
  lemma NotMarked(cfg: Config, st: State, s: nat, p: nat)
    requires Inv(cfg, st) && s in st.subs && Unlocked(cfg, st, p) && st.subs[s].point in {None, Some(p)}
    ensures forall d :: d in st.locks && st.locks[d].Marking? ==> st.locks[d].s != s
  {
  }

  // Attach and detach.

  /** The subscriber after attachSubscriber, state by state. */
  ghost function Attached(cfg: Config, st: State, p: nat, s: nat, q: nat, v: Option<nat>): Sub
    requires Shaped(cfg, st) && p in st.points && s in st.subs
  {
    var x := st.subs[s].(seqNum := q, known := v, point := Some(p));
    if x.state in {Notifying, PendingDetach} then x.(state := Notifying)
    else if st.points[p].seqNum == q then x.(state := Idle, home := AtPoint(p))
    else x.(state := Pending, home := AtLoop(cfg.loopOf[s]))
  }

  /** What the own thread of s finds when it may attach or detach it. */
  ghost predicate Callable(cfg: Config, st: State, l: nat, s: nat, p: nat) {
    && Shaped(cfg, st) && s in st.subs && p in st.points && cfg.loopOf[s] == l
    && st.loops[l].inHand == None && st.locks[cfg.dbOf[p]] == Free
    && match st.subs[s].state
       case Unsubscribed => st.subs[s].home == Nowhere && !RunsCallback(cfg, st, s)
       case Idle => st.subs[s].home == AtPoint(p) && !RunsCallback(cfg, st, s)
       case Pending => st.subs[s].home == AtLoop(l) && !RunsCallback(cfg, st, s)
       case _ => st.subs[s].home == Nowhere && st.loops[l].callback == Some((s, p))
  }

  lemma CallableNow(cfg: Config, st: State, l: nat, s: nat, p: nat)
    requires Inv(cfg, st) && MayCall(cfg, st, l, s, p)
    ensures Callable(cfg, st, l, s, p) && ListsOk(st)
    ensures forall d :: d in st.locks && st.locks[d].Marking? ==> st.locks[d].s != s
  {
    hide Inv, ListsOk;
    NotMarked(cfg, st, s, p);
    SubIs(cfg, st, s);
  }

  lemma SubIs(cfg: Config, st: State, s: nat)
    requires Inv(cfg, st) && s in st.subs
    ensures Shaped(cfg, st) && ListsOk(st) && SubOk(cfg, st, s)
  {
    hide ListsOk, LoopsOk, LocksOk, VersionsOk;
  }

  lemma AttachResult(cfg: Config, st: State, l: nat, s: nat, p: nat, q: nat, v: Option<nat>)
    requires Callable(cfg, st, l, s, p) && ListsOk(st)
    ensures var st1 := st.(subs := st.subs[s := st.subs[s].(seqNum := q, known := v, point := Some(p))]);
      var st' := Deliver(cfg, st1, p, s, Attaching);
      OnlySub(st, st', s) && ListsOk(st') && st'.subs[s] == Attached(cfg, st, p, s, q, v)
  {
    hide ListsOk, OnlySub, ToSubscribed, DropLoop;
    var x := st.subs[s].(seqNum := q, known := v, point := Some(p));
    var st1 := st.(subs := st.subs[s := x]);
    SetSubResult(st, s, x);
    var st' := Deliver(cfg, st1, p, s, Attaching);
    match st.subs[s].state {
      case Unsubscribed =>
        ToSubscribedResult(cfg, st1, p, s);
        OnlySubTrans(st, st1, st', s);
      case Idle =>
        ToSubscribedResult(cfg, st1, p, s);
        OnlySubTrans(st, st1, st', s);
      case Pending =>
        DropLoopResult(st1, l, s);
        OnlySubTrans(st, st1, DropLoop(st1, l, s), s);
        OnlySubFacts(cfg, st, DropLoop(st1, l, s), p, s);
        ToSubscribedResult(cfg, DropLoop(st1, l, s), p, s);
        OnlySubTrans(st, DropLoop(st1, l, s), st', s);
      case Notifying =>
      case PendingDetach =>
        SetSubResult(st1, s, x.(state := Notifying));
        OnlySubTrans(st, st1, st', s);
    }
  }

  lemma AttachSubOk(cfg: Config, st: State, st': State, l: nat, s: nat, p: nat, q: nat, v: Option<nat>)
    requires Callable(cfg, st, l, s, p) && OnlySub(st, st', s) && st'.subs[s] == Attached(cfg, st, p, s, q, v)
    ensures Shaped(cfg, st') && SubOk(cfg, st', s)
    ensures RunsCallback(cfg, st, s) ==> st'.subs[s].state in {Notifying, PendingDetach}
  {
    OnlySubFacts(cfg, st, st', p, s);
  }

  lemma AttachKeeps(cfg: Config, st: State, l: nat, s: nat, p: nat, q: nat, v: Option<nat>)
    requires Inv(cfg, st) && Enabled(cfg, st, Attach(l, s, p, q, v))
    ensures Inv(cfg, Next(cfg, st, Attach(l, s, p, q, v)))
  {
    hide Inv, ListsOk, Deliver, SubOk, OnlySub;
    CallableNow(cfg, st, l, s, p);
    AttachResult(cfg, st, l, s, p, q, v);
    var st' := Next(cfg, st, Attach(l, s, p, q, v));
    AttachSubOk(cfg, st, st', l, s, p, q, v);
    OneSub(cfg, st, st', s);
  }

  ghost function Detached(st: State, s: nat): Sub
    requires s in st.subs
  {
    var x := st.subs[s].(point := None, home := Nowhere);
    if x.state in {Notifying, PendingDetach} then x.(state := PendingDetach) else x.(state := Unsubscribed)
  }

  lemma DetachResult(cfg: Config, st: State, l: nat, s: nat, p: nat)
    requires Callable(cfg, st, l, s, p) && ListsOk(st)
    ensures var st1 := Deliver(cfg, st, p, s, Detaching);
      && s in st1.subs && var st' := st1.(subs := st1.subs[s := st1.subs[s].(point := None)]);
        OnlySub(st, st', s) && ListsOk(st') && st'.subs[s] == Detached(st, s)
  {
    hide ListsOk, OnlySub, DropLoop, DropPoint;
    var st1 := Deliver(cfg, st, p, s, Detaching);
    match st.subs[s].state {
      case Unsubscribed =>
        OnlySubRefl(st, s);
      case Idle =>
        DropPointResult(st, p, s);
        DropThenSet(st, DropPoint(st, p, s), s, Unsubscribed);
      case Pending =>
        DropLoopResult(st, l, s);
        DropThenSet(st, DropLoop(st, l, s), s, Unsubscribed);
      case Notifying =>
        OnlySubRefl(st, s);
        DropThenSet(st, st, s, PendingDetach);
      case PendingDetach =>
        OnlySubRefl(st, s);
    }
    SetSubResult(st1, s, st1.subs[s].(point := None));
    OnlySubTrans(st, st1, st1.(subs := st1.subs[s := st1.subs[s].(point := None)]), s);
  }

  lemma OnlySubRefl(st: State, s: nat)
    ensures OnlySub(st, st, s)
  {
  }

  lemma DropThenSet(st: State, st1: State, s: nat, state: Fsm)
    requires s in st.subs && s in st1.subs && OnlySub(st, st1, s) && ListsOk(st1)
    ensures OnlySub(st, SetState(st1, s, state), s) && ListsOk(SetState(st1, s, state))
  {
    hide ListsOk, OnlySub;
    SetSubResult(st1, s, st1.subs[s].(state := state));
    OnlySubTrans(st, st1, SetState(st1, s, state), s);
  }

  lemma DetachSubOk(cfg: Config, st: State, st': State, l: nat, s: nat, p: nat)
    requires Callable(cfg, st, l, s, p) && OnlySub(st, st', s) && st'.subs[s] == Detached(st, s)
    ensures Shaped(cfg, st') && SubOk(cfg, st', s)
    ensures RunsCallback(cfg, st, s) ==> st'.subs[s].state in {Notifying, PendingDetach}
  {
    OnlySubFacts(cfg, st, st', p, s);
  }

  lemma KnownIsRight(cfg: Config, st: State, s: nat)
    requires Inv(cfg, st) && s in st.subs && st.subs[s].known.Some?
    ensures st.subs[s].seqNum == SeqOf(st.subs[s].known.value)
  {
  }

  lemma DetachKeeps(cfg: Config, st: State, l: nat, s: nat, p: nat)
    requires Inv(cfg, st) && Enabled(cfg, st, Detach(l, s, p))
    ensures Inv(cfg, Next(cfg, st, Detach(l, s, p)))
  {
    hide Inv, ListsOk, Deliver, SubOk, OnlySub;
    CallableNow(cfg, st, l, s, p);
    DetachResult(cfg, st, l, s, p);
    var st' := Next(cfg, st, Detach(l, s, p));
    DetachSubOk(cfg, st, st', l, s, p);
    if st.subs[s].known.Some? { KnownIsRight(cfg, st, s); }
    OneSub(cfg, st, st', s);
  }

  // The writer's steps.

  lemma StartWriteSub(cfg: Config, st: State, t: Thread, p: nat, r: nat)
    requires Shaped(cfg, st) && Enabled(cfg, st, StartWrite(t, p)) && r in st.subs && SubOk(cfg, st, r)
    ensures Shaped(cfg, Next(cfg, st, StartWrite(t, p))) && SubOk(cfg, Next(cfg, st, StartWrite(t, p)), r)
  {
  }

  lemma LoopsSame(cfg: Config, st: State, st': State)
    requires Shaped(cfg, st) && Shaped(cfg, st') && LoopsOk(cfg, st) && st'.loops == st.loops
    requires forall s :: s in st.subs ==> st'.subs[s].state == st.subs[s].state
    ensures LoopsOk(cfg, st')
  {
    forall l | l in st'.loops ensures LoopOk(cfg, st', l) { assert LoopOk(cfg, st, l); }
  }

  lemma StartWriteVersions(cfg: Config, st: State, t: Thread, p: nat)
    requires Shaped(cfg, st) && VersionsOk(st) && Enabled(cfg, st, StartWrite(t, p))
    ensures VersionsOk(Next(cfg, st, StartWrite(t, p)))
  {
    AdvanceCounts(st.points[p].version);
  }

  lemma ListsSame(st: State, st': State)
    requires ListsOk(st) && st'.subs == st.subs && st'.points.Keys == st.points.Keys && st'.loops.Keys == st.loops.Keys
    requires forall p :: p in st.points ==> st'.points[p].subscribers == st.points[p].subscribers
    requires forall l :: l in st.loops ==> st'.loops[l].pending == st.loops[l].pending
    ensures ListsOk(st')
  {
  }

  lemma StartWriteKeeps(cfg: Config, st: State, t: Thread, p: nat)
    requires Inv(cfg, st) && Enabled(cfg, st, StartWrite(t, p))
    ensures Inv(cfg, Next(cfg, st, StartWrite(t, p)))
  {
    hide SubOk, LoopsOk, VersionsOk, ListOk;
    var st' := Next(cfg, st, StartWrite(t, p));
    assert Shaped(cfg, st');
    LoopsSame(cfg, st, st');
    StartWriteVersions(cfg, st, t, p);
    assert ListsOk(st') by { ListsSame(st, st'); }
    hide ListsOk;
    forall r | r in st'.subs ensures SubOk(cfg, st', r) {
      StartWriteSub(cfg, st, t, p, r);
    }
  }

  lemma EndWriteSub(cfg: Config, st: State, t: Thread, p: nat, r: nat)
    requires Shaped(cfg, st) && Enabled(cfg, st, EndWrite(t, p)) && r in st.subs && SubOk(cfg, st, r)
    requires ListOk(st, st.points[p].subscribers, AtPoint(p))
    ensures Shaped(cfg, Next(cfg, st, EndWrite(t, p))) && SubOk(cfg, Next(cfg, st, EndWrite(t, p)), r)
  {
  }

  lemma EndWriteKeeps(cfg: Config, st: State, t: Thread, p: nat)
    requires Inv(cfg, st) && Enabled(cfg, st, EndWrite(t, p))
    ensures Inv(cfg, Next(cfg, st, EndWrite(t, p)))
  {
    hide SubOk, LoopsOk, VersionsOk, ListOk;
    var st' := Next(cfg, st, EndWrite(t, p));
    assert Shaped(cfg, st');
    LoopsSame(cfg, st, st');
    SubsAndVersionsSame(st, st');
    forall r | r in st'.subs ensures SubOk(cfg, st', r) {
      EndWriteSub(cfg, st, t, p, r);
    }
    hide ListsOk;
  }

  lemma SubsAndVersionsSame(st: State, st': State)
    requires VersionsOk(st) && ListsOk(st)
    requires st'.points == st.points && st'.loops == st.loops && st'.subs.Keys == st.subs.Keys
    requires forall s :: s in st.subs ==> st'.subs[s] == st.subs[s].(state := st'.subs[s].state)
    ensures VersionsOk(st') && ListsOk(st')
  {
  }

  /** The head of a drained list: idle, bound to the point, and nowhere else. */
  lemma HeadIsIdle(cfg: Config, st: State, t: Thread, p: nat)
    requires Inv(cfg, st) && Enabled(cfg, st, TakeNext(t, p))
    ensures var s := st.points[p].subscribers[0];
      && s in st.subs && st.subs[s].state == Idle && st.subs[s].point == Some(p) && st.subs[s].home == AtPoint(p)
      && !HasInHand(cfg, st, s) && !RunsCallback(cfg, st, s)
  {
    var s := st.points[p].subscribers[0];
    assert ListOk(st, st.points[p].subscribers, AtPoint(p));
    assert SubOk(cfg, st, s);
  }

  lemma TakeNextResult(cfg: Config, st: State, t: Thread, p: nat)
    requires Shaped(cfg, st) && ListsOk(st) && Enabled(cfg, st, TakeNext(t, p))
    requires var s := st.points[p].subscribers[0];
      s in st.subs && st.subs[s].state == Idle && st.subs[s].home == AtPoint(p)
    ensures var s, st' := st.points[p].subscribers[0], Next(cfg, st, TakeNext(t, p));
      && OnlySub(st, st'.(locks := st.locks), s) && ListsOk(st') && s in st'.subs
      && st'.subs[s] == st.subs[s].(home := AtLoop(cfg.loopOf[s]))
      && st'.locks == st.locks[cfg.dbOf[p] := Marking(t, p, s)]
  {
    var s := st.points[p].subscribers[0];
    hide ListsOk, OnlySub, DropPoint, PutLoop;
    DropPointResult(st, p, s);
    var st1 := DropPoint(st, p, s);
    OnlySubFacts(cfg, st, st1, p, s);
    PutLoopResult(st1, cfg.loopOf[s], s);
    var st2 := PutLoop(st1, cfg.loopOf[s], s);
    OnlySubTrans(st, st1, st2, s);
    LocksIrrelevant(st, st2, st2.(locks := st.locks[cfg.dbOf[p] := Marking(t, p, s)]), s);
  }

  lemma LocksIrrelevant(st: State, a: State, b: State, s: nat)
    requires OnlySub(st, a, s) && ListsOk(a) && b == a.(locks := b.locks)
    ensures OnlySub(st, b.(locks := st.locks), s) && ListsOk(b)
  {
  }

  lemma TakeNextSub(cfg: Config, st: State, st': State, t: Thread, p: nat, s: nat, r: nat)
    requires Shaped(cfg, st) && Shaped(cfg, st') && Drains(cfg, st, t, p) && OnlySub(st, st'.(locks := st.locks), s)
    requires s in st.subs
    requires st'.locks == st.locks[cfg.dbOf[p] := Marking(t, p, s)]
    requires st'.subs[s] == st.subs[s].(home := AtLoop(cfg.loopOf[s]))
    requires st.subs[s].state == Idle && st.subs[s].point == Some(p) && !HasInHand(cfg, st, s)
    requires r in st.subs && SubOk(cfg, st, r)
    ensures SubOk(cfg, st', r)
  {
    if r != s {
      SubFrame(cfg, st, st', r);
    }
  }

  lemma TakeNextKeeps(cfg: Config, st: State, t: Thread, p: nat)
    requires Inv(cfg, st) && Enabled(cfg, st, TakeNext(t, p))
    ensures Inv(cfg, Next(cfg, st, TakeNext(t, p)))
  {
    hide SubOk, ListsOk, LoopsOk, VersionsOk;
    var s := st.points[p].subscribers[0];
    HeadIsIdle(cfg, st, t, p);
    TakeNextResult(cfg, st, t, p);
    var st' := Next(cfg, st, TakeNext(t, p));
    hide Next;
    LoopsAfter(cfg, st, st', s);
    forall r | r in st'.subs ensures SubOk(cfg, st', r) {
      TakeNextSub(cfg, st, st', t, p, s, r);
    }
  }

  /** Loops and versions when s keeps its state, its point and its numbers. */
  lemma LoopsAfter(cfg: Config, st: State, st': State, s: nat)
    requires Shaped(cfg, st) && Shaped(cfg, st') && s in st.subs && OnlySub(st, st'.(locks := st.locks), s)
    requires st'.subs[s] == st.subs[s].(home := st'.subs[s].home) && LoopsOk(cfg, st) && VersionsOk(st)
    ensures LoopsOk(cfg, st') && VersionsOk(st')
  {
    VersionsAfter(st, st', s);
    hide VersionsOk;
    forall l | l in st'.loops ensures LoopOk(cfg, st', l) { assert LoopOk(cfg, st, l); }
  }

  lemma VersionsAfter(st: State, st': State, s: nat)
    requires s in st.subs && OnlySub(st, st'.(locks := st.locks), s) && VersionsOk(st)
    requires st'.subs[s] == st.subs[s].(home := st'.subs[s].home)
    ensures VersionsOk(st')
  {
  }

  lemma MarkSub(cfg: Config, st: State, st': State, t: Thread, p: nat, s: nat, r: nat)
    requires Shaped(cfg, st) && Shaped(cfg, st') && s in st.subs && p in st.points
    requires st.locks[cfg.dbOf[p]] == Marking(t, p, s) && st.subs[s].point == Some(p) && st.subs[s].state == Idle
    requires st' == SetState(st, s, Pending).(locks := st.locks[cfg.dbOf[p] := Draining(t, p)])
    requires r in st.subs && SubOk(cfg, st, r)
    ensures SubOk(cfg, st', r)
  {
    if r != s {
      SubFrame(cfg, st, st', r);
    }
  }

  lemma MarkKeeps(cfg: Config, st: State, t: Thread, p: nat)
    requires Inv(cfg, st) && Enabled(cfg, st, Mark(t, p))
    ensures Inv(cfg, Next(cfg, st, Mark(t, p)))
  {
    hide SubOk, VersionsOk, ListOk;
    var s := st.locks[cfg.dbOf[p]].s;
    var st' := Next(cfg, st, Mark(t, p));
    assert Shaped(cfg, st');
    SubsAndVersionsSame(st, st');
    hide ListsOk;
    MarkLoops(cfg, st, st', s);
    hide LoopsOk;
    forall r | r in st'.subs ensures SubOk(cfg, st', r) {
      MarkSub(cfg, st, st', t, p, s, r);
    }
  }

  lemma MarkLoops(cfg: Config, st: State, st': State, s: nat)
    requires Shaped(cfg, st) && Shaped(cfg, st') && LoopsOk(cfg, st) && s in st.subs && st.subs[s].state == Idle
    requires st'.loops == st.loops && st'.points == st.points && st'.subs == SetState(st, s, Pending).subs
    ensures LoopsOk(cfg, st')
  {
    forall l | l in st'.loops ensures LoopOk(cfg, st', l) { assert LoopOk(cfg, st, l); }
  }

  // The loop's steps.

  /** The head of a pending list: pending, or about to be marked so, and nowhere else. */
  lemma HeadIsQueued(cfg: Config, st: State, l: nat)
    requires Inv(cfg, st) && Enabled(cfg, st, Dequeue(l))
    ensures var s := st.loops[l].pending[0];
      && s in st.subs && cfg.loopOf[s] == l && st.subs[s].home == AtLoop(l) && st.subs[s].state in {Idle, Pending}
  {
    var s := st.loops[l].pending[0];
    assert ListOk(st, st.loops[l].pending, AtLoop(l));
    assert SubOk(cfg, st, s);
  }

  lemma DequeueSub(cfg: Config, st: State, st1: State, l: nat, s: nat, r: nat)
    requires Shaped(cfg, st) && Shaped(cfg, st1) && s in st.subs && cfg.loopOf[s] == l && st.loops[l].inHand == None
    requires OnlySub(st, st1, s) && st1.subs[s] == st.subs[s].(home := Nowhere)
    requires st.subs[s].home == AtLoop(l) && st.subs[s].state in {Idle, Pending}
    requires r in st.subs && SubOk(cfg, st, r)
    ensures var st' := st1.(loops := st1.loops[l := st1.loops[l].(inHand := Some(s))]);
      Shaped(cfg, st') && SubOk(cfg, st', r)
  {
    var st' := st1.(loops := st1.loops[l := st1.loops[l].(inHand := Some(s))]);
    if r != s {
      SubFrame(cfg, st, st', r);
    }
  }

  lemma DequeueKeeps(cfg: Config, st: State, l: nat)
    requires Inv(cfg, st) && Enabled(cfg, st, Dequeue(l))
    ensures Inv(cfg, Next(cfg, st, Dequeue(l)))
  {
    hide SubOk, ListsOk, VersionsOk, LoopsOk, LocksOk, OnlySub;
    HeadIsQueued(cfg, st, l);
    var s := st.loops[l].pending[0];
    DropLoopResult(st, l, s);
    hide DropLoop;
    var st1 := DropLoop(st, l, s);
    assert Next(cfg, st, Dequeue(l)) == st1.(loops := st1.loops[l := st1.loops[l].(inHand := Some(s))]);
    hide Next, Inv;
    TakenInHand(cfg, st, st1, l, s);
  }

  /** Loop l has taken s off its queue and has it in hand. */
  lemma TakenInHand(cfg: Config, st: State, st1: State, l: nat, s: nat)
    requires Inv(cfg, st) && s in st.subs && l in st.loops && st.loops[l].inHand == None && st.loops[l].callback == None
    requires s in cfg.loopOf && cfg.loopOf[s] == l && st.subs[s].home == AtLoop(l)
    requires st.subs[s].state in {Idle, Pending}
    requires OnlySub(st, st1, s) && ListsOk(st1) && s in st1.subs && st1.subs[s] == st.subs[s].(home := Nowhere)
    ensures l in st1.loops && Inv(cfg, st1.(loops := st1.loops[l := st1.loops[l].(inHand := Some(s))]))
  {
    hide Inv, SubOk, ListsOk, VersionsOk, LoopsOk, LocksOk, OnlySub;
    OnlySubShape(cfg, st, st1, l, s);
    var st' := st1.(loops := st1.loops[l := st1.loops[l].(inHand := Some(s))]);
    forall r | r in st'.subs ensures SubOk(cfg, st', r) {
      SubIs(cfg, st, r);
      DequeueSub(cfg, st, st1, l, s, r);
    }
    LoopsAfter(cfg, st, st1, s);
    DequeueLoops(cfg, st1, st', l, s);
    hide Shaped;
    LocksSame(cfg, st, st1);
    LocksSame(cfg, st1, st');
    VersionsFrame(st1, st');
    ListsSame(st1, st');
    InvAgain(cfg, st');
  }

  lemma OnlySubShape(cfg: Config, st: State, st1: State, l: nat, s: nat)
    requires Inv(cfg, st) && s in st.subs && l in st.loops && st.loops[l].callback == None
    requires OnlySub(st, st1, s) && s in st1.subs && st1.subs[s] == st.subs[s].(home := Nowhere)
    ensures Shaped(cfg, st) && Shaped(cfg, st1) && !st1.fatal && LocksOk(cfg, st) && LoopsOk(cfg, st) && VersionsOk(st)
    ensures st1.locks == st.locks && st1.(locks := st.locks) == st1 && st1.subs.Keys == st.subs.Keys
    ensures l in st1.loops && st1.loops[l].callback == None && st1.subs[s].state == st.subs[s].state
    ensures forall r :: r in st.subs && r in st1.subs ==>
      st1.subs[r].state == st.subs[r].state && st1.subs[r].point == st.subs[r].point
  {
    hide SubOk, ListsOk, VersionsOk, LoopsOk, LocksOk;
  }

  lemma DequeueLoops(cfg: Config, st: State, st': State, l: nat, s: nat)
    requires Shaped(cfg, st) && s in st.subs && cfg.loopOf[s] == l && st.subs[s].state in {Idle, Pending}
    requires st.loops[l].callback == None && st' == st.(loops := st.loops[l := st.loops[l].(inHand := Some(s))])
    requires LoopsOk(cfg, st)
    ensures Shaped(cfg, st') && LoopsOk(cfg, st')
  {
    forall k | k in st'.loops ensures LoopOk(cfg, st', k) { assert LoopOk(cfg, st, k); }
  }

  lemma LocksSame(cfg: Config, st: State, st': State)
    requires Shaped(cfg, st) && Shaped(cfg, st') && LocksOk(cfg, st) && st'.locks == st.locks
    requires forall s :: s in st.subs && s in st'.subs ==>
      st'.subs[s].state == st.subs[s].state && st'.subs[s].point == st.subs[s].point
    ensures LocksOk(cfg, st')
  {
  }

  lemma VersionsFrame(st: State, st': State)
    requires VersionsOk(st) && st'.points == st.points && st'.subs == st.subs
    ensures VersionsOk(st')
  {
  }

  /** A dequeued subscriber whose point is unlocked is in the Pending state: the writer that
      enqueued it has marked it before it let go of the lock. */
  lemma NotifyFindsPending(cfg: Config, st: State, l: nat)
    requires Inv(cfg, st) && Enabled(cfg, st, BeginNotify(l))
    ensures var s := st.loops[l].inHand.value;
      && st.subs[s].state == Pending && st.subs[s].home == Nowhere && cfg.loopOf[s] == l
      && st.subs[s].point.Some? && st.subs[s].point.value in st.points
  {
    assert LoopOk(cfg, st, l);
    assert SubOk(cfg, st, st.loops[l].inHand.value);
  }

  lemma BeginNotifySub(cfg: Config, st: State, st': State, l: nat, s: nat, p: nat, r: nat)
    requires Shaped(cfg, st) && Shaped(cfg, st') && s in st.subs && p in st.points && cfg.loopOf[s] == l
    requires st.loops[l].inHand == Some(s) && st.loops[l].callback == None && st.subs[s].point == Some(p)
    requires st.subs[s].home == Nowhere
    requires st'.loops == st.loops[l := st.loops[l].(inHand := None, callback := Some((s, p)))]
    requires st'.points == st.points && st'.locks == st.locks && s in st'.subs && st'.subs == st.subs[s := st'.subs[s]]
    requires st'.subs[s].state == Notifying && st'.subs[s].point == Some(p) && st'.subs[s].home == Nowhere
    requires r in st.subs && SubOk(cfg, st, r)
    ensures SubOk(cfg, st', r)
  {
    if r != s {
      SubFrame(cfg, st, st', r);
    }
  }

  lemma BeginNotifyKeeps(cfg: Config, st: State, l: nat)
    requires Inv(cfg, st) && Enabled(cfg, st, BeginNotify(l))
    ensures Inv(cfg, Next(cfg, st, BeginNotify(l)))
  {
    hide SubOk, ListsOk, LoopsOk, VersionsOk, LocksOk;
    NotifyFindsPending(cfg, st, l);
    var s := st.loops[l].inHand.value;
    var p := st.subs[s].point.value;
    var x := st.subs[s].(state := Notifying, seqNum := st.points[p].seqNum, known := Some(st.points[p].version));
    var st' := Notified(st, l, s, p, x);
    assert Next(cfg, st, BeginNotify(l)) == st';
    NoCallback(cfg, st, l);
    NotMarked(cfg, st, s, p);
    hide Next, Enabled, Inv;
    BeginNotifyRest(cfg, st, l, s, p, x);
    forall r | r in st'.subs ensures SubOk(cfg, st', r) {
      SubIs(cfg, st, r);
      BeginNotifySub(cfg, st, st', l, s, p, r);
    }
    InvAgain(cfg, st');
  }

  /** Loop l has dequeued s and now runs its callback for p. */
  ghost function Notified(st: State, l: nat, s: nat, p: nat, x: Sub): State
    requires l in st.loops
  {
    st.(subs := st.subs[s := x], loops := st.loops[l := st.loops[l].(inHand := None, callback := Some((s, p)))])
  }

  lemma InvAgain(cfg: Config, st: State)
    requires Shaped(cfg, st) && !st.fatal && ListsOk(st) && LocksOk(cfg, st) && LoopsOk(cfg, st) && VersionsOk(st)
    requires forall s :: s in st.subs ==> SubOk(cfg, st, s)
    ensures Inv(cfg, st)
  {
    hide ListsOk, LocksOk, LoopsOk, VersionsOk, SubOk;
  }

  lemma NoCallback(cfg: Config, st: State, l: nat)
    requires Inv(cfg, st) && l in st.loops && st.loops[l].inHand.Some?
    ensures st.loops[l].callback == None
  {
    hide SubOk, ListsOk, LocksOk, VersionsOk;
    assert LoopOk(cfg, st, l);
  }

  lemma BeginNotifyRest(cfg: Config, st: State, l: nat, s: nat, p: nat, x: Sub)
    requires Inv(cfg, st) && l in st.loops && s in st.subs && p in st.points && cfg.loopOf[s] == l
    requires st.subs[s].point == Some(p)
    requires forall d :: d in st.locks && st.locks[d].Marking? ==> st.locks[d].s != s
    requires x == st.subs[s].(state := Notifying, seqNum := st.points[p].seqNum, known := Some(st.points[p].version))
    ensures var st' := Notified(st, l, s, p, x);
      && Shaped(cfg, st') && !st'.fatal && ListsOk(st') && LocksOk(cfg, st') && LoopsOk(cfg, st') && VersionsOk(st')
  {
    hide SubOk, VersionsOk, LocksOk, LoopsOk, ListsOk;
    var st1, st' := st.(subs := st.subs[s := x]), Notified(st, l, s, p, x);
    BeginVersions(st, s, p, x);
    VersionsFrame(st1, st');
    LocksBut(cfg, st, st', s);
    OnlyOwnLoop(cfg, st, s);
    BeginLoops(cfg, st, l, s, p, x);
    SetSubResult(st, s, x);
    ListsSame(st1, st');
  }

  lemma BeginVersions(st: State, s: nat, p: nat, x: Sub)
    requires VersionsOk(st) && s in st.subs && p in st.points && x.point == Some(p)
    requires x.seqNum == st.points[p].seqNum && x.known == Some(st.points[p].version)
    ensures VersionsOk(st.(subs := st.subs[s := x]))
  {
  }

  /** Locks are the same, and nobody is marking the one subscriber that changed. */
  lemma LocksBut(cfg: Config, st: State, st': State, s: nat)
    requires Shaped(cfg, st) && Shaped(cfg, st') && LocksOk(cfg, st) && st'.locks == st.locks
    requires forall d :: d in st.locks && st.locks[d].Marking? ==> st.locks[d].s != s
    requires forall r :: r in st.subs && r != s ==> r in st'.subs && st'.subs[r] == st.subs[r]
    ensures LocksOk(cfg, st')
  {
  }

  lemma BeginLoops(cfg: Config, st: State, l: nat, s: nat, p: nat, x: Sub)
    requires Shaped(cfg, st) && LoopsOk(cfg, st) && l in st.loops && s in st.subs && p in st.points
    requires cfg.loopOf[s] == l
    requires x.state == Notifying
    requires forall k :: k in st.loops && k != l ==>
      st.loops[k].inHand != Some(s) && (st.loops[k].callback.Some? ==> st.loops[k].callback.value.0 != s)
    ensures LoopsOk(cfg, Notified(st, l, s, p, x))
  {
    var st' := Notified(st, l, s, p, x);
    forall k | k in st'.loops ensures LoopOk(cfg, st', k) { assert LoopOk(cfg, st, k); }
  }

  /** A subscriber is only ever in the hands of its own loop. */
  lemma OnlyOwnLoop(cfg: Config, st: State, s: nat)
    requires Shaped(cfg, st) && LoopsOk(cfg, st) && s in st.subs
    ensures forall k :: k in st.loops && k != cfg.loopOf[s] ==>
      st.loops[k].inHand != Some(s) && (st.loops[k].callback.Some? ==> st.loops[k].callback.value.0 != s)
  {
    forall k | k in st.loops && k != cfg.loopOf[s]
      ensures st.loops[k].inHand != Some(s) && (st.loops[k].callback.Some? ==> st.loops[k].callback.value.0 != s)
    {
      assert LoopOk(cfg, st, k);
    }
  }

  /** A subscriber whose callback for p runs. */
  ghost predicate Calling(x: Sub, p: nat) {
    x.home == Nowhere && ((x.state == Notifying && x.point == Some(p)) || (x.state == PendingDetach && x.point == None))
  }

  /** The subscriber after its callback, seen from the state before. */
  ghost function Completed(cfg: Config, st: State, p: nat, s: nat): Sub
    requires Shaped(cfg, st) && p in st.points && s in st.subs
  {
    if st.subs[s].state == Notifying then Subscribed(cfg, st, p, s) else st.subs[s].(state := Unsubscribed)
  }

  lemma CallingNow(cfg: Config, st: State, l: nat)
    requires Inv(cfg, st) && Enabled(cfg, st, EndNotify(l))
    ensures var (s, p) := st.loops[l].callback.value;
      s in st.subs && p in st.points && cfg.loopOf[s] == l && Calling(st.subs[s], p)
    ensures Shaped(cfg, st) && ListsOk(st)
  {
    assert LoopOk(cfg, st, l);
    assert SubOk(cfg, st, st.loops[l].callback.value.0);
  }

  lemma EndNotifyResult(cfg: Config, st: State, l: nat, s: nat, p: nat)
    requires Shaped(cfg, st) && ListsOk(st) && s in st.subs && p in st.points && cfg.loopOf[s] == l
    requires Calling(st.subs[s], p)
    ensures var st0 := st.(loops := st.loops[l := st.loops[l].(callback := None)]);
      var st' := Deliver(cfg, st0, p, s, NotifyComplete);
      OnlySub(st0, st', s) && ListsOk(st') && s in st'.subs && st'.subs[s] == Completed(cfg, st, p, s)
  {
    hide ListsOk, OnlySub, ToSubscribed;
    var st0 := st.(loops := st.loops[l := st.loops[l].(callback := None)]);
    ListsSame(st, st0);
    if st.subs[s].state == Notifying {
      ToSubscribedResult(cfg, st0, p, s);
    } else {
      SetSubResult(st0, s, st0.subs[s].(state := Unsubscribed));
    }
  }

  lemma EndNotifySub(cfg: Config, st: State, st': State, l: nat, s: nat, p: nat, r: nat)
    requires Shaped(cfg, st) && Shaped(cfg, st') && s in st.subs && p in st.points && cfg.loopOf[s] == l
    requires st.loops[l].callback == Some((s, p)) && st.loops[l].inHand == None && st.locks[cfg.dbOf[p]] == Free
    requires OnlySub(st.(loops := st.loops[l := st.loops[l].(callback := None)]), st', s)
    requires st'.subs[s] == Completed(cfg, st, p, s)
    requires Calling(st.subs[s], p)
    requires r in st.subs && SubOk(cfg, st, r)
    ensures SubOk(cfg, st', r)
  {
    if r != s {
      SubFrame(cfg, st, st', r);
    }
  }

  lemma EndNotifyKeeps(cfg: Config, st: State, l: nat)
    requires Inv(cfg, st) && Enabled(cfg, st, EndNotify(l))
    ensures Inv(cfg, Next(cfg, st, EndNotify(l)))
  {
    hide SubOk, ListsOk, LoopsOk, VersionsOk, Deliver;
    CallingNow(cfg, st, l);
    var (s, p) := st.loops[l].callback.value;
    EndNotifyResult(cfg, st, l, s, p);
    var st' := Next(cfg, st, EndNotify(l));
    hide Next;
    assert Shaped(cfg, st');
    EndNotifyLoops(cfg, st, st', l, s, p);
    hide Enabled;
    forall r | r in st'.subs ensures SubOk(cfg, st', r) {
      EndNotifySub(cfg, st, st', l, s, p, r);
    }
  }

  lemma EndNotifyLoops(cfg: Config, st: State, st': State, l: nat, s: nat, p: nat)
    requires Shaped(cfg, st) && Shaped(cfg, st') && s in st.subs && p in st.points && cfg.loopOf[s] == l
    requires st.loops[l].callback == Some((s, p)) && st.loops[l].inHand == None
    requires OnlySub(st.(loops := st.loops[l := st.loops[l].(callback := None)]), st', s)
    requires st'.subs[s] == Completed(cfg, st, p, s) && LoopsOk(cfg, st) && VersionsOk(st)
    ensures LoopsOk(cfg, st') && VersionsOk(st')
  {
    assert VersionsOk(st');
    hide VersionsOk;
    forall k | k in st'.loops ensures LoopOk(cfg, st', k) { assert LoopOk(cfg, st, k); }
  }

  /** Every step of every thread keeps the invariant. */
  lemma StepKeeps(cfg: Config, st: State, step: Step)
    requires Inv(cfg, st) && Enabled(cfg, st, step)
    ensures Inv(cfg, Next(cfg, st, step))
  {
    hide Inv, Next, Enabled;
    match step
    case StartWrite(t, p) => StartWriteKeeps(cfg, st, t, p);
    case TakeNext(t, p) => TakeNextKeeps(cfg, st, t, p);
    case Mark(t, p) => MarkKeeps(cfg, st, t, p);
    case EndWrite(t, p) => EndWriteKeeps(cfg, st, t, p);
    case Dequeue(l) => DequeueKeeps(cfg, st, l);
    case BeginNotify(l) => BeginNotifyKeeps(cfg, st, l);
    case EndNotify(l) => EndNotifyKeeps(cfg, st, l);
    case Attach(l, s, p, q, v) => AttachKeeps(cfg, st, l, s, p, q, v);
    case Detach(l, s, p) => DetachKeeps(cfg, st, l, s, p);
  }
}
