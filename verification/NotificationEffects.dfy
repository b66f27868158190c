/** What the steps of the notification protocol do to the subscriber they are about, and that they
    leave everybody else alone. */
module NotificationEffects {
  import opened Basics
  import opened SequenceNumbers
  import opened Notification
  import opened NotificationRuns

  // ------------------------------------------------------------------------- detaching

  /** Detaching detaches: the subscriber is bound to no point and in no list, and unsubscribed at
      once, unless its callback runs, which is then the last. */
  lemma DetachEffect(cfg: Config, st: State, l: nat, s: nat, p: nat)
    requires Inv(cfg, st) && Enabled(cfg, st, Detach(l, s, p))
    ensures Shaped(cfg, st)
    ensures var st' := Next(cfg, st, Detach(l, s, p));
      && s in st'.subs && st'.subs[s].point == None && !Listed(st', s) && OnlySub(st, st', s)
      && st'.subs[s].state == if RunsCallback(cfg, st, s) then PendingDetach else Unsubscribed
  {
    hide Inv, ListsOk, Deliver, OnlySub, SingleList;
    CallableNow(cfg, st, l, s, p);
    var st' := Next(cfg, st, Detach(l, s, p));
    DetachResult(cfg, st, l, s, p);
    DetachKeeps(cfg, st, l, s, p);
    Located(cfg, st', s);
  }

  /** Bound to no point: unsubscribed, or with its last callback running. */
  ghost predicate Away(st: State, s: nat) {
    s in st.subs && st.subs[s].state in {Unsubscribed, PendingDetach}
  }

  /** Nobody but its own thread, by attaching it, brings a detached subscriber back. */
  lemma AwayStays(cfg: Config, st: State, step: Step, s: nat)
    requires Inv(cfg, st) && Enabled(cfg, st, step) && Away(st, s) && !(step.Attach? && step.s == s)
    ensures Shaped(cfg, st) && Away(Next(cfg, st, step), s)
  {
    hide Inv, Next, Enabled;
    InvBasics(cfg, st);
    if About(cfg, st, step) != Some(s) {
      OthersUntouched(cfg, st, step, s);
    } else if step.EndNotify? {
      EndNotifyEffect(cfg, st, step.l);
    } else if step.Detach? {
      DetachEffect(cfg, st, step.l, s, step.p);
    } else {
      NotAboutAway(cfg, st, step, s);
    }
  }

  lemma NotAboutAway(cfg: Config, st: State, step: Step, s: nat)
    requires Inv(cfg, st) && Enabled(cfg, st, step) && About(cfg, st, step) == Some(s)
    requires !step.Attach? && !step.Detach? && !step.EndNotify?
    ensures s in st.subs && st.subs[s].state in {Idle, Pending}
  {
    hide Inv;
    InvBasics(cfg, st);
    match step
    case TakeNext(t, p) => HeadIsIdle(cfg, st, t, p);
    case Mark(t, p) =>
    case Dequeue(l) => HeadIsQueued(cfg, st, l);
    case BeginNotify(l) => NotifyFindsPending(cfg, st, l);
  }

  lemma {:induction false} AwayAlong(cfg: Config, st: State, steps: seq<Step>, st': State, s: nat)
    requires Inv(cfg, st) && Runs(cfg, st, steps, st') && Away(st, s)
    requires forall i :: 0 <= i < |steps| ==> !(steps[i].Attach? && steps[i].s == s)
    ensures Inv(cfg, st') && Away(st', s)
    decreases |steps|
  {
    hide Inv, Next, Enabled, Away;
    if steps != [] {
      StepKeeps(cfg, st, steps[0]);
      AwayStays(cfg, st, steps[0], s);
      assert forall i :: 0 <= i < |steps[1..]| ==> steps[1..][i] == steps[i + 1];
      AwayAlong(cfg, Next(cfg, st, steps[0]), steps[1..], st', s);
    }
  }

  /** However a run goes on after a detach, as long as the subscriber is not attached again: it is in
      no list, no eNOTIFYING is ever sent to it, and once its callback is over it is unsubscribed. */
  lemma DetachedIsLeftAlone(cfg: Config, st: State, l: nat, s: nat, p: nat, steps: seq<Step>, st': State, k: nat)
    requires Inv(cfg, st) && Shaped(cfg, st) && Enabled(cfg, st, Detach(l, s, p))
    requires Runs(cfg, Next(cfg, st, Detach(l, s, p)), steps, st')
    requires forall i :: 0 <= i < |steps| ==> !(steps[i].Attach? && steps[i].s == s)
    ensures s in st'.subs && st'.subs[s].point == None && !Listed(st', s)
    ensures Enabled(cfg, st', BeginNotify(k)) ==> st'.loops[k].inHand != Some(s)
    ensures Shaped(cfg, st') && (!RunsCallback(cfg, st', s) ==> st'.subs[s].state == Unsubscribed)
  {
    hide Inv, Runs, Next, Enabled, Listed, OnlySub;
    DetachEffect(cfg, st, l, s, p);
    DetachKeeps(cfg, st, l, s, p);
    AwayAlong(cfg, Next(cfg, st, Detach(l, s, p)), steps, st', s);
    AwayMeans(cfg, st', s, k);
  }

  lemma AwayMeans(cfg: Config, st: State, s: nat, k: nat)
    requires Inv(cfg, st) && Away(st, s)
    ensures st.subs[s].point == None && !Listed(st, s)
    ensures Enabled(cfg, st, BeginNotify(k)) ==> st.loops[k].inHand != Some(s)
    ensures Shaped(cfg, st) && (!RunsCallback(cfg, st, s) ==> st.subs[s].state == Unsubscribed)
  {
    hide Inv, SingleList;
    Located(cfg, st, s);
    InvBasics(cfg, st);
    if Enabled(cfg, st, BeginNotify(k)) { NotifyFindsPending(cfg, st, k); }
  }

  // ------------------------------------------------------------------------- attaching

  /** Attaching with any number, the default among them: it is queued for a notification exactly if
      that is not the number of the point, and else idle and in the list of the point. In its own
      callback it goes on notifying with that number. */
  lemma AttachEffect(cfg: Config, st: State, l: nat, s: nat, p: nat, q: nat, v: Option<nat>)
    requires Inv(cfg, st) && Enabled(cfg, st, Attach(l, s, p, q, v))
    ensures Shaped(cfg, st)
    ensures var st' := Next(cfg, st, Attach(l, s, p, q, v)); var x := st.subs[s].state;
      && s in st'.subs && st'.subs[s].point == Some(p) && st'.subs[s].seqNum == q && st'.subs[s].known == v
      && OnlySub(st, st', s) && p in st'.points && l in st'.loops
      && (x in {Notifying, PendingDetach} ==> st'.subs[s].state == Notifying && !Listed(st', s))
      && (x in {Unsubscribed, Idle, Pending} ==>
           && (st'.subs[s].state == Pending <==> q != st.points[p].seqNum)
           && (st'.subs[s].state == Pending <==> s in st'.loops[l].pending)
           && (st'.subs[s].state == Idle <==> q == st.points[p].seqNum)
           && (st'.subs[s].state == Idle <==> s in st'.points[p].subscribers))
  {
    hide Inv, ListsOk, Deliver, SingleList;
    CallableNow(cfg, st, l, s, p);
    var st' := Next(cfg, st, Attach(l, s, p, q, v));
    AttachResult(cfg, st, l, s, p, q, v);
    AttachKeeps(cfg, st, l, s, p, q, v);
    Located(cfg, st', s);
    hide Next, Enabled;
  }

  /** No point ever has the default number, so attaching with it always queues. */
  lemma DefaultAttachQueues(cfg: Config, st: State, l: nat, s: nat, p: nat, v: Option<nat>)
    requires Inv(cfg, st) && Enabled(cfg, st, Attach(l, s, p, UNKNOWN, v))
    requires st.subs[s].state in {Unsubscribed, Idle, Pending}
    ensures Shaped(cfg, st)
    ensures var st' := Next(cfg, st, Attach(l, s, p, UNKNOWN, v));
      s in st'.subs && st'.subs[s].state == Pending && l in st'.loops && s in st'.loops[l].pending
  {
    hide Inv, Next, SeqOf, Listed;
    AttachEffect(cfg, st, l, s, p, UNKNOWN, v);
    PointNumber(cfg, st, p);
    AdvanceCounts(st.points[p].version);
  }

  /** And the notification comes, whatever else happens: the loop takes the subscriber in hand within
      as many passes as its place in the queue plus one, unless it is attached or detached again. */
  lemma DefaultAttachIsServed(cfg: Config, st: State, l: nat, s: nat, p: nat, steps: seq<Step>, st': State)
    requires Inv(cfg, st) && Shaped(cfg, st) && Enabled(cfg, st, Attach(l, s, p, UNKNOWN, None))
    requires st.subs[s].state in {Unsubscribed, Idle, Pending}
    requires var next := Next(cfg, st, Attach(l, s, p, UNKNOWN, None));
      && Runs(cfg, next, steps, st')
      && (l in next.loops && s in next.loops[l].pending ==> Passes(steps, l) > Place(next.loops[l].pending, s))
    requires forall i :: 0 <= i < |steps| ==>
      !(steps[i].Attach? && steps[i].s == s) && !(steps[i].Detach? && steps[i].s == s)
    ensures TakesInHand(cfg, Next(cfg, st, Attach(l, s, p, UNKNOWN, None)), steps, l, s)
  {
    hide Inv, Next, Runs, Place, TakesInHand;
    DefaultAttachQueues(cfg, st, l, s, p, None);
    AttachKeeps(cfg, st, l, s, p, UNKNOWN, None);
    ServedInTurn(cfg, Next(cfg, st, Attach(l, s, p, UNKNOWN, None)), steps, st', l, s);
  }

  // --------------------------------------------------------------- the callback's ends

  /** The callback starts with the current number and version of the point. */
  lemma BeginNotifyEffect(cfg: Config, st: State, l: nat)
    requires Inv(cfg, st) && Enabled(cfg, st, BeginNotify(l))
    ensures Shaped(cfg, st)
    ensures var s, st' := st.loops[l].inHand.value, Next(cfg, st, BeginNotify(l));
      && st.subs[s].point.Some? && st.subs[s].point.value in st.points
      && var p := st.subs[s].point.value;
        && st'.points == st.points && st'.locks == st.locks
        && st'.subs == st.subs[s := Sub(Notifying, Some(p), st.points[p].seqNum, Some(st.points[p].version), Nowhere)]
        && st'.loops == st.loops[l := Loop(st.loops[l].pending, None, Some((s, p)))]
  {
    hide Inv, SubOk, ToSubscribed, ToPending, DropLoop;
    InvBasics(cfg, st);
    NotifyFindsPending(cfg, st, l);
  }

  /** After the callback: unsubscribed if it was detached meanwhile, else idle if it has the number of
      the point, and else queued again. */
  lemma EndNotifyEffect(cfg: Config, st: State, l: nat)
    requires Inv(cfg, st) && Enabled(cfg, st, EndNotify(l))
    ensures Shaped(cfg, st)
    ensures var (s, p) := st.loops[l].callback.value; var st' := Next(cfg, st, EndNotify(l));
      && s in st.subs && p in st.points && s in st'.subs
      && OnlySub(st.(loops := st.loops[l := st.loops[l].(callback := None)]), st', s)
      && st'.subs[s].state ==
           (if st.subs[s].state == PendingDetach then Unsubscribed
            else if st.subs[s].seqNum == st.points[p].seqNum then Idle else Pending)
      && st'.subs[s].point == st.subs[s].point && st'.subs[s].seqNum == st.subs[s].seqNum
      && st'.subs[s].known == st.subs[s].known
  {
    hide Inv, ListsOk, Deliver, OnlySub;
    InvBasics(cfg, st);
    CallingNow(cfg, st, l);
    var (s, p) := st.loops[l].callback.value;
    EndNotifyResult(cfg, st, l, s, p);
  }

  // ------------------------------------------------------------------- everything else

  /** Which subscriber a step is about. */
  ghost function About(cfg: Config, st: State, step: Step): Option<nat> {
    match step
    case Mark(_, p) => if Marks(cfg, st, step.t, p) then Some(st.locks[cfg.dbOf[p]].s) else None
    case _ => Mover(st, step)
  }

  /** No step changes anything about any other subscriber. */
  lemma OthersUntouched(cfg: Config, st: State, step: Step, r: nat)
    requires Inv(cfg, st) && Enabled(cfg, st, step) && r in st.subs && About(cfg, st, step) != Some(r)
    ensures Shaped(cfg, st) && r in Next(cfg, st, step).subs && Next(cfg, st, step).subs[r] == st.subs[r]
  {
    hide Inv, ListsOk, Deliver;
    InvBasics(cfg, st);
    match step
    case StartWrite(_, _) =>
    case EndWrite(_, _) =>
    case Mark(_, _) =>
    case TakeNext(_, _) => TakeNextOthers(cfg, st, step, r);
    case Dequeue(_) => DequeueOthers(cfg, st, step, r);
    case BeginNotify(l) => BeginNotifyEffect(cfg, st, l);
    case EndNotify(l) => EndNotifyEffect(cfg, st, l);
    case Attach(l, s, p, q, v) => AttachEffect(cfg, st, l, s, p, q, v);
    case Detach(l, s, p) => DetachEffect(cfg, st, l, s, p);
  }

  lemma TakeNextOthers(cfg: Config, st: State, step: Step, r: nat)
    requires Shaped(cfg, st) && Enabled(cfg, st, step) && step.TakeNext? && r in st.subs && Mover(st, step) != Some(r)
    ensures Next(cfg, st, step).subs.Keys == st.subs.Keys && Next(cfg, st, step).subs[r] == st.subs[r]
  {
    hide DropPoint, PutLoop;
    var p := step.p;
    var s := st.points[p].subscribers[0];
    if s in st.subs {
      DropOnly(st, p, s, r);
      PutOnly(DropPoint(st, p, s), cfg.loopOf[s], s, r);
    }
  }

  lemma DropOnly(st: State, p: nat, s: nat, r: nat)
    requires p in st.points && s in st.subs
    ensures r in st.subs && r != s ==> DropPoint(st, p, s).subs[r] == st.subs[r]
    ensures DropPoint(st, p, s).loops == st.loops
    ensures forall k :: k in st.points ==>
      DropPoint(st, p, s).points[k] == st.points[k].(subscribers := DropPoint(st, p, s).points[k].subscribers)
  {
    hide Without;
  }

  lemma PutOnly(st: State, l: nat, s: nat, r: nat)
    requires l in st.loops && s in st.subs
    ensures r in st.subs && r != s ==> PutLoop(st, l, s).subs[r] == st.subs[r]
    ensures PutLoop(st, l, s).points == st.points
  {
  }

  lemma DequeueOthers(cfg: Config, st: State, step: Step, r: nat)
    requires Shaped(cfg, st) && Enabled(cfg, st, step) && step.Dequeue? && r in st.subs && Mover(st, step) != Some(r)
    ensures Next(cfg, st, step).subs.Keys == st.subs.Keys && Next(cfg, st, step).subs[r] == st.subs[r]
  {
    hide Without;
  }

  /** Only the start of a write to a point changes its version, by one, and its number with it. */
  lemma OnlyWritesCount(cfg: Config, st: State, step: Step, p: nat)
    requires Inv(cfg, st) && Enabled(cfg, st, step) && p in st.points
    ensures Shaped(cfg, st) && p in Next(cfg, st, step).points
    ensures var x, x' := st.points[p], Next(cfg, st, step).points[p];
      if step.StartWrite? && step.p == p then x'.version == x.version + 1 && x'.seqNum == SeqOf(x.version + 1)
      else x'.version == x.version && x'.seqNum == x.seqNum
  {
    hide Inv, ListsOk, Deliver, SeqOf, Advance;
    InvBasics(cfg, st);
    PointNumber(cfg, st, p);
    AdvanceCounts(st.points[p].version);
    match step
    case StartWrite(_, _) =>
    case EndWrite(_, _) =>
    case Mark(_, _) =>
    case TakeNext(_, _) => TakeNextVersions(cfg, st, step, p);
    case Dequeue(_) => DequeueVersions(cfg, st, step, p);
    case BeginNotify(l) => BeginNotifyEffect(cfg, st, l);
    case EndNotify(l) => EndNotifyEffect(cfg, st, l);
    case Attach(l, s, r, q, v) => AttachEffect(cfg, st, l, s, r, q, v);
    case Detach(l, s, r) => DetachEffect(cfg, st, l, s, r);
  }

  lemma TakeNextVersions(cfg: Config, st: State, step: Step, p: nat)
    requires Shaped(cfg, st) && Enabled(cfg, st, step) && step.TakeNext? && p in st.points
    ensures p in Next(cfg, st, step).points
    ensures var x, x' := st.points[p], Next(cfg, st, step).points[p]; x'.version == x.version && x'.seqNum == x.seqNum
  {
    hide DropPoint, PutLoop;
    var s := st.points[step.p].subscribers[0];
    if s in st.subs {
      DropOnly(st, step.p, s, s);
      PutOnly(DropPoint(st, step.p, s), cfg.loopOf[s], s, s);
    }
  }

  lemma DequeueVersions(cfg: Config, st: State, step: Step, p: nat)
    requires Shaped(cfg, st) && Enabled(cfg, st, step) && step.Dequeue? && p in st.points
    ensures p in Next(cfg, st, step).points && Next(cfg, st, step).points[p] == st.points[p]
  {
    hide Without;
  }

  // ------------------------------------------------------------------ from end to end

  ghost predicate AllFree(st: State) {
    forall d :: d in st.locks ==> st.locks[d] == Free
  }

  lemma Unhindered(cfg: Config, st: State, l: nat, p: nat)
    requires Shaped(cfg, st) && AllFree(st) && p in st.points
    ensures Unlocked(cfg, st, p) && (l in st.loops && st.loops[l].inHand == None ==> AtLiberty(st, l))
  {
  }

  /** In a quiet state every thread may write to every point, and every subscriber may be attached and
      detached. */
  lemma QuietAllows(cfg: Config, st: State, t: Thread, s: nat, p: nat, q: nat)
    requires Inv(cfg, st) && Quiet(st) && s in st.subs && p in st.points && st.subs[s].point in {None, Some(p)}
    ensures (t.OfLoop? ==> t.l in st.loops) ==> Enabled(cfg, st, StartWrite(t, p))
    ensures Shaped(cfg, st) && Enabled(cfg, st, Attach(cfg.loopOf[s], s, p, q, None))
    ensures Enabled(cfg, st, Detach(cfg.loopOf[s], s, p))
  {
    hide Inv;
    InvBasics(cfg, st);
    Unhindered(cfg, st, cfg.loopOf[s], p);
    assert HandsFree(st, t);
  }

  /** A first notification from beginning to end: in any quiet state, attaching with the default
      number, one pass of the loop and the callback are a run, after which the subscriber is idle and
      knows the current version. */
  lemma FirstNotification(cfg: Config, st: State, s: nat, p: nat) returns (st': State)
    requires Inv(cfg, st) && Quiet(st) && s in st.subs && p in st.points && st.subs[s].state == Unsubscribed
    ensures s in cfg.loopOf
    ensures var l := cfg.loopOf[s];
      Runs(cfg, st, [Attach(l, s, p, UNKNOWN, None), Dequeue(l), BeginNotify(l), EndNotify(l)], st')
    ensures s in st'.subs && st'.subs[s].state == Idle && st'.subs[s].point == Some(p)
    ensures st'.subs[s].known == Some(st.points[p].version)
  {
    hide Inv, Next, Runs, OnlySub, Quiet;
    var st1 := FirstAttached(cfg, st, s, p);
    var l := cfg.loopOf[s];
    var st2 := ThenDequeued(cfg, st1, l, s, p);
    var st3 := ThenBegun(cfg, st2, l, s, p);
    st' := ThenEnded(cfg, st3, l, s, p);
    var steps := [Attach(l, s, p, UNKNOWN, None), Dequeue(l), BeginNotify(l), EndNotify(l)];
    FourSteps(cfg, steps, st, st1, st2, st3, st');
  }

  ghost predicate Does(cfg: Config, st: State, step: Step, st': State) {
    Shaped(cfg, st) && Enabled(cfg, st, step) && Next(cfg, st, step) == st'
  }

  lemma FourSteps(cfg: Config, steps: seq<Step>, a: State, b: State, c: State, d: State, e: State)
    requires |steps| == 4 && Does(cfg, a, steps[0], b) && Does(cfg, b, steps[1], c)
    requires Does(cfg, c, steps[2], d) && Does(cfg, d, steps[3], e)
    ensures Runs(cfg, a, steps, e)
  {
    hide Does;
    assert Runs(cfg, e, steps[4..], e);
    hide Runs;
    RunFrom(cfg, steps, 3, d, e, e);
    RunFrom(cfg, steps, 2, c, d, e);
    RunFrom(cfg, steps, 1, b, c, e);
    RunFrom(cfg, steps, 0, a, b, e);
    assert steps[0..] == steps;
  }

  lemma RunFrom(cfg: Config, steps: seq<Step>, k: nat, st: State, st1: State, st': State)
    requires k < |steps| && Does(cfg, st, steps[k], st1) && Runs(cfg, st1, steps[k + 1..], st')
    ensures Runs(cfg, st, steps[k..], st')
  {
    hide Next, Enabled;
    assert steps[k..][0] == steps[k] && steps[k..][1..] == steps[k + 1..];
  }

  /** Between the steps: nobody writes, and the subscriber of point p is about to be notified. */
  ghost predicate Underway(cfg: Config, st: State, l: nat, s: nat, p: nat) {
    && Inv(cfg, st) && Shaped(cfg, st) && AllFree(st) && s in st.subs && p in st.points && cfg.loopOf[s] == l
    && st.subs[s].point == Some(p)
  }

  lemma FirstAttached(cfg: Config, st: State, s: nat, p: nat) returns (st1: State)
    requires Inv(cfg, st) && Quiet(st) && s in st.subs && p in st.points && st.subs[s].state == Unsubscribed
    ensures Shaped(cfg, st) && Does(cfg, st, Attach(cfg.loopOf[s], s, p, UNKNOWN, None), st1)
    ensures var l := cfg.loopOf[s];
      && Underway(cfg, st1, l, s, p) && st1.points[p].version == st.points[p].version
      && st1.loops[l].inHand == None && st1.loops[l].callback == None
      && st1.loops[l].pending != [] && st1.loops[l].pending[0] == s
  {
    hide Inv, SubOk;
    InvBasics(cfg, st);
    SubIs(cfg, st, s);
    var l := cfg.loopOf[s];
    var step := Attach(l, s, p, UNKNOWN, None);
    Unhindered(cfg, st, l, p);
    UnsubscribedIs(cfg, st, s);
    assert Enabled(cfg, st, step);
    st1 := Next(cfg, st, step);
    hide Next, Enabled, QueueStep;
    AttachKeeps(cfg, st, l, s, p, UNKNOWN, None);
    InvBasics(cfg, st1);
    AttachEffect(cfg, st, l, s, p, UNKNOWN, None);
    DefaultAttachQueues(cfg, st, l, s, p, None);
    StepQueue(cfg, st, step, l);
    FirstInQueue(st1.loops[l].pending, s);
  }

  lemma UnsubscribedIs(cfg: Config, st: State, s: nat)
    requires Shaped(cfg, st) && s in st.subs && SubOk(cfg, st, s) && st.subs[s].state == Unsubscribed
    ensures st.subs[s].point == None && !RunsCallback(cfg, st, s)
  {
  }

  lemma FirstInQueue(q: seq<nat>, s: nat)
    requires s in q && QueueStep([], q, s)
    ensures q[0] == s
  {
  }

  lemma ThenDequeued(cfg: Config, st: State, l: nat, s: nat, p: nat) returns (st2: State)
    requires Underway(cfg, st, l, s, p) && st.loops[l].inHand == None && st.loops[l].callback == None
    requires st.loops[l].pending != [] && st.loops[l].pending[0] == s
    ensures Does(cfg, st, Dequeue(l), st2) && Underway(cfg, st2, l, s, p)
    ensures st2.points == st.points && st2.loops[l].inHand == Some(s)
  {
    hide Inv;
    Unhindered(cfg, st, l, p);
    assert Enabled(cfg, st, Dequeue(l));
    DequeueEffect(cfg, st, l);
    DequeueTakesHead(cfg, st, l);
    DequeueKeeps(cfg, st, l);
    st2 := Next(cfg, st, Dequeue(l));
    hide Next, Enabled;
    InvBasics(cfg, st2);
  }

  /** Taking the head of its queue in hand, the loop changes nothing but that mark. */
  lemma DequeueEffect(cfg: Config, st: State, l: nat)
    requires Inv(cfg, st) && Enabled(cfg, st, Dequeue(l))
    ensures Shaped(cfg, st) && var s, st' := st.loops[l].pending[0], Next(cfg, st, Dequeue(l));
      && s in st.subs && st'.subs == st.subs[s := st.subs[s].(home := Nowhere)]
      && st'.points == st.points && st'.locks == st.locks
  {
    hide Inv, Next;
    HeadIsQueued(cfg, st, l);
    InvBasics(cfg, st);
    HeadUnmarked(cfg, st, l);
  }

  lemma HeadUnmarked(cfg: Config, st: State, l: nat)
    requires Shaped(cfg, st) && Enabled(cfg, st, Dequeue(l)) && st.loops[l].pending[0] in st.subs
    requires st.subs[st.loops[l].pending[0]].home == AtLoop(l)
    ensures var s, st' := st.loops[l].pending[0], Next(cfg, st, Dequeue(l));
      && st'.subs == st.subs[s := st.subs[s].(home := Nowhere)] && st'.points == st.points && st'.locks == st.locks
  {
    hide Shaped, Without;
  }

  lemma ThenBegun(cfg: Config, st: State, l: nat, s: nat, p: nat) returns (st3: State)
    requires Underway(cfg, st, l, s, p) && st.loops[l].inHand == Some(s)
    ensures Does(cfg, st, BeginNotify(l), st3) && Underway(cfg, st3, l, s, p) && st3.points == st.points
    ensures st3.loops[l].inHand == None && st3.loops[l].callback == Some((s, p))
    ensures st3.subs[s].state == Notifying && st3.subs[s].seqNum == st.points[p].seqNum
    ensures st3.subs[s].known == Some(st.points[p].version)
  {
    hide Inv;
    Unhindered(cfg, st, l, p);
    assert Enabled(cfg, st, BeginNotify(l));
    hide Next, Enabled;
    BeginNotifyEffect(cfg, st, l);
    BeginNotifyKeeps(cfg, st, l);
    st3 := Next(cfg, st, BeginNotify(l));
    InvBasics(cfg, st3);
  }

  lemma ThenEnded(cfg: Config, st: State, l: nat, s: nat, p: nat) returns (st4: State)
    requires Underway(cfg, st, l, s, p) && st.loops[l].inHand == None && st.loops[l].callback == Some((s, p))
    requires st.subs[s].state == Notifying && st.subs[s].seqNum == st.points[p].seqNum
    ensures Does(cfg, st, EndNotify(l), st4) && s in st4.subs && st4.subs[s].state == Idle
    ensures st4.subs[s].point == Some(p) && st4.subs[s].known == st.subs[s].known
  {
    hide Inv, OnlySub;
    Unhindered(cfg, st, l, p);
    assert Enabled(cfg, st, EndNotify(l));
    hide Next, Enabled;
    EndNotifyEffect(cfg, st, l);
    st4 := Next(cfg, st, EndNotify(l));
  }
}
