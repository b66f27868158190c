/** The code of ModelPointCommon_ and EventLoop that moves subscribers between states and lists, as
    methods over one mutable record of points, subscribers and loops. Each of them is a run of the
    transition system. */
module NotificationCode {
  import opened Basics
  import opened SequenceNumbers
  import opened Notification
  import opened NotificationRuns

  // -------------------------------------------------------------------- runs put together

  lemma {:induction false} RunsAppend(cfg: Config, a: State, s: seq<Step>, b: State, t: seq<Step>, c: State)
    requires Runs(cfg, a, s, b) && Runs(cfg, b, t, c)
    ensures Runs(cfg, a, s + t, c)
    decreases |s|
  {
    hide Next, Enabled;
    if s == [] {
      assert s + t == t;
    } else {
      assert (s + t)[1..] == s[1..] + t;
      RunsAppend(cfg, Next(cfg, a, s[0]), s[1..], b, t, c);
    }
  }

  lemma OneStep(cfg: Config, st: State, step: Step)
    requires Shaped(cfg, st) && Enabled(cfg, st, step)
    ensures Runs(cfg, st, [step], Next(cfg, st, step))
  {
    hide Next, Enabled;
    assert [step][1..] == [];
  }

  lemma RunsOn(cfg: Config, a: State, steps: seq<Step>, b: State, step: Step)
    requires Runs(cfg, a, steps, b) && Shaped(cfg, b) && Enabled(cfg, b, step)
    ensures Runs(cfg, a, steps + [step], Next(cfg, b, step))
  {
    hide Next, Enabled, Runs;
    OneStep(cfg, b, step);
    RunsAppend(cfg, a, steps, b, [step], Next(cfg, b, step));
  }

  /** Taking the first subscriber off the list and sending it eDATA_CHANGED, as one piece and as two
      steps. */
  lemma DrainStep(cfg: Config, st: State, t: Thread, p: nat)
    requires Inv(cfg, st) && Enabled(cfg, st, TakeNext(t, p))
    ensures var s := st.points[p].subscribers[0]; var mid := Next(cfg, st, TakeNext(t, p));
      && s in st.subs && s in cfg.loopOf && cfg.loopOf[s] in st.loops
      && Shaped(cfg, mid) && Enabled(cfg, mid, Mark(t, p))
      && Next(cfg, mid, Mark(t, p)) == Deliver(cfg, DropPoint(st, p, s), p, s, DataChanged)
      && Next(cfg, mid, Mark(t, p)).points[p] == st.points[p].(subscribers := st.points[p].subscribers[1..])
      && Drains(cfg, Next(cfg, mid, Mark(t, p)), t, p)
  {
    hide Inv;
    var s := st.points[p].subscribers[0];
    InvBasics(cfg, st);
    HeadIsIdle(cfg, st, t, p);
    TakeNextEffect(cfg, st, t, p, s);
    MarkedIs(cfg, st, t, p, s);
    assert Without(st.points[p].subscribers, s) == st.points[p].subscribers[1..];
  }

  /** The state in which s is enqueued and not yet marked. */
  ghost function Enqueued(cfg: Config, st: State, t: Thread, p: nat, s: nat): State
    requires p in st.points && p in cfg.dbOf && s in st.subs && s in cfg.loopOf && cfg.loopOf[s] in st.loops
  {
    var l := cfg.loopOf[s];
    State(
      st.points[p := st.points[p].(subscribers := Without(st.points[p].subscribers, s))],
      st.subs[s := st.subs[s].(home := AtLoop(l))],
      st.loops[l := st.loops[l].(pending := st.loops[l].pending + [s])],
      st.locks[cfg.dbOf[p] := Marking(t, p, s)], st.fatal)
  }

  lemma MarkedIs(cfg: Config, st: State, t: Thread, p: nat, s: nat)
    requires Shaped(cfg, st) && Drains(cfg, st, t, p) && s in st.subs
    requires st.subs[s].state == Idle && st.subs[s].home == AtPoint(p)
    ensures var mid := Enqueued(cfg, st, t, p, s);
      && Shaped(cfg, mid) && Enabled(cfg, mid, Mark(t, p))
      && Next(cfg, mid, Mark(t, p)) == Deliver(cfg, DropPoint(st, p, s), p, s, DataChanged)
      && Next(cfg, mid, Mark(t, p)).points == mid.points && Next(cfg, mid, Mark(t, p)).locks == st.locks
  {
    hide Deliver, DropPoint, Without;
    DroppedAndChanged(cfg, st, p, s);
    MarkMay(cfg, st, t, p, s);
    MarkDoes(cfg, st, t, p, s);
  }

  lemma MarkMay(cfg: Config, st: State, t: Thread, p: nat, s: nat)
    requires Shaped(cfg, st) && Drains(cfg, st, t, p) && s in st.subs
    ensures Shaped(cfg, Enqueued(cfg, st, t, p, s)) && Enabled(cfg, Enqueued(cfg, st, t, p, s), Mark(t, p))
  {
    hide Without;
  }

  lemma MarkDoes(cfg: Config, st: State, t: Thread, p: nat, s: nat)
    requires Shaped(cfg, st) && Drains(cfg, st, t, p) && s in st.subs
    requires Shaped(cfg, Enqueued(cfg, st, t, p, s)) && Enabled(cfg, Enqueued(cfg, st, t, p, s), Mark(t, p))
    ensures var mid, l := Enqueued(cfg, st, t, p, s), cfg.loopOf[s];
      Next(cfg, mid, Mark(t, p)) ==
        State(mid.points, st.subs[s := st.subs[s].(home := AtLoop(l), state := Pending)], mid.loops, st.locks, st.fatal)
  {
    hide Without;
    var d, l := cfg.dbOf[p], cfg.loopOf[s];
    SetTwice(st.subs, s, st.subs[s].(home := AtLoop(l)), st.subs[s].(home := AtLoop(l), state := Pending));
    SetTwice(st.locks, d, Marking(t, p, s), Draining(t, p));
    assert st.locks[d := Draining(t, p)] == st.locks;
  }

  lemma DroppedAndChanged(cfg: Config, st: State, p: nat, s: nat)
    requires s in st.subs && p in st.points && s in cfg.loopOf && cfg.loopOf[s] in st.loops
    requires st.subs[s].state == Idle && st.subs[s].home == AtPoint(p)
    ensures var l := cfg.loopOf[s];
      Deliver(cfg, DropPoint(st, p, s), p, s, DataChanged) == State(
        st.points[p := st.points[p].(subscribers := Without(st.points[p].subscribers, s))],
        st.subs[s := st.subs[s].(home := AtLoop(l), state := Pending)],
        st.loops[l := st.loops[l].(pending := st.loops[l].pending + [s])], st.locks, st.fatal)
  {
    hide Without, Deliver;
    var l, x := cfg.loopOf[s], st.subs[s];
    DataChangedIs(cfg, DropPoint(st, p, s), p, s);
    SetTwice(st.subs, s, x.(home := Nowhere), x.(home := AtLoop(l), state := Pending));
  }

  lemma SetTwice<V>(m: map<nat, V>, k: nat, a: V, b: V)
    ensures m[k := a][k := b] == m[k := b]
  {
  }

  lemma DataChangedIs(cfg: Config, st: State, p: nat, s: nat)
    requires s in st.subs && p in st.points && s in cfg.loopOf && cfg.loopOf[s] in st.loops
    requires st.subs[s].state == Idle && st.subs[s].home == Nowhere
    ensures var l := cfg.loopOf[s];
      Deliver(cfg, st, p, s, DataChanged) == State(
        st.points, st.subs[s := st.subs[s].(home := AtLoop(l), state := Pending)],
        st.loops[l := st.loops[l].(pending := st.loops[l].pending + [s])], st.locks, st.fatal)
  {
    var l, x := cfg.loopOf[s], st.subs[s];
    SetTwice(st.subs, s, x.(home := AtLoop(l)), x.(home := AtLoop(l), state := Pending));
  }

  // --------------------------------------------------------------------------- the code

  class ModelBase {
    const cfg: Config
    var points: map<nat, Point>
    var subs: map<nat, Sub>
    var loops: map<nat, Loop>
    var locks: map<nat, Lock>
    var fatal: bool

    ghost function Value(): State
      reads this
    {
      State(points, subs, loops, locks, fatal)
    }

    ghost predicate Knows(p: nat, s: nat)
      reads this
    {
      s in subs && p in points && s in cfg.loopOf && cfg.loopOf[s] in loops
    }

    constructor (cfg: Config, points: map<nat, Point>, subs: map<nat, Sub>,
                 loops: map<nat, Loop>, locks: map<nat, Lock>)
      ensures this.cfg == cfg && Value() == State(points, subs, loops, locks, false)
    {
      this.cfg, this.points, this.subs, this.loops, this.locks, fatal := cfg, points, subs, loops, locks, false;
    }

    method SetSubscriberState(s: nat, state: Fsm)
      requires s in subs
      modifies this`subs
      ensures Value() == SetState(old(Value()), s, state)
    {
      subs := subs[s := subs[s].(state := state)];
    }

    method PutInPoint(p: nat, s: nat)
      requires p in points && s in subs
      modifies this
      ensures Value() == PutPoint(old(Value()), p, s)
    {
      if subs[s].home != Nowhere {
        fatal := true;
      } else {
        points := points[p := points[p].(subscribers := points[p].subscribers + [s])];
        subs := subs[s := subs[s].(home := AtPoint(p))];
      }
    }

    method RemoveFromPoint(p: nat, s: nat)
      requires p in points && s in subs
      modifies this
      ensures Value() == DropPoint(old(Value()), p, s)
    {
      if subs[s].home == AtPoint(p) {
        points := points[p := points[p].(subscribers := Without(points[p].subscribers, s))];
        subs := subs[s := subs[s].(home := Nowhere)];
      }
    }

    method AddPendingChangeNotification(l: nat, s: nat)
      requires l in loops && s in subs
      modifies this
      ensures Value() == PutLoop(old(Value()), l, s)
    {
      if subs[s].home != Nowhere {
        fatal := true;
      } else {
        loops := loops[l := loops[l].(pending := loops[l].pending + [s])];
        subs := subs[s := subs[s].(home := AtLoop(l))];
      }
    }

    method RemovePendingChangeNotification(l: nat, s: nat)
      requires l in loops && s in subs
      modifies this
      ensures Value() == DropLoop(old(Value()), l, s)
    {
      if subs[s].home == AtLoop(l) {
        loops := loops[l := loops[l].(pending := Without(loops[l].pending, s))];
        subs := subs[s := subs[s].(home := Nowhere)];
      }
    }

    method TransitionToNotifyPending(p: nat, s: nat)
      requires Knows(p, s)
      modifies this
      ensures Value() == ToPending(cfg, old(Value()), s)
    {
      AddPendingChangeNotification(cfg.loopOf[s], s);
      SetSubscriberState(s, Pending);
    }

    method TransitionToSubscribed(p: nat, s: nat)
      requires Knows(p, s)
      modifies this
      ensures Value() == ToSubscribed(cfg, old(Value()), p, s)
    {
      RemoveFromPoint(p, s);
      if points[p].seqNum == subs[s].seqNum {
        SetSubscriberState(s, Idle);
        PutInPoint(p, s);
      } else {
        TransitionToNotifyPending(p, s);
      }
    }

    method ProcessSubscriptionEvent(p: nat, s: nat, event: Event)
      requires Knows(p, s)
      modifies this
      ensures Value() == Deliver(cfg, old(Value()), p, s, event)
    {
      hide ToSubscribed, ToPending, DropPoint, DropLoop;
      match subs[s].state {
        case Unsubscribed =>
          match event {
            case Attaching => TransitionToSubscribed(p, s);
            case DataChanged => fatal := true;
            case _ =>
          }
        case Idle =>
          match event {
            case Attaching => TransitionToSubscribed(p, s);
            case Detaching =>
              RemoveFromPoint(p, s);
              SetSubscriberState(s, Unsubscribed);
            case DataChanged => TransitionToNotifyPending(p, s);
            case _ =>
          }
        case Pending =>
          match event {
            case Attaching =>
              RemovePendingChangeNotification(cfg.loopOf[s], s);
              TransitionToSubscribed(p, s);
            case Detaching =>
              RemovePendingChangeNotification(cfg.loopOf[s], s);
              SetSubscriberState(s, Unsubscribed);
            case NotifyStarting =>
              subs := subs[s := subs[s].(seqNum := points[p].seqNum, known := Some(points[p].version))];
              SetSubscriberState(s, Notifying);
            case DataChanged => fatal := true;
            case _ =>
          }
        case Notifying =>
          match event {
            case Detaching => SetSubscriberState(s, PendingDetach);
            case NotifyComplete => TransitionToSubscribed(p, s);
            case DataChanged => fatal := true;
            case _ =>
          }
        case PendingDetach =>
          match event {
            case Attaching => SetSubscriberState(s, Notifying);
            case NotifyComplete => SetSubscriberState(s, Unsubscribed);
            case DataChanged => fatal := true;
            case _ =>
          }
      }
    }

    /** Subscribes, from the subscriber's own thread; known is the version the number stands for. */
    method AttachSubscriber(p: nat, s: nat, initialSeqNum: nat, known: Option<nat>)
      requires Knows(p, s) && Shaped(cfg, Value())
      requires Enabled(cfg, Value(), Attach(cfg.loopOf[s], s, p, initialSeqNum, known))
      modifies this
      ensures Value() == Next(cfg, old(Value()), Attach(cfg.loopOf[s], s, p, initialSeqNum, known))
    {
      hide Deliver;
      subs := subs[s := subs[s].(seqNum := initialSeqNum, known := known, point := Some(p))];
      ProcessSubscriptionEvent(p, s, Attaching);
    }

    method DetachSubscriber(p: nat, s: nat)
      requires Knows(p, s) && Shaped(cfg, Value())
      requires Enabled(cfg, Value(), Detach(cfg.loopOf[s], s, p))
      modifies this
      ensures Value() == Next(cfg, old(Value()), Detach(cfg.loopOf[s], s, p))
    {
      hide Deliver;
      ProcessSubscriptionEvent(p, s, Detaching);
      subs := subs[s := subs[s].(point := None)];
    }

    /** What every change of a point ends with: the number advances and all subscribers of the point
        are queued for notification. Nothing else happens in between, because the database stays
        locked and the loops are left alone here. */
    method ProcessChangeNotifications(t: Thread, p: nat) returns (ghost steps: seq<Step>)
      requires Inv(cfg, Value()) && Enabled(cfg, Value(), StartWrite(t, p))
      modifies this
      ensures Runs(cfg, old(Value()), steps, Value()) && Inv(cfg, Value())
      ensures p in points && p in old(points) && points[p].subscribers == []
      ensures points[p].version == old(points[p].version) + 1
      ensures steps != [] && steps[0] == StartWrite(t, p) && |steps| == 2 * |old(points[p].subscribers)| + 2
    {
      hide Inv, Runs, Next, Deliver;
      InvBasics(cfg, Value());
      AdvanceSequenceNumber(t, p);
      steps := [StartWrite(t, p)];
      OneStep(cfg, old(Value()), StartWrite(t, p));
      StepKeeps(cfg, old(Value()), StartWrite(t, p));
      ghost var n := |points[p].subscribers|;
      while points[p].subscribers != []
        invariant Inv(cfg, Value()) && Drains(cfg, Value(), t, p)
        invariant Runs(cfg, old(Value()), steps, Value())
        invariant steps != [] && steps[0] == StartWrite(t, p) && |steps| + 2 * |points[p].subscribers| == 2 * n + 1
        invariant points[p].version == old(points[p].version) + 1
        decreases |points[p].subscribers|
      {
        steps := Drain(t, p, old(Value()), steps);
      }
      InvBasics(cfg, Value());
      RunsOn(cfg, old(Value()), steps, Value(), EndWrite(t, p));
      StepKeeps(cfg, Value(), EndWrite(t, p));
      Unlock(t, p);
      steps := steps + [EndWrite(t, p)];
    }

    method AdvanceSequenceNumber(t: Thread, p: nat)
      requires Inv(cfg, Value()) && Enabled(cfg, Value(), StartWrite(t, p))
      modifies this`points, this`locks
      ensures Value() == Next(cfg, old(Value()), StartWrite(t, p))
      ensures Drains(cfg, Value(), t, p) && points[p].version == old(points[p].version) + 1
      ensures points[p].subscribers == old(points[p].subscribers)
    {
      locks := locks[cfg.dbOf[p] := Draining(t, p)];
      points := points[p := points[p].(seqNum := Advance(points[p].seqNum), version := points[p].version + 1)];
    }

    method Unlock(t: Thread, p: nat)
      requires Shaped(cfg, Value()) && Enabled(cfg, Value(), EndWrite(t, p))
      modifies this`locks
      ensures Value() == Next(cfg, old(Value()), EndWrite(t, p))
    {
      locks := locks[cfg.dbOf[p] := Free];
    }

    /** One turn of the draining loop. */
    method Drain(t: Thread, p: nat, ghost start: State, ghost steps: seq<Step>) returns (ghost steps': seq<Step>)
      requires Inv(cfg, Value()) && Enabled(cfg, Value(), TakeNext(t, p)) && Runs(cfg, start, steps, Value())
      modifies this
      ensures Inv(cfg, Value()) && Runs(cfg, start, steps', Value())
      ensures steps' == steps + [TakeNext(t, p)] + [Mark(t, p)]
      ensures Drains(cfg, Value(), t, p) && points[p].subscribers == old(points[p].subscribers[1..])
      ensures points[p].version == old(points[p].version)
    {
      ghost var st := Value();
      HeadIsIdle(cfg, st, t, p);
      DrainStep(cfg, st, t, p);
      hide Inv, Runs, Deliver;
      RunsOn(cfg, start, steps, st, TakeNext(t, p));
      ghost var mid := Next(cfg, st, TakeNext(t, p));
      hide Next;
      RunsOn(cfg, start, steps + [TakeNext(t, p)], mid, Mark(t, p));
      StepKeeps(cfg, st, TakeNext(t, p));
      StepKeeps(cfg, mid, Mark(t, p));
      var s := points[p].subscribers[0];
      RemoveFromPoint(p, s);
      ProcessSubscriptionEvent(p, s, DataChanged);
      steps' := steps + [TakeNext(t, p)] + [Mark(t, p)];
    }

    /** The loop's thread takes the next pending subscriber and makes it ready for its callback. */
    method BeginNotification(l: nat) returns (ghost steps: seq<Step>)
      requires Inv(cfg, Value()) && Enabled(cfg, Value(), Dequeue(l))
      requires Enabled(cfg, Next(cfg, Value(), Dequeue(l)), BeginNotify(l))
      modifies this
      ensures Runs(cfg, old(Value()), steps, Value()) && Inv(cfg, Value()) && steps == [Dequeue(l), BeginNotify(l)]
    {
      hide Inv, Runs;
      steps := [Dequeue(l), BeginNotify(l)];
      InvBasics(cfg, Value());
      BeginIsARun(cfg, Value(), l);
      TakeFromQueue(l);
      SendNotifying(l);
    }

    method TakeFromQueue(l: nat)
      requires Shaped(cfg, Value()) && Enabled(cfg, Value(), Dequeue(l)) && loops[l].pending[0] in subs
      modifies this
      ensures Value() == Next(cfg, old(Value()), Dequeue(l))
    {
      hide DropLoop;
      var s := loops[l].pending[0];
      RemovePendingChangeNotification(l, s);
      loops := loops[l := loops[l].(inHand := Some(s))];
    }

    method SendNotifying(l: nat)
      requires Shaped(cfg, Value()) && Enabled(cfg, Value(), BeginNotify(l))
      requires Ready(cfg, Value(), l, loops[l].inHand.value)
      modifies this
      ensures Value() == Next(cfg, old(Value()), BeginNotify(l))
    {
      var s := loops[l].inHand.value;
      var p := subs[s].point.value;
      ghost var st := Value();
      ProcessSubscriptionEvent(p, s, NotifyStarting);
      assert loops == st.loops;
      hide Deliver;
      loops := loops[l := loops[l].(inHand := None, callback := Some((s, p)))];
    }

    /** After the callback. */
    method CompleteNotification(l: nat)
      requires Shaped(cfg, Value()) && Enabled(cfg, Value(), EndNotify(l))
      requires var (s, p) := loops[l].callback.value; s in subs && p in points
      modifies this
      ensures Value() == Next(cfg, old(Value()), EndNotify(l))
    {
      hide Deliver;
      var (s, p) := loops[l].callback.value;
      loops := loops[l := loops[l].(callback := None)];
      ProcessSubscriptionEvent(p, s, NotifyComplete);
    }
  }

  /** Subscriber s of loop l may be sent eNOTIFYING. */
  ghost predicate Ready(cfg: Config, st: State, l: nat, s: nat) {
    && s in cfg.loopOf && cfg.loopOf[s] == l && s in st.subs
    && st.subs[s].state == Pending && st.subs[s].point.Some? && st.subs[s].point.value in st.points
  }

  lemma BeginIsARun(cfg: Config, st: State, l: nat)
    requires Inv(cfg, st) && Enabled(cfg, st, Dequeue(l)) && Shaped(cfg, st)
    requires Enabled(cfg, Next(cfg, st, Dequeue(l)), BeginNotify(l))
    ensures st.loops[l].pending[0] in st.subs
    ensures var mid := Next(cfg, st, Dequeue(l));
      && Shaped(cfg, mid) && l in mid.loops && mid.loops[l].inHand.Some? && mid.loops[l].inHand.value in mid.subs
      && Ready(cfg, mid, l, mid.loops[l].inHand.value)
      && Runs(cfg, st, [Dequeue(l), BeginNotify(l)], Next(cfg, mid, BeginNotify(l)))
      && Inv(cfg, Next(cfg, mid, BeginNotify(l)))
  {
    hide Inv, Next, Runs;
    var mid := Next(cfg, st, Dequeue(l));
    StepKeeps(cfg, st, Dequeue(l));
    InvBasics(cfg, mid);
    HeadIsQueued(cfg, st, l);
    NotifyFindsPending(cfg, mid, l);
    StepKeeps(cfg, mid, BeginNotify(l));
    OneStep(cfg, st, Dequeue(l));
    RunsOn(cfg, st, [Dequeue(l)], mid, BeginNotify(l));
    assert [Dequeue(l)] + [BeginNotify(l)] == [Dequeue(l), BeginNotify(l)];
  }
}
