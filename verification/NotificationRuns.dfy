/** What the notification protocol guarantees over whole runs. */
module NotificationRuns {
  import opened Basics
  import opened SequenceNumbers
  import opened Notification

  // ----------------------------------------------------------------------------- runs

  /** Fresh points, loops and subscribers, as their constructors leave them. */
  ghost predicate Init(cfg: Config, st: State) {
    && Shaped(cfg, st) && !st.fatal
    && (forall p :: p in st.points ==> st.points[p] == Point(UNKNOWN + 1, 0, []))
    && (forall s :: s in st.subs ==> st.subs[s] == Sub(Unsubscribed, None, UNKNOWN, None, Nowhere))
    && (forall l :: l in st.loops ==> st.loops[l] == Loop([], None, None))
    && (forall d :: d in st.locks ==> st.locks[d] == Free)
  }

  /** Each step is enabled in the state the steps before it lead to. */
  ghost predicate Runs(cfg: Config, st: State, steps: seq<Step>, st': State)
    decreases |steps|
  {
    if steps == [] then st' == st
    else Shaped(cfg, st) && Enabled(cfg, st, steps[0]) && Runs(cfg, Next(cfg, st, steps[0]), steps[1..], st')
  }

  lemma InitInv(cfg: Config, st: State)
    requires Init(cfg, st)
    ensures Inv(cfg, st)
  {
    InitLists(cfg, st);
    assert LocksOk(cfg, st) && LoopsOk(cfg, st) && VersionsOk(st);
    assert forall s :: s in st.subs ==> SubOk(cfg, st, s);
    hide ListsOk, LocksOk, LoopsOk, VersionsOk, SubOk, Init;
    InvAgain(cfg, st);
  }

  lemma InitLists(cfg: Config, st: State)
    requires Init(cfg, st)
    ensures ListsOk(st)
  {
    assert forall p :: p in st.points ==> ListOk(st, st.points[p].subscribers, AtPoint(p));
  }

  lemma {:induction false} RunKeeps(cfg: Config, st: State, steps: seq<Step>, st': State)
    requires Inv(cfg, st) && Runs(cfg, st, steps, st')
    ensures Inv(cfg, st')
    decreases |steps|
  {
    hide Inv;
    if steps != [] {
      StepKeeps(cfg, st, steps[0]);
      RunKeeps(cfg, Next(cfg, st, steps[0]), steps[1..], st');
    }
  }

  // --------------------------------------------------------------------------- safety

  /** In some list. */
  ghost predicate Listed(st: State, s: nat) {
    || (exists p :: p in st.points && s in st.points[p].subscribers)
    || (exists l :: l in st.loops && s in st.loops[l].pending)
  }

  /** In one list at most, and in that once. */
  ghost predicate SingleList(st: State, s: nat) {
    && (forall p, r :: p in st.points && r in st.points ==>
         (s in st.points[p].subscribers && s in st.points[r].subscribers ==> p == r))
    && (forall l, k :: l in st.loops && k in st.loops ==>
         (s in st.loops[l].pending && s in st.loops[k].pending ==> l == k))
    && (forall p, l :: p in st.points && l in st.loops && s in st.points[p].subscribers ==> s !in st.loops[l].pending)
  }

  /** In every reachable state, whatever the threads do: no fatal error was raised, no list has a
      repeated entry, and every subscriber is where its state says. */
  lemma ReachableIsSafe(cfg: Config, st: State, steps: seq<Step>, st': State, s: nat)
    requires Init(cfg, st) && Runs(cfg, st, steps, st') && s in st'.subs
    ensures Shaped(cfg, st') && !st'.fatal && SingleList(st', s)
    ensures forall p :: p in st'.points ==> Distinct(st'.points[p].subscribers)
    ensures forall l :: l in st'.loops ==> Distinct(st'.loops[l].pending)
    ensures var x := st'.subs[s]; var k := st'.loops[cfg.loopOf[s]];
      && (x.state in {Unsubscribed, Notifying, PendingDetach} ==> !Listed(st', s))
      && (x.state == Pending ==> (s in k.pending || k.inHand == Some(s)))
      && (x.state == Idle && x.point.Some? && x.point.value in st'.points && Unlocked(cfg, st', x.point.value) ==>
            s in st'.points[x.point.value].subscribers && x.seqNum == st'.points[x.point.value].seqNum)
      && (x.state == Idle ==> x.point.Some? && x.point.value in st'.points)
  {
    hide Inv, SingleList;
    InitInv(cfg, st);
    RunKeeps(cfg, st, steps, st');
    Located(cfg, st', s);
    InvBasics(cfg, st');
  }

  lemma InvBasics(cfg: Config, st: State)
    requires Inv(cfg, st)
    ensures Shaped(cfg, st) && !st.fatal && LocksOk(cfg, st) && LoopsOk(cfg, st)
  {
  }

  lemma Located(cfg: Config, st: State, s: nat)
    requires Inv(cfg, st) && s in st.subs
    ensures SingleList(st, s)
    ensures forall p :: p in st.points ==> (s in st.points[p].subscribers <==> st.subs[s].home == AtPoint(p))
    ensures forall l :: l in st.loops ==> (s in st.loops[l].pending <==> st.subs[s].home == AtLoop(l))
    ensures forall p :: p in st.points ==> Distinct(st.points[p].subscribers)
    ensures forall l :: l in st.loops ==> Distinct(st.loops[l].pending)
    ensures SubOk(cfg, st, s)
  {
    hide Shaped, LocksOk, LoopsOk, VersionsOk, SubOk, SingleList;
    forall p | p in st.points
      ensures s in st.points[p].subscribers <==> st.subs[s].home == AtPoint(p)
      ensures Distinct(st.points[p].subscribers)
    {
      assert ListOk(st, st.points[p].subscribers, AtPoint(p));
    }
    forall l | l in st.loops
      ensures s in st.loops[l].pending <==> st.subs[s].home == AtLoop(l)
      ensures Distinct(st.loops[l].pending)
    {
      assert ListOk(st, st.loops[l].pending, AtLoop(l));
    }
    hide ListsOk, ListOk, Distinct;
    OneHome(st, s);
  }

  /** The mark names one list. */
  lemma OneHome(st: State, s: nat)
    requires s in st.subs
    requires forall p :: p in st.points ==> (s in st.points[p].subscribers <==> st.subs[s].home == AtPoint(p))
    requires forall l :: l in st.loops ==> (s in st.loops[l].pending <==> st.subs[s].home == AtLoop(l))
    ensures SingleList(st, s)
  {
  }

  /** eNOTIFYING is only ever sent to a subscriber in the Pending state, and from there the
      callback starts with the point's current number. */
  lemma NotifyIsNeverIgnored(cfg: Config, st: State, steps: seq<Step>, st': State, l: nat)
    requires Init(cfg, st) && Runs(cfg, st, steps, st') && Enabled(cfg, st', BeginNotify(l))
    ensures Shaped(cfg, st')
    ensures var s := st'.loops[l].inHand.value; var st'' := Next(cfg, st', BeginNotify(l));
      && st'.subs[s].state == Pending && st'.subs[s].point.Some? && st'.subs[s].point.value in st'.points
      && s in st''.subs && st''.subs[s].state == Notifying
      && st''.subs[s].seqNum == st'.points[st'.subs[s].point.value].seqNum
  {
    hide Inv;
    InitInv(cfg, st);
    RunKeeps(cfg, st, steps, st');
    InvBasics(cfg, st');
    NotifyFindsPending(cfg, st', l);
  }

  // -------------------------------------------------------------------- no lost update

  /** A subscriber that is attached to an unlocked point, is not queued at its loop and has no
      callback running, holds the point's current number; and if what it last learnt is fewer
      than PERIOD changes old, it is the current version. */
  lemma UpToDate(cfg: Config, st: State, steps: seq<Step>, st': State, s: nat, p: nat)
    requires Init(cfg, st) && Runs(cfg, st, steps, st')
    requires s in st'.subs && s in cfg.loopOf && cfg.loopOf[s] in st'.loops && p in st'.points
    requires st'.subs[s].point == Some(p) && Unlocked(cfg, st', p)
    requires var k := st'.loops[cfg.loopOf[s]];
      s !in k.pending && k.inHand != Some(s) && (k.callback.Some? ==> k.callback.value.0 != s)
    ensures st'.subs[s].state == Idle && st'.subs[s].seqNum == st'.points[p].seqNum && s in st'.points[p].subscribers
    ensures var v := st'.subs[s].known; v.Some? ==>
      && v.value <= st'.points[p].version && (st'.points[p].version - v.value) % PERIOD == 0
      && (st'.points[p].version - v.value < PERIOD ==> v.value == st'.points[p].version)
  {
    hide Inv, SeqOf, Runs, Init;
    InitInv(cfg, st);
    RunKeeps(cfg, st, steps, st');
    UpToDateNow(cfg, st', s, p);
    if st'.subs[s].known.Some? {
      KnownBehind(cfg, st', s, p);
      SameNumber(st'.subs[s].known.value, st'.points[p].version);
    }
  }

  lemma UpToDateNow(cfg: Config, st: State, s: nat, p: nat)
    requires Inv(cfg, st) && s in st.subs && p in st.points
    requires st.subs[s].point == Some(p) && Unlocked(cfg, st, p) && s in cfg.loopOf && cfg.loopOf[s] in st.loops
    requires var k := st.loops[cfg.loopOf[s]];
      s !in k.pending && k.inHand != Some(s) && (k.callback.Some? ==> k.callback.value.0 != s)
    ensures st.subs[s].state == Idle && st.subs[s].seqNum == st.points[p].seqNum && s in st.points[p].subscribers
  {
    hide Inv, SingleList;
    InvBasics(cfg, st);
    Located(cfg, st, s);
  }

  lemma PointNumber(cfg: Config, st: State, p: nat)
    requires Inv(cfg, st) && p in st.points
    ensures st.points[p].seqNum == SeqOf(st.points[p].version)
  {
  }

  lemma KnownBehind(cfg: Config, st: State, s: nat, p: nat)
    requires Inv(cfg, st) && s in st.subs && p in st.points && st.subs[s].known.Some?
    ensures st.points[p].seqNum == SeqOf(st.points[p].version)
    ensures st.subs[s].seqNum == SeqOf(st.subs[s].known.value)
    ensures st.subs[s].point == Some(p) ==> st.subs[s].known.value <= st.points[p].version
  {
  }

  /** No notification pending, no callback running, nobody updating. */
  ghost predicate Quiet(st: State) {
    && (forall d :: d in st.locks ==> st.locks[d] == Free)
    && (forall l :: l in st.loops ==> st.loops[l] == Loop([], None, None))
  }

  /** Every attached subscriber is idle and holds its point's current number. */
  ghost predicate AllUpToDate(st: State) {
    forall s, p :: s in st.subs && p in st.points && st.subs[s].point == Some(p) ==>
      st.subs[s].state == Idle && st.subs[s].seqNum == st.points[p].seqNum
  }

  /** Nothing is lost: in a quiet reachable state every attached subscriber is up to date. */
  lemma NoLostUpdate(cfg: Config, st: State, steps: seq<Step>, st': State)
    requires Init(cfg, st) && Runs(cfg, st, steps, st') && Quiet(st')
    ensures AllUpToDate(st')
  {
    hide Inv;
    InitInv(cfg, st);
    RunKeeps(cfg, st, steps, st');
    QuietIsUpToDate(cfg, st');
  }

  lemma QuietIsUpToDate(cfg: Config, st: State)
    requires Inv(cfg, st) && Quiet(st)
    ensures AllUpToDate(st)
  {
    hide Inv;
    InvBasics(cfg, st);
    forall s, p | s in st.subs && p in st.points && st.subs[s].point == Some(p)
      ensures st.subs[s].state == Idle && st.subs[s].seqNum == st.points[p].seqNum
    {
      UpToDateNow(cfg, st, s, p);
    }
  }

  /** A callback that read version v (readAndSync, or the number it started with) is followed by
      another notification exactly when the changes since are not a multiple of PERIOD: that is
      the only way an update can go unnoticed. */
  lemma RenotifiedIff(cfg: Config, st: State, l: nat)
    requires Inv(cfg, st) && Enabled(cfg, st, EndNotify(l))
    requires var (s, p) := st.loops[l].callback.value;
      s in st.subs && st.subs[s].state == Notifying && st.subs[s].known.Some?
    ensures var (s, p) := st.loops[l].callback.value; var st' := Next(cfg, st, EndNotify(l));
      && s in st'.subs && p in st.points && st.subs[s].known.value <= st.points[p].version
      && st'.subs[s].state == (if (st.points[p].version - st.subs[s].known.value) % PERIOD == 0 then Idle else Pending)
  {
    hide Inv, Deliver, OnlySub, ListsOk, SeqOf;
    var (s, p) := st.loops[l].callback.value;
    CallingNow(cfg, st, l);
    KnownBehind(cfg, st, s, p);
    SameNumber(st.subs[s].known.value, st.points[p].version);
    EndNotifyResult(cfg, st, l, s, p);
  }

  /** The same for a subscriber that attaches with the number it read earlier. */
  lemma NotifiedOnAttachIff(cfg: Config, st: State, l: nat, s: nat, p: nat, v: nat)
    requires Inv(cfg, st) && Enabled(cfg, st, Attach(l, s, p, SeqOf(v), Some(v)))
    requires st.subs[s].state in {Unsubscribed, Idle, Pending}
    ensures var st' := Next(cfg, st, Attach(l, s, p, SeqOf(v), Some(v)));
      && s in st'.subs && p in st.points
      && st'.subs[s].state == (if (st.points[p].version - v) % PERIOD == 0 then Idle else Pending)
  {
    hide Inv, Deliver, OnlySub, ListsOk, SeqOf;
    CallableNow(cfg, st, l, s, p);
    PointNumber(cfg, st, p);
    SameNumber(v, st.points[p].version);
    AttachResult(cfg, st, l, s, p, SeqOf(v), Some(v));
  }

  // ------------------------------------------------------------------------- settling

  /** The steps the protocol takes by itself, once nobody writes, attaches or detaches. */
  predicate Internal(step: Step) {
    step.TakeNext? || step.Mark? || step.EndWrite? || step.Dequeue? || step.BeginNotify? || step.EndNotify?
  }

  /** What is left to do for a database: the subscribers still to be drained. */
  ghost function LockWork(st: State, d: nat): nat {
    if d !in st.locks || st.locks[d].Free? || st.locks[d].p !in st.points then 0
    else 6 * |st.points[st.locks[d].p].subscribers| + (if st.locks[d].Draining? then 1 else 2)
  }

  /** A callback that would have to be followed by another one. */
  ghost predicate Stale(st: State, s: nat, p: nat) {
    s in st.subs && p in st.points && st.subs[s].state == Notifying && st.subs[s].seqNum != st.points[p].seqNum
  }

  /** What is left to do for a loop. */
  ghost function LoopWork(st: State, l: nat): nat {
    if l !in st.loops then 0 else
    var k := st.loops[l];
    4 * |k.pending| + (if k.inHand.Some? then 3 else 0)
      + (if k.callback == None then 0 else if Stale(st, k.callback.value.0, k.callback.value.1) then 7 else 2)
  }

  ghost function Sum(f: nat -> nat, keys: seq<nat>): nat {
    if keys == [] then 0 else f(keys[0]) + Sum(f, keys[1..])
  }

  lemma {:induction false} SumSame(f: nat -> nat, g: nat -> nat, keys: seq<nat>)
    requires forall k :: k in keys ==> f(k) == g(k)
    ensures Sum(f, keys) == Sum(g, keys)
  {
    if keys != [] {
      assert keys[0] in keys && forall k :: k in keys[1..] ==> k in keys;
      SumSame(f, g, keys[1..]);
    }
  }

  /** Two sums that differ in one term. */
  lemma {:induction false} SumChange(f: nat -> nat, g: nat -> nat, keys: seq<nat>, k: nat)
    requires Distinct(keys) && k in keys && forall j :: j in keys && j != k ==> f(j) == g(j)
    ensures Sum(g, keys) - g(k) == Sum(f, keys) - f(k)
  {
    assert keys == [keys[0]] + keys[1..];
    if keys[0] == k {
      assert k !in keys[1..];
      SumSame(f, g, keys[1..]);
    } else {
      SumChange(f, g, keys[1..], k);
    }
  }

  /** The keys of a map, each once. */
  ghost predicate Lists<V>(keys: seq<nat>, m: map<nat, V>) {
    Distinct(keys) && forall k :: k in keys <==> k in m
  }

  ghost function Work(st: State, dbs: seq<nat>, loops: seq<nat>): nat {
    Sum(d => LockWork(st, d), dbs) + Sum(l => LoopWork(st, l), loops)
  }

  /** A step that changes the work of at most one database and one loop, and lowers their sum. */
  lemma LessWork(st: State, st': State, dbs: seq<nat>, loops: seq<nat>, d: nat, l: nat)
    requires Distinct(dbs) && Distinct(loops) && d in dbs && l in loops
    requires forall e :: e in dbs && e != d ==> LockWork(st', e) == LockWork(st, e)
    requires forall k :: k in loops && k != l ==> LoopWork(st', k) == LoopWork(st, k)
    requires LockWork(st', d) + LoopWork(st', l) < LockWork(st, d) + LoopWork(st, l)
    ensures Work(st', dbs, loops) < Work(st, dbs, loops)
  {
    SumChange(e => LockWork(st, e), e => LockWork(st', e), dbs, d);
    SumChange(k => LoopWork(st, k), k => LoopWork(st', k), loops, l);
  }

  lemma LessLockWork(st: State, st': State, dbs: seq<nat>, loops: seq<nat>, d: nat)
    requires Distinct(dbs) && d in dbs && LockWork(st', d) < LockWork(st, d)
    requires forall e :: e in dbs && e != d ==> LockWork(st', e) == LockWork(st, e)
    requires forall k :: k in loops ==> LoopWork(st', k) == LoopWork(st, k)
    ensures Work(st', dbs, loops) < Work(st, dbs, loops)
  {
    SumChange(e => LockWork(st, e), e => LockWork(st', e), dbs, d);
    SumSame(k => LoopWork(st, k), k => LoopWork(st', k), loops);
  }

  lemma LessLoopWork(st: State, st': State, dbs: seq<nat>, loops: seq<nat>, l: nat)
    requires Distinct(loops) && l in loops && LoopWork(st', l) < LoopWork(st, l)
    requires forall e :: e in dbs ==> LockWork(st', e) == LockWork(st, e)
    requires forall k :: k in loops && k != l ==> LoopWork(st', k) == LoopWork(st, k)
    ensures Work(st', dbs, loops) < Work(st, dbs, loops)
  {
    SumSame(e => LockWork(st, e), e => LockWork(st', e), dbs);
    SumChange(k => LoopWork(st, k), k => LoopWork(st', k), loops, l);
  }

  lemma {:induction false} WithoutLength(q: seq<nat>, s: nat)
    requires s in q
    ensures |Without(q, s)| == |q| - 1
  {
    if q[0] != s {
      assert q == [q[0]] + q[1..];
      WithoutLength(q[1..], s);
    }
  }

  /** A database's work depends on its own lock and the list of the point it updates. */
  lemma LockWorkFrame(cfg: Config, st: State, st': State, e: nat, p: nat)
    requires Shaped(cfg, st) && LocksOk(cfg, st) && p in st.points && e != cfg.dbOf[p]
    requires st'.points.Keys == st.points.Keys
    requires forall r :: r in st.points && r != p ==> st'.points[r] == st.points[r]
    requires st'.locks.Keys == st.locks.Keys
    requires forall d :: d in st.locks && d != cfg.dbOf[p] ==> st'.locks[d] == st.locks[d]
    ensures LockWork(st', e) == LockWork(st, e)
  {
  }

  /** A loop's work depends on the loop and on the staleness of its callback. */
  lemma LoopWorkFrame(st: State, st': State, k: nat)
    requires k in st.loops && k in st'.loops && st'.loops[k] == st.loops[k]
    requires st'.points.Keys == st.points.Keys
    requires forall p :: p in st.points ==> st'.points[p].seqNum == st.points[p].seqNum
    requires st'.subs.Keys == st.subs.Keys
    requires st.loops[k].callback.Some? && st.loops[k].callback.value.0 in st.subs ==>
      var r := st.loops[k].callback.value.0;
      st'.subs[r].state == st.subs[r].state && st'.subs[r].seqNum == st.subs[r].seqNum
    ensures LoopWork(st', k) == LoopWork(st, k)
  {
  }

  /** The explicit effect of taking the next subscriber of a drained list. */
  lemma TakeNextEffect(cfg: Config, st: State, t: Thread, p: nat, s: nat)
    requires Shaped(cfg, st) && Enabled(cfg, st, TakeNext(t, p)) && s == st.points[p].subscribers[0]
    requires s in st.subs && st.subs[s].state == Idle && st.subs[s].home == AtPoint(p)
    ensures Next(cfg, st, TakeNext(t, p)) == State(
      st.points[p := st.points[p].(subscribers := Without(st.points[p].subscribers, s))],
      st.subs[s := st.subs[s].(home := AtLoop(cfg.loopOf[s]))],
      st.loops[cfg.loopOf[s] := st.loops[cfg.loopOf[s]].(pending := st.loops[cfg.loopOf[s]].pending + [s])],
      st.locks[cfg.dbOf[p] := Marking(t, p, s)], st.fatal)
  {
  }

  lemma OtherLockWork(cfg: Config, st: State, st': State, p: nat, dbs: seq<nat>)
    requires Shaped(cfg, st) && LocksOk(cfg, st) && p in st.points
    requires st'.points.Keys == st.points.Keys
    requires forall r :: r in st.points && r != p ==> st'.points[r] == st.points[r]
    requires st'.locks.Keys == st.locks.Keys
    requires forall d :: d in st.locks && d != cfg.dbOf[p] ==> st'.locks[d] == st.locks[d]
    ensures forall e :: e in dbs && e != cfg.dbOf[p] ==> LockWork(st', e) == LockWork(st, e)
  {
    forall e | e in dbs && e != cfg.dbOf[p] ensures LockWork(st', e) == LockWork(st, e) {
      LockWorkFrame(cfg, st, st', e, p);
    }
  }

  /** The callback of a loop keeps its state and number. */
  ghost predicate CallbackKept(st: State, st': State, k: nat)
    requires k in st.loops && st'.subs.Keys == st.subs.Keys
  {
    st.loops[k].callback.Some? && st.loops[k].callback.value.0 in st.subs ==>
      var r := st.loops[k].callback.value.0;
      st'.subs[r].state == st.subs[r].state && st'.subs[r].seqNum == st.subs[r].seqNum
  }

  lemma OtherLoopWork(st: State, st': State, l: nat, loops: seq<nat>)
    requires Lists(loops, st.loops) && st'.loops.Keys == st.loops.Keys && st'.subs.Keys == st.subs.Keys
    requires forall k :: k in st.loops && k != l ==> st'.loops[k] == st.loops[k] && CallbackKept(st, st', k)
    requires st'.points.Keys == st.points.Keys
    requires forall p :: p in st.points ==> st'.points[p].seqNum == st.points[p].seqNum
    ensures forall k :: k in loops && k != l ==> LoopWork(st', k) == LoopWork(st, k)
  {
    forall k | k in loops && k != l ensures LoopWork(st', k) == LoopWork(st, k) { LoopWorkFrame(st, st', k); }
  }

  lemma TakeNextWork(st: State, st': State, t: Thread, p: nat, s: nat, d: nat, l: nat)
    requires p in st.points && s in st.subs && l in st.loops && d in st.locks && st.locks[d] == Draining(t, p)
    requires s in st.points[p].subscribers
    requires st' == State(
      st.points[p := st.points[p].(subscribers := Without(st.points[p].subscribers, s))],
      st.subs[s := st.subs[s].(home := AtLoop(l))],
      st.loops[l := st.loops[l].(pending := st.loops[l].pending + [s])],
      st.locks[d := Marking(t, p, s)], st.fatal)
    ensures LockWork(st', d) == LockWork(st, d) - 5 && LoopWork(st', l) == LoopWork(st, l) + 4
  {
    WithoutLength(st.points[p].subscribers, s);
  }

  lemma TakeNextLess(cfg: Config, st: State, t: Thread, p: nat, dbs: seq<nat>, loops: seq<nat>)
    requires Inv(cfg, st) && Enabled(cfg, st, TakeNext(t, p)) && Lists(dbs, st.locks) && Lists(loops, st.loops)
    ensures Work(Next(cfg, st, TakeNext(t, p)), dbs, loops) < Work(st, dbs, loops)
  {
    hide Inv, Without, LoopsOk, LocksOk, Work, LockWork, LoopWork;
    InvBasics(cfg, st);
    HeadIsIdle(cfg, st, t, p);
    var s, st' := st.points[p].subscribers[0], Next(cfg, st, TakeNext(t, p));
    TakeNextEffect(cfg, st, t, p, s);
    hide Next;
    TakenLess(cfg, st, st', t, p, s, dbs, loops);
  }

  lemma TakenLess(cfg: Config, st: State, st': State, t: Thread, p: nat, s: nat, dbs: seq<nat>, loops: seq<nat>)
    requires Shaped(cfg, st) && LocksOk(cfg, st) && Lists(dbs, st.locks) && Lists(loops, st.loops)
    requires p in st.points && s in st.points[p].subscribers && s in st.subs && st.locks[cfg.dbOf[p]] == Draining(t, p)
    requires st' == State(
      st.points[p := st.points[p].(subscribers := Without(st.points[p].subscribers, s))],
      st.subs[s := st.subs[s].(home := AtLoop(cfg.loopOf[s]))],
      st.loops[cfg.loopOf[s] := st.loops[cfg.loopOf[s]].(pending := st.loops[cfg.loopOf[s]].pending + [s])],
      st.locks[cfg.dbOf[p] := Marking(t, p, s)], st.fatal)
    ensures Work(st', dbs, loops) < Work(st, dbs, loops)
  {
    hide Without, LocksOk, Work, LockWork, LoopWork;
    var d, l := cfg.dbOf[p], cfg.loopOf[s];
    TakeNextWork(st, st', t, p, s, d, l);
    OtherLockWork(cfg, st, st', p, dbs);
    OtherLoopWork(st, st', l, loops);
    LessWork(st, st', dbs, loops, d, l);
  }

  lemma MarkLess(cfg: Config, st: State, t: Thread, p: nat, dbs: seq<nat>, loops: seq<nat>)
    requires Inv(cfg, st) && Enabled(cfg, st, Mark(t, p)) && Lists(dbs, st.locks) && Lists(loops, st.loops)
    ensures Work(Next(cfg, st, Mark(t, p)), dbs, loops) < Work(st, dbs, loops)
  {
    hide Inv, Work;
    InvBasics(cfg, st);
    var d, st' := cfg.dbOf[p], Next(cfg, st, Mark(t, p));
    var s := st.locks[d].s;
    assert s in st.subs && st.subs[s].state == Idle && p in st.points;
    assert st' == SetState(st, s, Pending).(locks := st.locks[d := Draining(t, p)]);
    hide Next, Enabled;
    forall e | e in dbs && e != d ensures LockWork(st', e) == LockWork(st, e) { LockWorkFrame(cfg, st, st', e, p); }
    MarkedLoops(cfg, st, st', s, loops);
    LessLockWork(st, st', dbs, loops, d);
  }

  /** The subscriber that is marked is idle, so no callback is about it. */
  lemma MarkedLoops(cfg: Config, st: State, st': State, s: nat, loops: seq<nat>)
    requires Shaped(cfg, st) && LoopsOk(cfg, st) && Lists(loops, st.loops) && s in st.subs && st.subs[s].state == Idle
    requires st'.points == st.points && st'.loops == st.loops && st'.subs == SetState(st, s, Pending).subs
    ensures forall k :: k in loops ==> LoopWork(st', k) == LoopWork(st, k)
  {
    forall k | k in loops ensures LoopWork(st', k) == LoopWork(st, k) {
      assert LoopOk(cfg, st, k);
      LoopWorkFrame(st, st', k);
    }
  }

  lemma EndWriteLess(cfg: Config, st: State, t: Thread, p: nat, dbs: seq<nat>, loops: seq<nat>)
    requires Inv(cfg, st) && Enabled(cfg, st, EndWrite(t, p)) && Lists(dbs, st.locks) && Lists(loops, st.loops)
    ensures Work(Next(cfg, st, EndWrite(t, p)), dbs, loops) < Work(st, dbs, loops)
  {
    hide Inv, LoopsOk, Work;
    InvBasics(cfg, st);
    var d, st' := cfg.dbOf[p], Next(cfg, st, EndWrite(t, p));
    forall e | e in dbs && e != d ensures LockWork(st', e) == LockWork(st, e) { LockWorkFrame(cfg, st, st', e, p); }
    forall k | k in loops ensures LoopWork(st', k) == LoopWork(st, k) { LoopWorkFrame(st, st', k); }
    LessLockWork(st, st', dbs, loops, d);
  }

  /** Databases are not concerned when only loops, subscribers and marks change. */
  lemma LockWorkSame(st: State, st': State, dbs: seq<nat>)
    requires st'.locks == st.locks && st'.points.Keys == st.points.Keys
    requires forall d :: d in st.locks && !st.locks[d].Free? && st.locks[d].p in st.points ==>
      st'.points[st.locks[d].p] == st.points[st.locks[d].p]
    ensures forall e :: e in dbs ==> LockWork(st', e) == LockWork(st, e)
  {
  }

  /** A step that concerns one loop, and leaves it less to do. */
  ghost predicate LoopStep(st: State, st': State, l: nat) {
    && l in st.loops && st'.locks == st.locks && SameKeys(st, st')
    && (forall p :: p in st.points ==> st'.points[p].seqNum == st.points[p].seqNum)
    && (forall d :: d in st.locks && !st.locks[d].Free? && st.locks[d].p in st.points ==>
         st'.points[st.locks[d].p] == st.points[st.locks[d].p])
    && (forall k :: k in st.loops && k != l ==> st'.loops[k] == st.loops[k] && CallbackKept(st, st', k))
    && LoopWork(st', l) < LoopWork(st, l)
  }

  lemma LoopStepLess(st: State, st': State, dbs: seq<nat>, loops: seq<nat>, l: nat)
    requires LoopStep(st, st', l) && Lists(loops, st.loops)
    ensures Work(st', dbs, loops) < Work(st, dbs, loops)
  {
    hide LoopWork, LockWork, Work;
    LockWorkSame(st, st', dbs);
    OtherLoopWork(st, st', l, loops);
    LessLoopWork(st, st', dbs, loops, l);
  }

  lemma DequeueChange(cfg: Config, st: State, l: nat)
    requires Inv(cfg, st) && Enabled(cfg, st, Dequeue(l))
    ensures LoopStep(st, Next(cfg, st, Dequeue(l)), l)
  {
    hide Inv, Without, LoopsOk, LocksOk, LoopStep;
    InvBasics(cfg, st);
    HeadIsQueued(cfg, st, l);
    var s, st' := st.loops[l].pending[0], Next(cfg, st, Dequeue(l));
    WithoutLength(st.loops[l].pending, s);
    assert st'.loops == st.loops[l := st.loops[l].(pending := Without(st.loops[l].pending, s), inHand := Some(s))];
    assert st'.points == st.points && st'.locks == st.locks && st'.subs == st.subs[s := st.subs[s].(home := Nowhere)];
    hide Next, Enabled;
    DequeuedStep(st, st', l, s);
  }

  lemma DequeuedStep(st: State, st': State, l: nat, s: nat)
    requires l in st.loops && s in st.subs && st.loops[l].pending != [] && st.loops[l].inHand == None
    requires st.loops[l].callback == None
    requires |Without(st.loops[l].pending, s)| == |st.loops[l].pending| - 1
    requires st'.loops == st.loops[l := st.loops[l].(pending := Without(st.loops[l].pending, s), inHand := Some(s))]
    requires st'.points == st.points && st'.locks == st.locks && st'.subs == st.subs[s := st.subs[s].(home := Nowhere)]
    ensures LoopStep(st, st', l)
  {
    hide Without;
    assert LoopWork(st', l) < LoopWork(st, l);
  }

  lemma BeginNotifyChange(cfg: Config, st: State, l: nat)
    requires Inv(cfg, st) && Enabled(cfg, st, BeginNotify(l))
    ensures LoopStep(st, Next(cfg, st, BeginNotify(l)), l)
  {
    hide Inv, LocksOk;
    InvBasics(cfg, st);
    NotifyFindsPending(cfg, st, l);
    assert LoopOk(cfg, st, l);
    var st' := Next(cfg, st, BeginNotify(l));
    var s := st.loops[l].inHand.value;
    var p := st.subs[s].point.value;
    assert st'.loops == st.loops[l := st.loops[l].(inHand := None, callback := Some((s, p)))];
    assert st'.points == st.points && st'.locks == st.locks && st'.subs.Keys == st.subs.Keys;
    assert st'.subs[s].seqNum == st.points[p].seqNum;
    assert forall r :: r in st.subs && r != s ==> st'.subs[r] == st.subs[r];
    hide Next;
    assert LoopWork(st', l) < LoopWork(st, l);
    forall k | k in st.loops && k != l ensures CallbackKept(st, st', k) { assert LoopOk(cfg, st, k); }
  }

  /** The explicit effect of completing a callback. */
  lemma CompleteEffect(cfg: Config, st: State, l: nat, s: nat, p: nat)
    requires Shaped(cfg, st) && l in st.loops && s in st.subs && p in st.points && cfg.loopOf[s] == l
    requires Calling(st.subs[s], p)
    ensures var st' := Deliver(cfg, st.(loops := st.loops[l := st.loops[l].(callback := None)]), p, s, NotifyComplete);
      && st'.locks == st.locks && SameKeys(st, st')
      && (forall r :: r in st.points ==> st'.points[r].seqNum == st.points[r].seqNum)
      && (forall r :: r in st.points && r != p ==> st'.points[r] == st.points[r])
      && (forall r :: r in st.subs && r != s ==> st'.subs[r] == st.subs[r])
      && (forall k :: k in st.loops && k != l ==> st'.loops[k] == st.loops[k])
      && st'.loops[l].inHand == st.loops[l].inHand && st'.loops[l].callback == None
      && |st'.loops[l].pending| == |st.loops[l].pending| + (if Stale(st, s, p) then 1 else 0)
  {
    hide Deliver;
    var base := st.(loops := st.loops[l := st.loops[l].(callback := None)]);
    if st.subs[s].state == PendingDetach {
      CompleteDetached(cfg, base, s, p);
    } else if Stale(st, s, p) {
      CompleteStale(cfg, base, s, p);
    } else {
      CompleteFresh(cfg, base, s, p);
    }
  }

  lemma CompleteDetached(cfg: Config, st: State, s: nat, p: nat)
    requires s in st.subs && p in st.points && s in cfg.loopOf && cfg.loopOf[s] in st.loops
    requires st.subs[s].state == PendingDetach
    ensures Deliver(cfg, st, p, s, NotifyComplete) == st.(subs := st.subs[s := st.subs[s].(state := Unsubscribed)])
  {
  }

  lemma CompleteStale(cfg: Config, st: State, s: nat, p: nat)
    requires s in cfg.loopOf && cfg.loopOf[s] in st.loops && Stale(st, s, p) && st.subs[s].home == Nowhere
    ensures var l := cfg.loopOf[s];
      Deliver(cfg, st, p, s, NotifyComplete) == st.(
        subs := st.subs[s := st.subs[s].(home := AtLoop(l))][s := st.subs[s].(home := AtLoop(l), state := Pending)],
        loops := st.loops[l := st.loops[l].(pending := st.loops[l].pending + [s])])
  {
  }

  lemma CompleteFresh(cfg: Config, st: State, s: nat, p: nat)
    requires s in st.subs && p in st.points && s in cfg.loopOf && cfg.loopOf[s] in st.loops
    requires st.subs[s].state == Notifying && !Stale(st, s, p) && st.subs[s].home == Nowhere
    ensures Deliver(cfg, st, p, s, NotifyComplete) == st.(
        subs := st.subs[s := st.subs[s].(state := Idle)][s := st.subs[s].(state := Idle, home := AtPoint(p))],
        points := st.points[p := st.points[p].(subscribers := st.points[p].subscribers + [s])])
  {
  }

  lemma CompleteStep(cfg: Config, st: State, l: nat, s: nat, p: nat)
    requires Shaped(cfg, st) && LocksOk(cfg, st) && LoopsOk(cfg, st) && l in st.loops && s in st.subs && p in st.points
    requires cfg.loopOf[s] == l && Calling(st.subs[s], p) && st.loops[l].callback == Some((s, p))
    requires Unlocked(cfg, st, p)
    ensures var st1 := st.(loops := st.loops[l := st.loops[l].(callback := None)]);
      LoopStep(st, Deliver(cfg, st1, p, s, NotifyComplete), l)
  {
    hide Deliver;
    CompleteEffect(cfg, st, l, s, p);
    var st' := Deliver(cfg, st.(loops := st.loops[l := st.loops[l].(callback := None)]), p, s, NotifyComplete);
    assert LoopWork(st', l) < LoopWork(st, l);
    hide LoopWork;
    forall k | k in st.loops && k != l ensures CallbackKept(st, st', k) { assert LoopOk(cfg, st, k); }
  }

  lemma EndNotifyChange(cfg: Config, st: State, l: nat)
    requires Inv(cfg, st) && Enabled(cfg, st, EndNotify(l))
    ensures LoopStep(st, Next(cfg, st, EndNotify(l)), l)
  {
    hide Inv, LoopStep, Deliver, LocksOk, LoopsOk, ListsOk;
    InvBasics(cfg, st);
    CallingNow(cfg, st, l);
    CompleteStep(cfg, st, l, st.loops[l].callback.value.0, st.loops[l].callback.value.1);
  }

  lemma InternalLess(cfg: Config, st: State, step: Step, dbs: seq<nat>, loops: seq<nat>)
    requires Inv(cfg, st) && Enabled(cfg, st, step) && Internal(step) && Lists(dbs, st.locks) && Lists(loops, st.loops)
    ensures Work(Next(cfg, st, step), dbs, loops) < Work(st, dbs, loops)
  {
    hide Inv, Work, Next, Enabled, Lists, LoopStep;
    InvBasics(cfg, st);
    match step
    case TakeNext(t, p) => TakeNextLess(cfg, st, t, p, dbs, loops);
    case Mark(t, p) => MarkLess(cfg, st, t, p, dbs, loops);
    case EndWrite(t, p) => EndWriteLess(cfg, st, t, p, dbs, loops);
    case Dequeue(l) =>
      DequeueChange(cfg, st, l);
      LoopStepLess(st, Next(cfg, st, step), dbs, loops, l);
    case BeginNotify(l) =>
      BeginNotifyChange(cfg, st, l);
      LoopStepLess(st, Next(cfg, st, step), dbs, loops, l);
    case EndNotify(l) =>
      EndNotifyChange(cfg, st, l);
      LoopStepLess(st, Next(cfg, st, step), dbs, loops, l);
  }

  /** While anything is left to do, some internal step can be taken: no deadlock. */
  lemma Progress(cfg: Config, st: State) returns (step: Step)
    requires Inv(cfg, st) && !Quiet(st)
    ensures Internal(step) && Enabled(cfg, st, step)
  {
    hide Inv;
    InvBasics(cfg, st);
    if d :| d in st.locks && st.locks[d] != Free {
      step := LockProgress(cfg, st, d);
    } else {
      var l :| l in st.loops && st.loops[l] != Loop([], None, None);
      step := LoopProgress(cfg, st, l);
    }
  }

  lemma LockProgress(cfg: Config, st: State, d: nat) returns (step: Step)
    requires Shaped(cfg, st) && LocksOk(cfg, st) && d in st.locks && st.locks[d] != Free
    ensures Internal(step) && Enabled(cfg, st, step)
  {
    var k := st.locks[d];
    step :=
      if k.Marking? then Mark(k.t, k.p)
      else if st.points[k.p].subscribers == [] then EndWrite(k.t, k.p)
      else TakeNext(k.t, k.p);
  }

  lemma LoopProgress(cfg: Config, st: State, l: nat) returns (step: Step)
    requires Inv(cfg, st) && l in st.loops && st.loops[l] != Loop([], None, None)
    requires forall d :: d in st.locks ==> st.locks[d] == Free
    ensures Internal(step) && Enabled(cfg, st, step)
  {
    hide Inv;
    InvBasics(cfg, st);
    assert LoopOk(cfg, st, l);
    var k := st.loops[l];
    if k.inHand.Some? {
      PointKnown(cfg, st, k.inHand.value);
      step := BeginNotify(l);
    } else if k.callback.Some? {
      step := EndNotify(l);
    } else {
      step := Dequeue(l);
    }
  }

  lemma PointKnown(cfg: Config, st: State, s: nat)
    requires Inv(cfg, st) && s in st.subs
    ensures st.subs[s].point.Some? ==> st.subs[s].point.value in st.points
  {
    assert SubOk(cfg, st, s);
  }

  ghost predicate AllInternal(steps: seq<Step>) {
    forall i :: 0 <= i < |steps| ==> Internal(steps[i])
  }

  /** Left to itself the protocol settles: a quiet state is reached by internal steps, and no run
      of internal steps is longer than the work there is. */
  lemma {:induction false} Settles(cfg: Config, st: State, dbs: seq<nat>, loops: seq<nat>)
    returns (steps: seq<Step>, st': State)
    requires Inv(cfg, st) && Lists(dbs, st.locks) && Lists(loops, st.loops)
    ensures Runs(cfg, st, steps, st') && AllInternal(steps) && Quiet(st')
    decreases Work(st, dbs, loops)
  {
    hide Inv, Work, Enabled, Quiet;
    InvBasics(cfg, st);
    if Quiet(st) {
      steps, st' := [], st;
    } else {
      var step := Progress(cfg, st);
      var next := Next(cfg, st, step);
      StepKeeps(cfg, st, step);
      InternalLess(cfg, st, step, dbs, loops);
      KeysStay(cfg, st, step);
      var rest;
      rest, st' := Settles(cfg, next, dbs, loops);
      steps := [step] + rest;
      assert steps[1..] == rest;
    }
  }

  /** From every reachable state, if nobody writes, attaches or detaches any more, the protocol
      brings every attached subscriber up to date by itself. */
  lemma EventuallyUpToDate(cfg: Config, st: State, steps: seq<Step>, st': State, dbs: seq<nat>, loops: seq<nat>)
    returns (more: seq<Step>, end: State)
    requires Init(cfg, st) && Runs(cfg, st, steps, st') && Lists(dbs, st'.locks) && Lists(loops, st'.loops)
    ensures Runs(cfg, st', more, end) && AllInternal(more) && |more| <= Work(st', dbs, loops)
    ensures Quiet(end) && AllUpToDate(end)
  {
    hide Inv, Work, Runs, Quiet;
    InitInv(cfg, st);
    RunKeeps(cfg, st, steps, st');
    more, end := Settles(cfg, st', dbs, loops);
    SettlesInTime(cfg, st', more, end, dbs, loops);
    RunKeeps(cfg, st', more, end);
    QuietIsUpToDate(cfg, end);
  }

  lemma KeysStay(cfg: Config, st: State, step: Step)
    requires Inv(cfg, st) && Enabled(cfg, st, step)
    ensures Next(cfg, st, step).locks.Keys == st.locks.Keys && Next(cfg, st, step).loops.Keys == st.loops.Keys
  {
    hide Inv, Enabled;
    InvBasics(cfg, st);
    KeysInRange(cfg, st, step);
    hide Shaped, LocksOk, LoopsOk;
    if step.StartWrite? || step.TakeNext? || step.Mark? || step.EndWrite? {
      WriterKeysStay(cfg, st, step);
    } else {
      LoopKeysStay(cfg, st, step);
    }
  }

  lemma WriterKeysStay(cfg: Config, st: State, step: Step)
    requires Shaped(cfg, st) && Enabled(cfg, st, step)
    requires step.StartWrite? || step.TakeNext? || step.Mark? || step.EndWrite?
    requires step.p in cfg.dbOf && cfg.dbOf[step.p] in st.locks
    ensures Next(cfg, st, step).locks.Keys == st.locks.Keys && Next(cfg, st, step).loops.Keys == st.loops.Keys
  {
    hide DropPoint, PutLoop;
  }

  lemma LoopKeysStay(cfg: Config, st: State, step: Step)
    requires Shaped(cfg, st) && Enabled(cfg, st, step)
    requires step.Dequeue? || step.BeginNotify? || step.EndNotify? || step.Attach? || step.Detach?
    requires step.Dequeue? || step.BeginNotify? || step.EndNotify? ==> step.l in st.loops
    ensures Next(cfg, st, step).locks.Keys == st.locks.Keys && Next(cfg, st, step).loops.Keys == st.loops.Keys
  {
    hide Deliver, DropLoop;
    if step.Attach? || step.Detach? { CallKeysStay(cfg, st, step); }
  }

  lemma CallKeysStay(cfg: Config, st: State, step: Step)
    requires Shaped(cfg, st) && Enabled(cfg, st, step) && (step.Attach? || step.Detach?)
    ensures Next(cfg, st, step).locks.Keys == st.locks.Keys && Next(cfg, st, step).loops.Keys == st.loops.Keys
  {
    hide Deliver;
  }

  lemma KeysInRange(cfg: Config, st: State, step: Step)
    requires Inv(cfg, st) && Enabled(cfg, st, step)
    ensures step.StartWrite? || step.TakeNext? || step.Mark? || step.EndWrite? ==>
      step.p in cfg.dbOf && cfg.dbOf[step.p] in st.locks
    ensures step.Dequeue? || step.BeginNotify? || step.EndNotify? ==> step.l in st.loops
  {
  }

  lemma {:induction false} SettlesInTime(cfg: Config, st: State, steps: seq<Step>, st': State, dbs: seq<nat>,
      loops: seq<nat>)
    requires Inv(cfg, st) && Lists(dbs, st.locks) && Lists(loops, st.loops)
    requires Runs(cfg, st, steps, st') && AllInternal(steps)
    ensures |steps| + Work(st', dbs, loops) <= Work(st, dbs, loops)
    decreases |steps|
  {
    hide Inv, Work, Enabled;
    if steps != [] {
      var next := Next(cfg, st, steps[0]);
      StepKeeps(cfg, st, steps[0]);
      InternalLess(cfg, st, steps[0], dbs, loops);
      KeysStay(cfg, st, steps[0]);
      SettlesInTime(cfg, next, steps[1..], st', dbs, loops);
    }
  }

  // -------------------------------------------------------------------- no starvation

  ghost function Place(q: seq<nat>, s: nat): nat
    requires s in q
  {
    if q[0] == s then 0 else 1 + Place(q[1..], s)
  }

  lemma {:induction false} PlaceAppend(q: seq<nat>, s: nat, x: nat)
    requires s in q
    ensures Place(q + [x], s) == Place(q, s)
  {
    if q[0] != s {
      assert (q + [x])[1..] == q[1..] + [x];
      PlaceAppend(q[1..], s, x);
    }
  }

  lemma {:induction false} PlaceWithout(q: seq<nat>, s: nat, x: nat)
    requires s in q && x != s
    ensures s in Without(q, x) && Place(Without(q, x), s) <= Place(q, s)
    ensures q[0] == x ==> Place(Without(q, x), s) == Place(q, s) - 1
  {
    if q[0] != s && q[0] != x {
      PlaceWithout(q[1..], s, x);
      assert Without(q, x)[1..] == Without(q[1..], x);
    }
  }

  /** What a step can do to a pending list: append x at the tail, drop x, or drop and append it. */
  ghost predicate QueueStep(q: seq<nat>, q': seq<nat>, x: nat) {
    q' == q || q' == q + [x] || q' == Without(q, x) || q' == Without(q, x) + [x]
  }

  /** Whoever x is, the others do not fall behind. */
  lemma NotBehind(q: seq<nat>, q': seq<nat>, s: nat, x: nat)
    requires s in q && x != s && QueueStep(q, q', x)
    ensures s in q' && Place(q', s) <= Place(q, s)
  {
    PlaceWithout(q, s, x);
    PlaceAppend(q, s, x);
    PlaceAppend(Without(q, x), s, x);
  }

  /** The point's own list and a subscriber's state do not touch the queues. */
  lemma QueuesKept(st: State, p: nat, x: nat, state: Fsm)
    requires x in st.subs && p in st.points
    ensures DropPoint(st, p, x).loops == PutPoint(st, p, x).loops == SetState(st, x, state).loops == st.loops
  {
    hide Without;
  }

  lemma PutLoopQueue(st: State, m: nat, x: nat, l: nat)
    requires m in st.loops && x in st.subs && l in st.loops
    ensures var q, q' := st.loops[l].pending, PutLoop(st, m, x).loops[l].pending; q' == q || q' == q + [x]
  {
  }

  lemma DropLoopQueue(st: State, m: nat, x: nat, l: nat)
    requires m in st.loops && x in st.subs && l in st.loops
    ensures var q, q' := st.loops[l].pending, DropLoop(st, m, x).loops[l].pending;
      q' == q || (l == m && q' == Without(q, x))
  {
    hide Without;
  }

  lemma ToPendingQueue(cfg: Config, st: State, p: nat, x: nat, l: nat)
    requires x in st.subs && p in st.points && x in cfg.loopOf && cfg.loopOf[x] in st.loops && l in st.loops
    ensures var q, q' := st.loops[l].pending, ToPending(cfg, st, x).loops[l].pending; q' == q || q' == q + [x]
  {
    hide PutLoop, SetState;
    PutLoopQueue(st, cfg.loopOf[x], x, l);
    QueuesKept(PutLoop(st, cfg.loopOf[x], x), p, x, Pending);
  }

  lemma ToSubscribedQueue(cfg: Config, st: State, p: nat, x: nat, l: nat)
    requires x in st.subs && p in st.points && x in cfg.loopOf && cfg.loopOf[x] in st.loops && l in st.loops
    ensures var q, q' := st.loops[l].pending, ToSubscribed(cfg, st, p, x).loops[l].pending; q' == q || q' == q + [x]
  {
    hide DropPoint, PutPoint, SetState, ToPending;
    var st1 := DropPoint(st, p, x);
    QueuesKept(st, p, x, Idle);
    QueuesKept(st1, p, x, Idle);
    QueuesKept(SetState(st1, x, Idle), p, x, Idle);
    ToPendingQueue(cfg, st1, p, x, l);
  }

  lemma QueueSteps(q: seq<nat>, x: nat)
    ensures QueueStep(q, q, x) && QueueStep(q, q + [x], x)
    ensures QueueStep(q, Without(q, x), x) && QueueStep(q, Without(q, x) + [x], x)
  {
    hide Without;
  }

  lemma DeliverQueue(cfg: Config, st: State, p: nat, x: nat, e: Event, l: nat)
    requires Shaped(cfg, st) && x in st.subs && p in st.points && l in st.loops
    ensures QueueStep(st.loops[l].pending, Deliver(cfg, st, p, x, e).loops[l].pending, x)
  {
    hide Deliver, QueueStep;
    match st.subs[x].state {
      case Idle => DeliverIdleQueue(cfg, st, p, x, e, l);
      case Pending => DeliverPendingQueue(cfg, st, p, x, e, l);
      case _ => DeliverOtherQueue(cfg, st, p, x, e, l);
    }
  }

  lemma DeliverOtherQueue(cfg: Config, st: State, p: nat, x: nat, e: Event, l: nat)
    requires Shaped(cfg, st) && x in st.subs && p in st.points && l in st.loops
    requires st.subs[x].state != Idle && st.subs[x].state != Pending
    ensures QueueStep(st.loops[l].pending, Deliver(cfg, st, p, x, e).loops[l].pending, x)
  {
    hide Without, ToSubscribed, SetState, QueueStep;
    var q, x0 := st.loops[l].pending, st.subs[x].state;
    if (e == Attaching && x0 == Unsubscribed) || (e == NotifyComplete && x0 == Notifying) {
      assert Deliver(cfg, st, p, x, e) == ToSubscribed(cfg, st, p, x);
      hide Deliver;
      ToSubscribedQueue(cfg, st, p, x, l);
      QueueSteps(q, x);
    } else {
      OtherwiseSame(cfg, st, p, x, e);
      hide Deliver;
      QueueSame(q, x);
    }
  }

  lemma OtherwiseSame(cfg: Config, st: State, p: nat, x: nat, e: Event)
    requires x in st.subs && p in st.points && x in cfg.loopOf && cfg.loopOf[x] in st.loops
    requires st.subs[x].state in {Unsubscribed, Notifying, PendingDetach}
    requires !(e == Attaching && st.subs[x].state == Unsubscribed)
    requires !(e == NotifyComplete && st.subs[x].state == Notifying)
    ensures Deliver(cfg, st, p, x, e).loops == st.loops
  {
    hide ToSubscribed, ToPending, DropPoint, DropLoop;
  }

  lemma QueueSame(q: seq<nat>, x: nat)
    ensures QueueStep(q, q, x)
  {
  }

  lemma DeliverIdleQueue(cfg: Config, st: State, p: nat, x: nat, e: Event, l: nat)
    requires Shaped(cfg, st) && x in st.subs && p in st.points && l in st.loops && st.subs[x].state == Idle
    ensures QueueStep(st.loops[l].pending, Deliver(cfg, st, p, x, e).loops[l].pending, x)
  {
    hide Without, ToSubscribed, ToPending, DropPoint, SetState, QueueStep;
    QueueSteps(st.loops[l].pending, x);
    match e {
      case Attaching => ToSubscribedQueue(cfg, st, p, x, l);
      case Detaching =>
        QueuesKept(st, p, x, Unsubscribed);
        QueuesKept(DropPoint(st, p, x), p, x, Unsubscribed);
      case DataChanged => ToPendingQueue(cfg, st, p, x, l);
      case _ =>
    }
  }

  lemma DeliverPendingQueue(cfg: Config, st: State, p: nat, x: nat, e: Event, l: nat)
    requires Shaped(cfg, st) && x in st.subs && p in st.points && l in st.loops && st.subs[x].state == Pending
    ensures QueueStep(st.loops[l].pending, Deliver(cfg, st, p, x, e).loops[l].pending, x)
  {
    hide Without, ToSubscribed, DropLoop, SetState, QueueStep;
    QueueSteps(st.loops[l].pending, x);
    var m := cfg.loopOf[x];
    var st1 := DropLoop(st, m, x);
    DropLoopQueue(st, m, x, l);
    match e {
      case Attaching => ToSubscribedQueue(cfg, st1, p, x, l);
      case Detaching => QueuesKept(st1, p, x, Unsubscribed);
      case _ =>
    }
  }

  /** Which subscriber a step moves. */
  ghost function Mover(st: State, step: Step): Option<nat> {
    match step
    case TakeNext(_, p) =>
      if p in st.points && st.points[p].subscribers != [] then Some(st.points[p].subscribers[0]) else None
    case Dequeue(l) => if l in st.loops && st.loops[l].pending != [] then Some(st.loops[l].pending[0]) else None
    case EndNotify(l) =>
      if l in st.loops && st.loops[l].callback.Some? then Some(st.loops[l].callback.value.0) else None
    case BeginNotify(l) => if l in st.loops then st.loops[l].inHand else None
    case Attach(_, s, _, _, _) => Some(s)
    case Detach(_, s, _) => Some(s)
    case _ => None
  }

  /** A step touches a pending list only through the subscriber it moves. */
  lemma StepQueue(cfg: Config, st: State, step: Step, l: nat)
    requires Shaped(cfg, st) && Enabled(cfg, st, step) && l in st.loops
    ensures l in Next(cfg, st, step).loops
    ensures var q, q' := st.loops[l].pending, Next(cfg, st, step).loops[l].pending;
      q' == q || (Mover(st, step).Some? && QueueStep(q, q', Mover(st, step).value))
  {
    hide Without, Deliver, QueueStep, DropPoint, DropLoop, PutLoop;
    match step
    case StartWrite(_, _) =>
    case Mark(_, _) =>
    case EndWrite(_, _) =>
    case TakeNext(_, p) => TakeNextQueue(cfg, st, step, l);
    case Dequeue(_) => DequeueQueue(cfg, st, step, l);
    case BeginNotify(_) =>
    case EndNotify(k) =>
      var (s, p) := st.loops[k].callback.value;
      if s in st.subs && p in st.points {
        DeliverQueue(cfg, st.(loops := st.loops[k := st.loops[k].(callback := None)]), p, s, NotifyComplete, l);
      }
    case Attach(_, s, p, q, v) =>
      var st1 := st.(subs := st.subs[s := st.subs[s].(seqNum := q, known := v, point := Some(p))]);
      DeliverQueue(cfg, st1, p, s, Attaching, l);
    case Detach(_, s, p) =>
      DeliverQueue(cfg, st, p, s, Detaching, l);
  }

  lemma TakeNextQueue(cfg: Config, st: State, step: Step, l: nat)
    requires Shaped(cfg, st) && step.TakeNext? && Enabled(cfg, st, step) && l in st.loops
    ensures var q, q' := st.loops[l].pending, Next(cfg, st, step).loops[l].pending;
      q' == q || QueueStep(q, q', st.points[step.p].subscribers[0])
  {
    hide Without, DropPoint, PutLoop;
    var p := step.p;
    var s := st.points[p].subscribers[0];
    if s in st.subs {
      QueuesKept(st, p, s, Idle);
      PutLoopQueue(DropPoint(st, p, s), cfg.loopOf[s], s, l);
    }
  }

  lemma DequeueQueue(cfg: Config, st: State, step: Step, l: nat)
    requires Shaped(cfg, st) && step.Dequeue? && Enabled(cfg, st, step) && l in st.loops
    ensures var q, q' := st.loops[l].pending, Next(cfg, st, step).loops[l].pending;
      q' == q || (step.l == l && q' == Without(q, q[0]) && QueueStep(q, q', q[0]))
  {
    hide Without, DropLoop, QueueStep;
    var q := st.loops[step.l].pending;
    if q[0] in st.subs {
      DropLoopQueue(st, step.l, q[0], l);
      QueueSteps(q, q[0]);
    }
  }

  /** Only its own thread, or being dequeued, moves a queued subscriber. */
  ghost predicate Moves(st: State, step: Step, l: nat, s: nat) {
    || (step.Attach? && step.s == s) || (step.Detach? && step.s == s)
    || (step == Dequeue(l) && l in st.loops && st.loops[l].pending != [] && st.loops[l].pending[0] == s)
  }

  lemma MoverIsAnother(cfg: Config, st: State, step: Step, l: nat, s: nat)
    requires Inv(cfg, st) && Enabled(cfg, st, step) && l in st.loops && s in st.loops[l].pending
    requires !Moves(st, step, l, s)
    ensures Mover(st, step) != Some(s) || step.BeginNotify?
  {
    hide Inv;
    AtItsLoop(cfg, st, l, s);
    match step
    case TakeNext(t, p) => HeadIsIdle(cfg, st, t, p);
    case Dequeue(k) => HeadIsQueued(cfg, st, k);
    case EndNotify(k) => CallingNow(cfg, st, k);
    case _ =>
  }

  lemma AtItsLoop(cfg: Config, st: State, l: nat, s: nat)
    requires Inv(cfg, st) && l in st.loops && s in st.loops[l].pending
    ensures s in st.subs && st.subs[s].home == AtLoop(l)
  {
    assert ListOk(st, st.loops[l].pending, AtLoop(l));
  }

  /** A step of anybody leaves a queued subscriber queued and no further back; a pass of its loop
      brings it one place forward. */
  lemma StaysAhead(cfg: Config, st: State, step: Step, l: nat, s: nat)
    requires Inv(cfg, st) && Enabled(cfg, st, step) && l in st.loops && s in st.loops[l].pending
    requires !Moves(st, step, l, s)
    ensures Shaped(cfg, st) && l in Next(cfg, st, step).loops && s in Next(cfg, st, step).loops[l].pending
    ensures Place(Next(cfg, st, step).loops[l].pending, s) <=
      Place(st.loops[l].pending, s) - (if step == Dequeue(l) then 1 else 0)
  {
    hide Inv, Place, Enabled;
    InvBasics(cfg, st);
    StepQueue(cfg, st, step, l);
    MoverIsAnother(cfg, st, step, l, s);
    var q, q' := st.loops[l].pending, Next(cfg, st, step).loops[l].pending;
    if step == Dequeue(l) {
      DequeueTakesHead(cfg, st, l);
      PlaceWithout(q, s, q[0]);
    } else if step.BeginNotify? {
      BeginNotifyQueue(cfg, st, step, l);
    } else if q' != q {
      NotBehind(q, q', s, Mover(st, step).value);
    }
  }

  lemma DequeueTakesHead(cfg: Config, st: State, l: nat)
    requires Inv(cfg, st) && Enabled(cfg, st, Dequeue(l))
    ensures Shaped(cfg, st) && st.loops[l].pending != []
    ensures var q, st' := st.loops[l].pending, Next(cfg, st, Dequeue(l));
      && l in st'.loops && st'.loops[l].pending == Without(q, q[0]) && st'.loops[l].inHand == Some(q[0])
  {
    HeadIsQueued(cfg, st, l);
    hide Inv, Without, Next;
    HeadLeaves(cfg, st, l);
  }

  lemma HeadLeaves(cfg: Config, st: State, l: nat)
    requires Shaped(cfg, st) && Enabled(cfg, st, Dequeue(l)) && st.loops[l].pending[0] in st.subs
    requires st.subs[st.loops[l].pending[0]].home == AtLoop(l)
    ensures var q, st' := st.loops[l].pending, Next(cfg, st, Dequeue(l));
      l in st'.loops && st'.loops[l] == st.loops[l].(pending := Without(q, q[0]), inHand := Some(q[0]))
  {
    hide Shaped, Without;
  }

  lemma BeginNotifyQueue(cfg: Config, st: State, step: Step, l: nat)
    requires Shaped(cfg, st) && step.BeginNotify? && Enabled(cfg, st, step) && l in st.loops
    ensures l in Next(cfg, st, step).loops && Next(cfg, st, step).loops[l].pending == st.loops[l].pending
  {
  }

  /** How often the loop passes, and whether it ever takes s in hand. */
  ghost function Passes(steps: seq<Step>, l: nat): nat {
    if steps == [] then 0 else (if steps[0] == Dequeue(l) then 1 else 0) + Passes(steps[1..], l)
  }

  ghost predicate TakesInHand(cfg: Config, st: State, steps: seq<Step>, l: nat, s: nat)
    decreases |steps|
  {
    || (l in st.loops && st.loops[l].inHand == Some(s))
    || (steps != [] && Shaped(cfg, st) && Enabled(cfg, st, steps[0])
        && TakesInHand(cfg, Next(cfg, st, steps[0]), steps[1..], l, s))
  }

  /** No starvation: whatever writers, callbacks and other subscribers do, a queued subscriber is
      taken in hand within as many passes of its loop as its place in the queue plus one, unless
      its own thread attaches or detaches it before. */
  lemma {:induction false} ServedInTurn(cfg: Config, st: State, steps: seq<Step>, st': State, l: nat, s: nat)
    requires Inv(cfg, st) && Runs(cfg, st, steps, st') && l in st.loops && s in st.loops[l].pending
    requires forall i :: 0 <= i < |steps| ==>
      !(steps[i].Attach? && steps[i].s == s) && !(steps[i].Detach? && steps[i].s == s)
    requires Passes(steps, l) > Place(st.loops[l].pending, s)
    ensures TakesInHand(cfg, st, steps, l, s)
    decreases |steps|
  {
    hide Inv, Enabled, Place;
    InvBasics(cfg, st);
    var step, rest := steps[0], steps[1..];
    var next := Next(cfg, st, step);
    StepKeeps(cfg, st, step);
    if Moves(st, step, l, s) {
      DequeueTakesHead(cfg, st, l);
    } else {
      StaysAhead(cfg, st, step, l, s);
      ServedInTurn(cfg, next, rest, st', l, s);
    }
  }
}
