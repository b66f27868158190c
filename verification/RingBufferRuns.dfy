/** One producer and one consumer of a ring buffer, interleaved. The producer only ever stores the
    tail, the consumer only the head, and each looks at a value of the other's pointer that may be
    old. Advancing a pointer and wrapping it around are two stores: in between, the other side can
    see it past the end of the memory. */
module RingBufferRuns {
  import opened RingBuffer

  datatype Producer<T> =
    | Away                                  // between calls
    | NotFull                               // has seen room
    | Filling(room: nat, data: seq<T>)      // was given a window, has written this into it
    | TailAdvanced                          // has stored the tail, and not yet wrapped it

  datatype Consumer<T> =
    | Gone
    | NotEmpty
    | Draining(avail: nat, got: seq<T>)     // was given a window, has read this from it
    | HeadAdvanced

  /** The shared memory, where producer and consumer are, and all that was ever added and removed. */
  datatype State<T> = State(
    mem: seq<T>, head: nat, tail: nat,
    producer: Producer<T>, consumer: Consumer<T>,
    added: seq<T>, removed: seq<T>)

  datatype Step<T> =
    | CheckFull                             // isFull
    | CheckRoom                             // the rest of peekNextAddItems
    | OneSlot                               // add goes on to the slot at the tail
    | Write(x: T)                           // the next element of the window
    | AddElements(k: nat)                   // advance the tail
    | WrapTail                              // and wrap it if it is past the end
    | CheckEmpty                            // isEmpty
    | CheckAvail                            // the rest of peekNextRemoveItems
    | OneElement                            // remove goes on to the element at the head
    | Read                                  // the next element of the window
    | RemoveElements(k: nat)                // advance the head
    | WrapHead

  /** Pointers are past the end only between the two stores. */
  ghost predicate Shape<T>(s: State<T>) {
    && |s.mem| > 0 && s.head <= |s.mem| && s.tail <= |s.mem|
    && (s.tail == |s.mem| ==> s.producer.TailAdvanced?)
    && (s.head == |s.mem| ==> s.consumer.HeadAdvanced?)
  }

  /** Which steps the two can take: each goes through its own call, one step after the other. */
  ghost predicate Enabled<T>(s: State<T>, a: Step<T>)
    requires Shape(s)
  {
    match a
    case CheckFull => s.producer.Away?
    case CheckRoom => s.producer.NotFull?
    case OneSlot => s.producer.NotFull?
    case Write(_) => s.producer.Filling? && |s.producer.data| < s.producer.room
    case AddElements(k) => s.producer.Filling? && k <= |s.producer.data|
    case WrapTail => s.producer.TailAdvanced?
    case CheckEmpty => s.consumer.Gone?
    case CheckAvail => s.consumer.NotEmpty?
    case OneElement => s.consumer.NotEmpty?
    case Read => s.consumer.Draining? && |s.consumer.got| < s.consumer.avail
    case RemoveElements(k) => s.consumer.Draining? && k <= |s.consumer.got|
    case WrapHead => s.consumer.HeadAdvanced?
  }

  /** Every memory access of the step is to a slot of the buffer. */
  ghost predicate InBounds<T>(s: State<T>, a: Step<T>)
    requires Shape(s) && Enabled(s, a)
  {
    match a
    case Write(_) => s.tail + |s.producer.data| < |s.mem|
    case AddElements(k) => s.tail + k <= |s.mem|
    case Read => s.head + |s.consumer.got| < |s.mem|
    case RemoveElements(k) => s.head + k <= |s.mem|
    case _ => true
  }

  /** getNumItems, of pointers as they are seen. */
  function SeenCount(n: nat, head: nat, tail: nat): (c: nat)
    requires head <= n && tail <= n
  {
    if tail < head then tail + n - head else tail - head
  }

  function SeenNext(n: nat, tail: nat): nat {
    if tail + 1 >= n then 0 else tail + 1
  }

  function Least(a: int, b: int): int {
    if a > b then b else a
  }

  ghost function Next<T>(s: State<T>, a: Step<T>): State<T>
    requires Shape(s) && Enabled(s, a) && InBounds(s, a)
  {
    var n := |s.mem|;
    match a
    case CheckFull => s.(producer := if SeenNext(n, s.tail) == s.head then Away else NotFull)
    case CheckRoom =>
      var room := Least(n - s.tail, n - 1 - SeenCount(n, s.head, s.tail));
      s.(producer := Filling(if room < 0 then 0 else room, []))
    case OneSlot => s.(producer := Filling(1, []))
    case Write(x) =>
      s.(mem := s.mem[s.tail + |s.producer.data| := x], producer := Filling(s.producer.room, s.producer.data + [x]))
    case AddElements(k) =>
      s.(tail := s.tail + k, producer := TailAdvanced, added := s.added + s.producer.data[..k])
    case WrapTail => s.(tail := Wrapped(n, s.tail), producer := Away)
    case CheckEmpty => s.(consumer := if s.head == s.tail then Gone else NotEmpty)
    case CheckAvail => s.(consumer := Draining(Least(n - s.head, SeenCount(n, s.head, s.tail)), []))
    case OneElement => s.(consumer := Draining(1, []))
    case Read =>
      s.(consumer := Draining(s.consumer.avail, s.consumer.got + [s.mem[s.head + |s.consumer.got|]]))
    case RemoveElements(k) =>
      s.(head := s.head + k, consumer := HeadAdvanced, removed := s.removed + s.consumer.got[..k])
    case WrapHead => s.(head := Wrapped(n, s.head), consumer := Gone)
  }

  // -------------------------------------------------------------------- the invariant

  /** What the pointers stand for once they are wrapped. */
  ghost function Content<T>(s: State<T>): seq<T>
    requires Shape(s)
  {
    Queue(s.mem, Head(s), Tail(s))
  }

  ghost function Head<T>(s: State<T>): (h: nat)
    requires Shape(s)
    ensures h < |s.mem|
  {
    Wrapped(|s.mem|, s.head)
  }

  ghost function Tail<T>(s: State<T>): (t: nat)
    requires Shape(s)
    ensures t < |s.mem|
  {
    Wrapped(|s.mem|, s.tail)
  }

  ghost predicate ProducerOk<T>(s: State<T>)
    requires Shape(s)
  {
    match s.producer
    case Away => true
    case NotFull => Room(|s.mem|, Head(s), s.tail) > 0
    case Filling(room, data) =>
      room <= Room(|s.mem|, Head(s), s.tail) && |data| <= room && s.mem[s.tail..s.tail + |data|] == data
    case TailAdvanced => true
  }

  ghost predicate ConsumerOk<T>(s: State<T>)
    requires Shape(s)
  {
    match s.consumer
    case Gone => true
    case NotEmpty => s.head != Tail(s)
    case Draining(avail, got) =>
      avail <= Flat(|s.mem|, s.head, Tail(s)) && |got| <= avail && got == Content(s)[..|got|]
    case HeadAdvanced => true
  }

  /** What was removed, and then what is in the buffer, is what was added. */
  ghost predicate Inv<T>(s: State<T>) {
    Shape(s) && s.removed + Content(s) == s.added && ProducerOk(s) && ConsumerOk(s)
  }

  ghost predicate Init<T>(s: State<T>) {
    && |s.mem| > 0 && s.head == s.tail == 0
    && s.producer == Away && s.consumer == Gone && s.added == s.removed == []
  }

  // --------------------------------------------------- when a pointer past the end misleads

  /** The producer asks whether the buffer is full in the moment when the head is past the end and
      the tail is at the last slot, or the consumer asks whether it is empty in the moment when the
      tail is past the end and the head is at the first slot. */
  ghost predicate Misled<T>(s: State<T>, a: Step<T>) {
    || (a.CheckFull? && s.head == |s.mem| && s.tail == |s.mem| - 1)
    || (a.CheckEmpty? && s.tail == |s.mem| && s.head == 0)
  }

  /** In these moments, and in no others, isFull gives the wrong answer. */
  lemma FullIsRightIff<T>(s: State<T>)
    requires Shape(s) && Enabled(s, CheckFull)
    ensures (Next(s, CheckFull).producer.NotFull? <==> |Content(s)| < |s.mem| - 1) <==> !Misled(s, CheckFull)
  {
    hide Queue;
  }

  /** And isEmpty. */
  lemma EmptyIsRightIff<T>(s: State<T>)
    requires Shape(s) && Enabled(s, CheckEmpty)
    ensures (Next(s, CheckEmpty).consumer.NotEmpty? <==> Content(s) != []) <==> !Misled(s, CheckEmpty)
  {
    hide Queue;
  }

  /** A window the producer is given is all the room there is in one piece, even while the consumer
      wraps its pointer. */
  lemma RoomIsWhole<T>(s: State<T>)
    requires Shape(s) && Enabled(s, CheckRoom)
    ensures Next(s, CheckRoom).producer == Filling(Room(|s.mem|, Head(s), s.tail), [])
  {
  }

  /** A window the consumer is given is all that lies there in one piece, unless it asks in the moment
      in which isEmpty is wrong. */
  lemma AvailIsWholeIff<T>(s: State<T>)
    requires Shape(s) && Enabled(s, CheckAvail)
    ensures Next(s, CheckAvail).consumer == Draining(Flat(|s.mem|, s.head, Tail(s)), []) <==>
      !(s.tail == |s.mem| && s.head == 0)
  {
  }

  // ---------------------------------------------------------------------- every step

  lemma StepInBounds<T>(s: State<T>, a: Step<T>)
    requires Inv(s) && Enabled(s, a)
    ensures InBounds(s, a)
  {
    hide Queue;
  }

  /** The producer's window stays free whatever the consumer removes, and the consumer's window
      stays in use whatever the producer adds. */
  lemma StepKeeps<T>(s: State<T>, a: Step<T>)
    requires Inv(s) && Enabled(s, a) && !Misled(s, a)
    ensures InBounds(s, a) && Inv(Next(s, a)) && |Next(s, a).mem| == |s.mem|
  {
    StepInBounds(s, a);
    match a {
      case Write(x) => WriteKeeps(s, x);
      case AddElements(k) => AddKeeps(s, k);
      case Read => ReadKeeps(s);
      case RemoveElements(k) => RemoveKeeps(s, k);
      case _ => LookKeeps(s, a);
    }
  }

  /** Steps that neither move an element nor announce it. */
  lemma LookKeeps<T>(s: State<T>, a: Step<T>)
    requires Inv(s) && Enabled(s, a) && InBounds(s, a) && !Misled(s, a)
    requires !a.Write? && !a.AddElements? && !a.Read? && !a.RemoveElements?
    ensures Inv(Next(s, a)) && Next(s, a).mem == s.mem
  {
    hide Queue;
    assert Content(Next(s, a)) == Content(s);
    hide Content;
    if a.CheckFull? || a.CheckRoom? || a.OneSlot? || a.WrapTail? {
      ProducerLooks(s, a);
    } else {
      ConsumerLooks(s, a);
    }
    hide ProducerOk, ConsumerOk, Room, Flat;
  }

  lemma ProducerLooks<T>(s: State<T>, a: Step<T>)
    requires Shape(s) && ProducerOk(s) && ConsumerOk(s) && Enabled(s, a) && InBounds(s, a) && !Misled(s, a)
    requires a.CheckFull? || a.CheckRoom? || a.OneSlot? || a.WrapTail?
    requires Shape(Next(s, a)) && Content(Next(s, a)) == Content(s)
    ensures ProducerOk(Next(s, a)) && ConsumerOk(Next(s, a))
  {
    hide Content;
  }

  lemma ConsumerLooks<T>(s: State<T>, a: Step<T>)
    requires Shape(s) && ProducerOk(s) && ConsumerOk(s) && Enabled(s, a) && InBounds(s, a) && !Misled(s, a)
    requires a.CheckEmpty? || a.CheckAvail? || a.OneElement? || a.WrapHead?
    requires Shape(Next(s, a)) && Content(Next(s, a)) == Content(s)
    ensures ProducerOk(Next(s, a)) && ConsumerOk(Next(s, a))
  {
    hide Content;
  }

  lemma WriteKeeps<T>(s: State<T>, x: T)
    requires Inv(s) && Enabled(s, Write(x)) && InBounds(s, Write(x))
    ensures Inv(Next(s, Write(x)))
  {
    hide Queue, Room, Flat;
    var data := s.producer.data;
    WriteOutside(s.mem, Head(s), s.tail, |data|, x);
    var mem := s.mem[s.tail + |data| := x];
    assert mem[s.tail..s.tail + |data| + 1] == s.mem[s.tail..s.tail + |data|] + [x];
  }

  lemma AddKeeps<T>(s: State<T>, k: nat)
    requires Inv(s) && Enabled(s, AddElements(k)) && InBounds(s, AddElements(k))
    ensures Inv(Next(s, AddElements(k)))
  {
    hide Queue;
    AddContent(s, k);
    AddConsumer(s, k);
    hide Content, ConsumerOk, Room, Flat;
    assert s.removed + (Content(s) + s.producer.data[..k]) == s.added + s.producer.data[..k];
  }

  lemma AddContent<T>(s: State<T>, k: nat)
    requires Shape(s) && ProducerOk(s) && Enabled(s, AddElements(k)) && InBounds(s, AddElements(k))
    ensures Shape(Next(s, AddElements(k)))
    ensures Content(Next(s, AddElements(k))) == Content(s) + s.producer.data[..k]
  {
    hide Queue, Room;
    Committed(s.mem, Head(s), s.tail, k);
    assert s.mem[s.tail..s.tail + k] == s.producer.data[..k];
  }

  lemma AddConsumer<T>(s: State<T>, k: nat)
    requires Shape(s) && ProducerOk(s) && ConsumerOk(s) && Enabled(s, AddElements(k)) && InBounds(s, AddElements(k))
    requires Shape(Next(s, AddElements(k))) && Content(s) <= Content(Next(s, AddElements(k)))
    ensures ConsumerOk(Next(s, AddElements(k)))
  {
    var t := Next(s, AddElements(k));
    assert t.mem == s.mem && t.head == s.head && t.tail == s.tail + k && t.consumer == s.consumer;
    assert s.tail < |s.mem| && k <= Room(|s.mem|, Head(s), s.tail);
    hide Next, Content, Room, ProducerOk, ConsumerOk;
    ConsumerUnharmed(s, t, k);
  }

  /** A consumer between its steps is not bothered by a tail that moves on. */
  lemma ConsumerUnharmed<T>(s: State<T>, t: State<T>, k: nat)
    requires Shape(s) && Shape(t) && ConsumerOk(s) && Content(s) <= Content(t)
    requires t.mem == s.mem && t.head == s.head && t.tail == s.tail + k && t.consumer == s.consumer
    requires s.tail < |s.mem| && k <= Room(|s.mem|, Head(s), s.tail)
    ensures ConsumerOk(t)
  {
    match s.consumer {
      case NotEmpty =>
        hide Content, Room;
        NotEmptied(|s.mem|, s.head, s.tail, k);
      case Draining(_, _) => DrainingUnharmed(s, t, k);
      case _ =>
    }
  }

  lemma DrainingUnharmed<T>(s: State<T>, t: State<T>, k: nat)
    requires Shape(s) && Shape(t) && ConsumerOk(s) && Content(s) <= Content(t) && s.consumer.Draining?
    requires t.mem == s.mem && t.head == s.head && t.tail == s.tail + k && t.consumer == s.consumer
    requires s.tail < |s.mem| && k <= Room(|s.mem|, Head(s), s.tail)
    ensures ConsumerOk(t)
  {
    assert |Content(s)| == Count(|s.mem|, Head(s), s.tail);
    var got := s.consumer.got;
    assert Content(t)[..|got|] == Content(s)[..|got|];
    hide Content, Room, Flat;
    WindowsGrow(|s.mem|, Head(s), s.tail, k);
  }

  /** Adding does not empty. */
  lemma NotEmptied(n: nat, head: nat, tail: nat, k: nat)
    ensures head < n && tail < n && head != tail && k <= Room(n, head, tail) ==> head != Wrapped(n, tail + k)
  {
  }

  lemma ReadKeeps<T>(s: State<T>)
    requires Inv(s) && Enabled(s, Read) && InBounds(s, Read)
    ensures Inv(Next(s, Read))
  {
    assert Wrapped(|s.mem|, s.head) == s.head;
    hide Queue, Room, Flat, Wrapped;
    var g := |s.consumer.got|;
    FrontIsFlat(s.mem, s.head, Tail(s), g + 1);
    assert s.mem[s.head..s.head + g + 1][g] == s.mem[s.head + g];
    assert Content(s)[..g + 1] == Content(s)[..g] + [Content(s)[g]];
  }

  lemma RemoveKeeps<T>(s: State<T>, k: nat)
    requires Inv(s) && Enabled(s, RemoveElements(k)) && InBounds(s, RemoveElements(k))
    ensures Inv(Next(s, RemoveElements(k)))
  {
    RemoveContent(s, k);
    RemoveProducer(s, k);
    hide Content, ProducerOk;
    assert s.consumer.got[..k] == Content(s)[..k];
    Moved(s.removed, Content(s), k);
  }

  lemma RemoveContent<T>(s: State<T>, k: nat)
    requires Shape(s) && ConsumerOk(s) && Enabled(s, RemoveElements(k)) && InBounds(s, RemoveElements(k))
    ensures Shape(Next(s, RemoveElements(k))) && k <= |Content(s)|
    ensures Content(Next(s, RemoveElements(k))) == Content(s)[k..]
  {
    hide Queue, Flat;
    Released(s.mem, s.head, Tail(s), k);
  }

  lemma RemoveProducer<T>(s: State<T>, k: nat)
    requires Shape(s) && ProducerOk(s) && ConsumerOk(s) && Enabled(s, RemoveElements(k))
    requires InBounds(s, RemoveElements(k))
    requires Shape(Next(s, RemoveElements(k)))
    ensures ProducerOk(Next(s, RemoveElements(k)))
  {
    hide Content, Room, Flat;
    WindowsGrow(|s.mem|, s.head, Tail(s), k);
  }

  lemma Moved<T>(a: seq<T>, c: seq<T>, k: nat)
    requires k <= |c|
    ensures (a + c[..k]) + c[k..] == a + c
  {
  }

  // ------------------------------------------------------------------------ every run

  ghost predicate Runs<T>(s: State<T>, steps: seq<Step<T>>, t: State<T>)
    decreases |steps|
  {
    if steps == [] then t == s
    else Shape(s) && Enabled(s, steps[0]) && InBounds(s, steps[0]) && Runs(Next(s, steps[0]), steps[1..], t)
  }

  /** No question is asked in the wrong moment. */
  ghost predicate Honest<T>(s: State<T>, steps: seq<Step<T>>)
    decreases |steps|
  {
    steps != [] && Shape(s) && Enabled(s, steps[0]) && InBounds(s, steps[0]) ==>
      !Misled(s, steps[0]) && Honest(Next(s, steps[0]), steps[1..])
  }

  lemma {:induction false} RunKeeps<T>(s: State<T>, steps: seq<Step<T>>, t: State<T>)
    requires Inv(s) && Runs(s, steps, t) && Honest(s, steps)
    ensures Inv(t) && |t.mem| == |s.mem|
    decreases |steps|
  {
    hide Inv, Enabled, InBounds, Next, Misled, Shape;
    if steps != [] {
      InvShape(s);
      StepKeeps(s, steps[0]);
      RunKeeps(Next(s, steps[0]), steps[1..], t);
    }
  }

  lemma InvShape<T>(s: State<T>)
    requires Inv(s)
    ensures Shape(s)
  {
  }

  lemma Begins<T>(s: State<T>)
    requires Init(s)
    ensures Inv(s)
  {
  }

  /** However producer and consumer are interleaved, as long as no question is asked in the wrong
      moment: no access is out of bounds, elements come out in the order they went in, none lost,
      none twice, and at most n - 1 are in the buffer. */
  lemma QueueInEveryRun<T>(s: State<T>, steps: seq<Step<T>>, t: State<T>)
    requires Init(s) && Runs(s, steps, t) && Honest(s, steps)
    ensures Shape(t) && t.removed + Content(t) == t.added && |Content(t)| < |s.mem|
    ensures forall a :: Enabled(t, a) ==> InBounds(t, a)
  {
    Begins(s);
    RunKeeps(s, steps, t);
    forall a | Enabled(t, a) ensures InBounds(t, a) {
      StepInBounds(t, a);
    }
  }

  // -------------------------------------------------------- uninterrupted pairs of stores

  /** Each side wraps its pointer before anybody takes another step. */
  ghost predicate WrapsAtOnce<T>(steps: seq<Step<T>>) {
    forall i :: 0 <= i < |steps| - 1 ==>
      (steps[i].AddElements? ==> steps[i + 1].WrapTail?) && (steps[i].RemoveElements? ==> steps[i + 1].WrapHead?)
  }

  /** Then no question is ever asked in the wrong moment. */
  lemma {:induction false} AtOnceIsHonest<T>(s: State<T>, steps: seq<Step<T>>, t: State<T>)
    requires Shape(s) && Runs(s, steps, t) && WrapsAtOnce(steps)
    requires s.producer.TailAdvanced? ==> steps == [] || steps[0].WrapTail?
    requires s.consumer.HeadAdvanced? ==> steps == [] || steps[0].WrapHead?
    ensures Honest(s, steps)
    decreases |steps|
  {
    if steps != [] {
      var r := steps[1..];
      assert forall i :: 0 <= i < |r| ==> r[i] == steps[i + 1];
      if r != [] { assert r[0] == steps[0 + 1]; }
      hide Honest;
      AtOnceIsHonest(Next(s, steps[0]), r, t);
      NotMisled(s, steps[0]);
      HonestOn(s, steps);
    }
  }

  lemma NotMisled<T>(s: State<T>, a: Step<T>)
    requires Shape(s) && Enabled(s, a)
    requires (s.producer.TailAdvanced? ==> a.WrapTail?) && (s.consumer.HeadAdvanced? ==> a.WrapHead?)
    ensures !Misled(s, a)
  {
  }

  lemma HonestOn<T>(s: State<T>, steps: seq<Step<T>>)
    requires steps != [] && Shape(s) && Enabled(s, steps[0]) && InBounds(s, steps[0])
    requires !Misled(s, steps[0]) && Honest(Next(s, steps[0]), steps[1..])
    ensures Honest(s, steps)
  {
  }

  // -------------------------------------------------------------------- what goes wrong

  /** A successful add, up to the advanced tail. */
  function Adding<T>(x: T): seq<Step<T>> {
    [CheckFull, OneSlot, Write(x), AddElements(1)]
  }

  /** A successful remove, up to the advanced head. */
  function Removing<T>(): seq<Step<T>> {
    [CheckEmpty, OneElement, Read, RemoveElements(1)]
  }

  lemma {:induction false} RunsAppend<T>(s: State<T>, a: seq<Step<T>>, t: State<T>, b: seq<Step<T>>, u: State<T>)
    requires Runs(s, a, t) && Runs(t, b, u)
    ensures Runs(s, a + b, u)
    decreases |a|
  {
    hide Shape, Enabled, InBounds, Next;
    if a == [] {
      assert a + b == b;
    } else {
      assert (a + b)[1..] == a[1..] + b;
      RunsAppend(Next(s, a[0]), a[1..], t, b, u);
    }
  }

  lemma RunsOne<T>(s: State<T>, a: Step<T>)
    requires Shape(s) && Enabled(s, a) && InBounds(s, a)
    ensures Runs(s, [a], Next(s, a))
  {
    hide Shape, Enabled, InBounds, Next;
    assert [a][1..] == [];
  }

  lemma RunsOn<T>(s: State<T>, steps: seq<Step<T>>, t: State<T>, a: Step<T>)
    requires Runs(s, steps, t) && Shape(t) && Enabled(t, a) && InBounds(t, a)
    ensures Runs(s, steps + [a], Next(t, a))
  {
    hide Shape, Enabled, InBounds, Next, Runs;
    RunsOne(t, a);
    RunsAppend(s, steps, t, [a], Next(t, a));
  }

  /** What add does when isFull says there is room, rightly or not. */
  lemma Adds<T>(s: State<T>, x: T)
    requires Shape(s) && s.producer.Away? && SeenNext(|s.mem|, s.tail) != s.head
    ensures Runs(s, Adding(x),
              s.(mem := s.mem[s.tail := x], tail := s.tail + 1, producer := TailAdvanced, added := s.added + [x]))
  {
    var s1 := s.(producer := NotFull);
    var s2 := s.(producer := Filling(1, []));
    var s3 := s.(mem := s.mem[s.tail := x], producer := Filling(1, [x]));
    var s4 := s3.(tail := s.tail + 1, producer := TailAdvanced, added := s.added + [x]);
    assert [] + [x] == [x] && [x][..1] == [x];
    assert Fires(s, CheckFull, s1) && Fires(s1, OneSlot, s2);
    assert Fires(s2, Write(x), s3) && Fires(s3, AddElements(1), s4);
    hide Fires, Runs;
    RunsFour(s, CheckFull, s1, OneSlot, s2, Write(x), s3, AddElements(1), s4);
  }

  ghost predicate Fires<T>(s: State<T>, a: Step<T>, t: State<T>) {
    Shape(s) && Enabled(s, a) && InBounds(s, a) && Next(s, a) == t
  }

  lemma RunsFour<T>(s: State<T>, a: Step<T>, s1: State<T>, b: Step<T>, s2: State<T>,
                    c: Step<T>, s3: State<T>, d: Step<T>, s4: State<T>)
    requires Fires(s, a, s1) && Fires(s1, b, s2) && Fires(s2, c, s3) && Fires(s3, d, s4)
    ensures Runs(s, [a, b, c, d], s4)
  {
    hide Runs, Shape, Enabled, InBounds, Next;
    RunsOne(s, a);
    RunsOn(s, [a], s1, b);
    RunsOn(s, [a] + [b], s2, c);
    RunsOn(s, [a] + [b] + [c], s3, d);
    assert [a] + [b] + [c] + [d] == [a, b, c, d];
  }

  lemma AddsAndWraps<T>(s: State<T>, x: T)
    requires Shape(s) && s.producer.Away? && SeenNext(|s.mem|, s.tail) != s.head
    ensures Runs(s, Adding(x) + [WrapTail],
              s.(mem := s.mem[s.tail := x], tail := SeenNext(|s.mem|, s.tail), added := s.added + [x]))
  {
    hide Runs, Adding;
    var t := s.(mem := s.mem[s.tail := x], tail := s.tail + 1, producer := TailAdvanced, added := s.added + [x]);
    Adds(s, x);
    RunsOn(s, Adding(x), t, WrapTail);
  }

  lemma RemovesAndWraps<T>(s: State<T>)
    requires Shape(s) && s.consumer.Gone? && s.head != s.tail
    ensures Runs(s, Removing() + [WrapHead],
              s.(head := Wrapped(|s.mem|, s.head + 1), removed := s.removed + [s.mem[s.head]]))
  {
    hide Runs, Removing;
    Removes(s);
    var t := s.(head := s.head + 1, consumer := HeadAdvanced, removed := s.removed + [s.mem[s.head]]);
    RunsOn(s, Removing(), t, WrapHead);
  }

  /** What remove does when isEmpty says there is something, rightly or not. */
  lemma Removes<T>(s: State<T>)
    requires Shape(s) && s.consumer.Gone? && s.head != s.tail
    ensures Runs(s, Removing(),
              s.(head := s.head + 1, consumer := HeadAdvanced, removed := s.removed + [s.mem[s.head]]))
  {
    var x := s.mem[s.head];
    var s1 := s.(consumer := NotEmpty);
    var s2 := s.(consumer := Draining(1, []));
    var s3 := s.(consumer := Draining(1, [x]));
    var s4 := s.(head := s.head + 1, consumer := HeadAdvanced, removed := s.removed + [x]);
    AsksAndGoesOn(s);
    TakesOne(s2);
    hide Fires, Runs, Shape;
    RunsFour(s, CheckEmpty, s1, OneElement, s2, Read, s3, RemoveElements(1), s4);
  }

  lemma AsksAndGoesOn<T>(s: State<T>)
    requires Shape(s) && s.consumer.Gone? && s.head != s.tail
    ensures Fires(s, CheckEmpty, s.(consumer := NotEmpty))
    ensures Fires(s.(consumer := NotEmpty), OneElement, s.(consumer := Draining(1, [])))
  {
  }

  lemma TakesOne<T>(s: State<T>)
    requires Shape(s) && s.consumer == Draining(1, [])
    ensures Fires(s, Read, s.(consumer := Draining(1, [s.mem[s.head]])))
    ensures Fires(s.(consumer := Draining(1, [s.mem[s.head]])), RemoveElements(1),
              s.(head := s.head + 1, consumer := HeadAdvanced, removed := s.removed + [s.mem[s.head]]))
  {
    var x := s.mem[s.head];
    assert [] + [x] == [x] && [x][..1] == [x];
  }

  /** Whenever the producer asks in the wrong moment, its add goes through and all n elements, the
      new one among them, are lost. */
  lemma MisledProducerLoses<T>(s: State<T>, x: T) returns (t: State<T>)
    requires Inv(s) && s.producer.Away? && Misled(s, CheckFull)
    ensures Runs(s, Adding(x) + [WrapTail], t) && Shape(t) && Content(t) == [] && |t.added| == |t.removed| + |s.mem|
  {
    AddsAndWraps(s, x);
    t := s.(mem := s.mem[s.tail := x], tail := SeenNext(|s.mem|, s.tail), added := s.added + [x]);
    hide Runs;
  }

  /** Whenever the consumer asks in the wrong moment, its remove returns an element that nobody
      added. */
  lemma MisledConsumerInvents<T>(s: State<T>) returns (t: State<T>)
    requires Inv(s) && s.consumer.Gone? && Misled(s, CheckEmpty)
    ensures Runs(s, Removing(), t) && |t.removed| == |t.added| + 1
  {
    Removes(s);
    t := s.(head := s.head + 1, consumer := HeadAdvanced, removed := s.removed + [s.mem[s.head]]);
    hide Runs;
  }

  /** A buffer with two slots that has seen one element come and go. */
  lemma OneInOneOut() returns (s: State<int>, steps: seq<Step<int>>)
    ensures Init(s) && Runs(s, steps, State([5, 0], 1, 1, Away, Gone, [5], [5]))
  {
    s := State([0, 0], 0, 0, Away, Gone, [], []);
    var t := State([5, 0], 0, 1, Away, Gone, [5], []);
    assert s.mem[0 := 5] == t.mem && [] + [5] == [5];
    hide Runs, Adding, Removing;
    AddsAndWraps(s, 5);
    RemovesAndWraps(t);
    RunsAppend(s, Adding(5) + [WrapTail], t, Removing() + [WrapHead], State([5, 0], 1, 1, Away, Gone, [5], [5]));
    steps := Adding(5) + [WrapTail] + (Removing() + [WrapHead]);
  }

  /** Such a buffer gets into the producer's wrong moment: add, remove up to the advanced head, add. */
  lemma ProducerIsMisled() returns (s: State<int>, steps: seq<Step<int>>, t: State<int>)
    ensures Init(s) && Runs(s, steps, t) && t.producer.Away? && Misled(t, CheckFull)
  {
    hide Runs, Adding, Removing;
    var s1 := State([5, 0], 1, 1, Away, Gone, [5], [5]);
    var s2 := State([5, 6], 1, 0, Away, Gone, [5, 6], [5]);
    var s3 := State([5, 6], 2, 0, Away, HeadAdvanced, [5, 6], [5, 6]);
    t := State([7, 6], 2, 1, Away, HeadAdvanced, [5, 6, 7], [5, 6]);
    assert s1.mem[1 := 6] == s2.mem && s3.mem[0 := 7] == t.mem;
    assert [5] + [6] == [5, 6] && [5, 6] + [7] == [5, 6, 7];
    s, steps := OneInOneOut();
    AddsAndWraps(s1, 6);
    Removes(s2);
    AddsAndWraps(s3, 7);
    RunsAppend(s, steps, s1, Adding(6) + [WrapTail], s2);
    steps := steps + (Adding(6) + [WrapTail]);
    RunsAppend(s, steps, s2, Removing(), s3);
    steps := steps + Removing();
    RunsAppend(s, steps, s3, Adding(7) + [WrapTail], t);
    steps := steps + (Adding(7) + [WrapTail]);
  }

  /** And into the consumer's: add up to the advanced tail, remove. */
  lemma ConsumerIsMisled() returns (s: State<int>, steps: seq<Step<int>>, t: State<int>)
    ensures Init(s) && Runs(s, steps, t) && t.consumer.Gone? && Misled(t, CheckEmpty)
  {
    hide Runs, Adding, Removing;
    var s1 := State([5, 0], 1, 1, Away, Gone, [5], [5]);
    var s2 := State([5, 6], 1, 2, TailAdvanced, Gone, [5, 6], [5]);
    t := State([5, 6], 0, 2, TailAdvanced, Gone, [5, 6], [5, 6]);
    assert s1.mem[1 := 6] == s2.mem && [5] + [6] == [5, 6];
    s, steps := OneInOneOut();
    Adds(s1, 6);
    RemovesAndWraps(s2);
    RunsAppend(s, steps, s1, Adding(6), s2);
    steps := steps + Adding(6);
    RunsAppend(s, steps, s2, Removing() + [WrapHead], t);
    steps := steps + (Removing() + [WrapHead]);
  }
}
