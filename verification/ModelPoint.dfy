/** A model point's data (ModelPointCommon_): validity, lock and sequence number, and what an
    observer may conclude from a sequence number. Subscribers are the Notification modules' part. */
module ModelPoint {
  import opened Basics
  import opened SequenceNumbers

  datatype LockRequest = NoRequest | Lock | Unlock

  /** What a reader can see of a point. */
  datatype Content = Content(data: seq<Byte>, valid: bool)

  function Cleared(n: nat): (r: seq<Byte>)
    ensures |r| == n && forall i :: 0 <= i < n ==> r[i] == 0
  {
    seq(n, _ => 0)
  }

  /** A point's state with the content it had under each version. */
  datatype Value = Value(data: seq<Byte>, valid: bool, locked: bool, history: seq<Content>)

  function Changed(v: Value, data: seq<Byte>, valid: bool): Value {
    v.(data := data, valid := valid, history := v.history + [Content(data, valid)])
  }

  /** testAndUpdateLock: whether an update may go ahead, and the lock afterwards. A request to lock
      goes ahead on a locked point too. */
  function Permits(locked: bool, request: LockRequest): bool {
    request != NoRequest || !locked
  }

  function Relocked(locked: bool, request: LockRequest): bool {
    match request case Unlock => false case Lock => true case NoRequest => locked
  }

  function Written(v: Value, data: seq<Byte>, request: LockRequest): Value {
    var v' := v.(locked := Relocked(v.locked, request));
    if Permits(v.locked, request) && (!v.valid || v.data != data) then Changed(v', data, true) else v'
  }

  function Invalidated(v: Value, request: LockRequest): Value {
    var v' := v.(locked := Relocked(v.locked, request));
    if Permits(v.locked, request) && v.valid then Changed(v', Cleared(|v.data|), false) else v'
  }

  function Exported(v: Value, withLock: bool): seq<Byte> {
    v.data + [if v.valid then 1 else 0] + if withLock then [if v.locked then 1 else 0] else []
  }

  function Imported(v: Value, stream: seq<Byte>, withLock: bool): Value
    requires |stream| >= |v.data| + if withLock then 2 else 1
  {
    var n := |v.data|;
    var v' := if withLock then v.(locked := stream[n + 1] != 0) else v;
    Changed(v', stream[..n], stream[n] != 0)
  }

  /** How many bytes an import reads from, or an export writes to, a stream of the given length. */
  function ImageSize(size: nat, length: nat, withLock: bool): nat {
    if length < size + 1 then 0 else if withLock then size + 2 else size + 1
  }

  /** They stay within that length except for one: data and validity fit, and the lock, which was
      asked for, does not. */
  lemma WithinLengthIff(size: nat, length: nat, withLock: bool)
    ensures ImageSize(size, length, withLock) <= length <==> !(withLock && length == size + 1)
  {
  }

  /** A point of one byte and a stream of two. */
  lemma LockByteIsBeyond()
    ensures ImageSize(1, 2, true) == 3
  {
  }

  // ----------------------------------------------------------------------- the class

  class ModelPoint {
    const size: nat
    var data: seq<Byte>
    var seqNum: nat
    var locked: bool
    var valid: bool
    ghost var history: seq<Content>

    /** The number is that of the latest version, and the content is what that version has: content
        never changes without a new version. */
    ghost predicate Valid()
      reads this
    {
      && |data| == size && history != [] && seqNum == SeqOf(|history| - 1)
      && history[|history| - 1] == Content(data, valid)
    }

    ghost function Now(): Value
      reads this
    {
      Value(data, valid, locked, history)
    }

    constructor (data: seq<Byte>, valid: bool)
      ensures Valid() && !locked && |history| == 1 && size == |data|
      ensures this.valid == valid && this.data == if valid then data else Cleared(|data|)
    {
      size := |data|;
      seqNum := UNKNOWN + 1;
      locked := false;
      this.valid := valid;
      this.data := if valid then data else Cleared(|data|);
      history := [Content(if valid then data else Cleared(|data|), valid)];
    }

    method TestAndUpdateLock(request: LockRequest) returns (ok: bool)
      modifies this`locked
      ensures ok == Permits(old(locked), request) && locked == Relocked(old(locked), request)
      ensures ok <==> !old(locked) || request == Lock || request == Unlock
      ensures locked <==> request == Lock || (request == NoRequest && old(locked))
    {
      ok := false;
      if request == Unlock {
        locked, ok := false, true;
      } else if request == Lock {
        locked, ok := true, true;
      } else if !locked {
        ok := true;
      }
    }

    /** Takes a new number for what the point now holds. */
    method AdvanceSequenceNumber()
      requires |data| == size && history != [] && seqNum == SeqOf(|history| - 1)
      modifies this`seqNum, this`history
      ensures Valid() && history == old(history) + [Content(data, valid)]
    {
      AdvanceCounts(|history| - 1);
      seqNum := (seqNum + 1) % 0x1_0000;
      if seqNum == UNKNOWN { seqNum := UNKNOWN + 1; }
      history := history + [Content(data, valid)];
    }

    /** The size is only checked; as many bytes as the point has are compared and copied. */
    method WriteData(src: Option<seq<Byte>>, srcSize: nat, request: LockRequest) returns (result: nat)
      requires Valid() && srcSize <= size && (src.Some? ==> |src.value| >= size)
      modifies this
      ensures Valid() && result == seqNum
      ensures Now() == if src == None then old(Now()) else Written(old(Now()), src.value[..size], request)
    {
      if src.Some? {
        var ok := TestAndUpdateLock(request);
        if ok && (!valid || data != src.value[..size]) {
          data := src.value[..size];
          valid := true;
          AdvanceSequenceNumber();
        }
      }
      return seqNum;
    }

    method SetInvalid(request: LockRequest) returns (result: nat)
      requires Valid()
      modifies this
      ensures Valid() && result == seqNum && Now() == Invalidated(old(Now()), request)
    {
      var ok := TestAndUpdateLock(request);
      if ok {
        if valid {
          valid := false;
          data := Cleared(size);
          AdvanceSequenceNumber();
        }
      }
      return seqNum;
    }

    /** Copies another point's content; its invalidity is copied without regard to the request. */
    method CopyDataAndStateFrom(src: ModelPoint, request: LockRequest) returns (result: nat)
      requires Valid() && src.Valid() && src.size == size
      modifies this
      ensures Valid() && result == seqNum
      ensures Now() ==
        if !old(src.valid) then Invalidated(old(Now()), NoRequest) else Written(old(Now()), old(src.data), request)
    {
      if !src.valid {
        result := SetInvalid(NoRequest);
        return;
      }
      assert src.data[..size] == src.data;
      result := WriteData(Some(src.data), src.size, request);
    }

    method Touch() returns (result: nat)
      requires Valid()
      modifies this
      ensures Valid() && result == seqNum && Now() == Changed(old(Now()), old(data), old(valid))
    {
      AdvanceSequenceNumber();
      return seqNum;
    }

    method SetLockState(request: LockRequest) returns (result: nat)
      requires Valid()
      modifies this`locked
      ensures Valid() && result == seqNum && Now() == old(Now()).(locked := Relocked(old(locked), request))
    {
      if request == Lock {
        locked := true;
      } else if request == Unlock {
        locked := false;
      }
      return seqNum;
    }

    /** Copies as much as the destination holds, if there is one and the point is valid. */
    method ReadData(dstSize: Option<nat>) returns (ok: bool, dst: seq<Byte>, result: nat)
      requires Valid() && (dstSize.Some? ==> dstSize.value <= size)
      ensures ok == valid && result == SeqOf(|history| - 1)
      ensures dst == if ok && dstSize.Some? then data[..dstSize.value] else []
    {
      ok, dst, result := valid, [], seqNum;
      if dstSize.Some? && ok { dst := data[..dstSize.value]; }
    }

    /** Writes the image; the space is compared without the byte for the lock. */
    method ExportData(maxLength: nat, withLock: bool) returns (stream: seq<Byte>, result: nat, retSeqNum: Option<nat>)
      requires Valid()
      ensures result == |stream| == ImageSize(size, maxLength, withLock)
      ensures result > 0 ==> stream == Exported(Now(), withLock)
      ensures retSeqNum == if result > 0 then Some(SeqOf(|history| - 1)) else None
    {
      if maxLength < size + 1 { return [], 0, None; }
      stream := data + [if valid then 1 else 0];
      if withLock { stream := stream + [if locked then 1 else 0]; }
      retSeqNum := Some(seqNum);
      result := size + if withLock then 2 else 1;
    }

    /** The length is compared without the byte for the lock, so that byte must be there. */
    method ImportData(stream: seq<Byte>, length: nat, withLock: bool) returns (result: nat, retSeqNum: Option<nat>)
      requires Valid()
      requires |stream| >= ImageSize(size, length, withLock)
      modifies this
      ensures Valid()
      ensures result == ImageSize(size, length, withLock)
      ensures result == 0 ==> Now() == old(Now())
      ensures result > 0 ==> Now() == Imported(old(Now()), stream, withLock)
      ensures retSeqNum == if result > 0 then Some(SeqOf(|history| - 1)) else None
    {
      result, retSeqNum := 0, None;
      if size + 1 <= length {
        data := stream[..size];
        valid := stream[size] != 0;
        if withLock { locked := stream[size + 1] != 0; }
        AdvanceSequenceNumber();
        retSeqNum := Some(seqNum);
        result := size + if withLock then 2 else 1;
      }
    }
  }

  // -------------------------------------------------------------------- what follows

  /** What an update can be. */
  datatype Update =
    | Write(data: seq<Byte>, request: LockRequest)
    | Invalidate(request: LockRequest)
    | TouchIt
    | SetLock(request: LockRequest)
    | Import(stream: seq<Byte>, withLock: bool)

  ghost predicate Fits(v: Value, u: Update) {
    match u
    case Write(data, _) => |data| == |v.data|
    case Import(stream, withLock) => |stream| >= |v.data| + if withLock then 2 else 1
    case _ => true
  }

  ghost function Applied(v: Value, u: Update): Value
    requires Fits(v, u)
  {
    match u
    case Write(data, request) => Written(v, data, request)
    case Invalidate(request) => Invalidated(v, request)
    case TouchIt => Changed(v, v.data, v.valid)
    case SetLock(request) => v.(locked := Relocked(v.locked, request))
    case Import(stream, withLock) => Imported(v, stream, withLock)
  }

  ghost predicate Consistent(v: Value) {
    v.history != [] && v.history[|v.history| - 1] == Content(v.data, v.valid)
  }

  /** Each update in turn. */
  ghost predicate Updates(v: Value, us: seq<Update>, w: Value)
    decreases |us|
  {
    if us == [] then w == v else Fits(v, us[0]) && Updates(Applied(v, us[0]), us[1..], w)
  }

  lemma {:induction false} HistoryGrows(v: Value, us: seq<Update>, w: Value)
    requires Consistent(v) && Updates(v, us, w)
    ensures Consistent(w) && v.history <= w.history && |w.history| <= |v.history| + |us|
    decreases |us|
  {
    if us != [] {
      var v' := Applied(v, us[0]);
      assert Consistent(v') && v.history <= v'.history;
      HistoryGrows(v', us[1..], w);
    }
  }

  /** Sequence numbers are versions: whatever updates lie between two looks at a point, as long as
      fewer than 65535 of them took a new number, equal numbers mean that none did, and the content
      is the same. */
  lemma EqualNumbersEqualContent(v: Value, us: seq<Update>, w: Value)
    requires Consistent(v) && Updates(v, us, w)
    requires |w.history| - |v.history| < PERIOD
    ensures |v.history| <= |w.history|
    ensures SeqOf(|v.history| - 1) == SeqOf(|w.history| - 1) <==> v.history == w.history
    ensures v.history == w.history ==> v.data == w.data && v.valid == w.valid
  {
    hide SeqOf;
    HistoryGrows(v, us, w);
    SameNumber(|v.history| - 1, |w.history| - 1);
  }

  // ------------------------------------------------------------- what the lock does

  /** A write goes through unless the point is locked and nothing is requested. One that goes through
      leaves the point valid with that data, under a new version exactly if that is news; the lock
      is what was requested, or stays. */
  lemma WriteEffect(v: Value, data: seq<Byte>, request: LockRequest)
    ensures var w := Written(v, data, request); var news := !v.valid || v.data != data;
      && (!v.locked || request != NoRequest ==>
           w.data == data && w.valid && w.history == v.history + if news then [Content(data, true)] else [])
      && (v.locked && request == NoRequest ==> w == v)
      && (w.locked <==> request == Lock || (request == NoRequest && v.locked))
  {
    assert v.history + [] == v.history;
  }

  /** The same for an invalidation, which clears what was valid. */
  lemma InvalidateEffect(v: Value, request: LockRequest)
    ensures var w := Invalidated(v, request);
      && |w.data| == |v.data|
      && (!v.locked || request != NoRequest ==>
           && !w.valid && (v.valid ==> forall i :: 0 <= i < |w.data| ==> w.data[i] == 0)
           && (!v.valid ==> w.data == v.data)
           && w.history == v.history + if v.valid then [Content(w.data, false)] else [])
      && (v.locked && request == NoRequest ==> w == v)
      && (w.locked <==> request == Lock || (request == NoRequest && v.locked))
  {
    assert v.history + [] == v.history;
  }

  /** What an update asks of the lock. */
  ghost function Asked(v: Value, u: Update): Option<bool> {
    match u
    case Import(stream, withLock) =>
      if withLock && |v.data| + 1 < |stream| then Some(stream[|v.data| + 1] != 0) else None
    case TouchIt => None
    case _ => if u.request == NoRequest then None else Some(u.request == Lock)
  }

  /** After any run the point is locked exactly if the last update that asked anything of the lock
      asked for that; if none did, as before. */
  lemma {:induction false} LockIsLastAsked(v: Value, us: seq<Update>, w: Value, k: nat)
    requires Updates(v, us, w) && k <= |us|
    requires forall j :: k < j < |us| ==> Asked(v, us[j]) == None
    ensures k < |us| && Asked(v, us[k]).Some? ==> w.locked == Asked(v, us[k]).value
    ensures (forall j :: 0 <= j < |us| ==> Asked(v, us[j]) == None) ==> w.locked == v.locked
    decreases |us|
  {
    if us != [] {
      var v' := Applied(v, us[0]);
      assert |v'.data| == |v.data| && v'.locked == if Asked(v, us[0]).Some? then Asked(v, us[0]).value else v.locked;
      hide Asked, Applied;
      assert forall j :: 0 <= j < |us[1..]| ==> us[1..][j] == us[j + 1];
      AskedSame(v, v', us[1..]);
      LockIsLastAsked(v', us[1..], w, if k > 0 then k - 1 else |us| - 1);
    }
  }

  lemma AskedSame(v: Value, v': Value, us: seq<Update>)
    requires |v'.data| == |v.data|
    ensures forall j :: 0 <= j < |us| ==> Asked(v', us[j]) == Asked(v, us[j])
  {
  }

  /** Forcing a value: written with a request to lock, it stays through whatever others do who
      request nothing. */
  lemma ForcedValueStays(v: Value, data: seq<Byte>, us: seq<Update>, w: Value)
    requires Updates(Written(v, data, Lock), us, w) && ByOthers(us)
    ensures w.data == data && w.valid && w.locked
  {
    hide Written;
    WriteEffect(v, data, Lock);
    LockedStays(Written(v, data, Lock), us, w);
  }

  /** The image: each byte of the data, then validity and lock as 1 or 0. */
  lemma ImageIs(v: Value, withLock: bool)
    ensures var image, n := Exported(v, withLock), |v.data|;
      && |image| == n + (if withLock then 2 else 1) && (forall i :: 0 <= i < n ==> image[i] == v.data[i])
      && image[n] == (if v.valid then 1 else 0) && (withLock ==> image[n + 1] == if v.locked then 1 else 0)
  {
  }

  /** An import overrides the lock and always takes a new version. */
  lemma ImportEffect(v: Value, stream: seq<Byte>, withLock: bool)
    requires |stream| >= |v.data| + if withLock then 2 else 1
    ensures var w, n := Imported(v, stream, withLock), |v.data|;
      && |w.data| == n && (forall i :: 0 <= i < n ==> w.data[i] == stream[i]) && (w.valid <==> stream[n] != 0)
      && (w.locked <==> if withLock then stream[n + 1] != 0 else v.locked)
      && |w.history| == |v.history| + 1 && Consistent(w) && v.history <= w.history
  {
  }

  ghost predicate ByOthers(us: seq<Update>) {
    forall k :: 0 <= k < |us| ==>
      us[k] in {TouchIt, Invalidate(NoRequest)} || (us[k].Write? && us[k].request == NoRequest)
  }

  /** Nothing but a touch, which changes no content, gets through to a locked point without a lock
      request. */
  lemma {:induction false} LockedStays(v: Value, us: seq<Update>, w: Value)
    requires v.locked && Updates(v, us, w) && ByOthers(us)
    ensures w.locked && w.data == v.data && w.valid == v.valid
    ensures (forall k :: 0 <= k < |us| ==> us[k] != TouchIt) ==> w == v
    decreases |us|
  {
    if us != [] {
      assert us[0] in {TouchIt, Invalidate(NoRequest)} || (us[0].Write? && us[0].request == NoRequest);
      var v' := Applied(v, us[0]);
      assert v'.locked && v'.data == v.data && v'.valid == v.valid && (us[0] != TouchIt ==> v' == v);
      assert forall k :: 0 <= k < |us[1..]| ==> us[1..][k] == us[k + 1];
      LockedStays(v', us[1..], w);
    }
  }

  /** A request to lock does not keep a locked point from being updated: it stays as it is exactly
      when it is valid and has that data already, or when there is no request at all. */
  lemma LockedUpdateIff(v: Value, data: seq<Byte>, request: LockRequest)
    requires v.locked && request != Unlock
    ensures Written(v, data, request) == v <==> request == NoRequest || (v.valid && v.data == data)
  {
    assert |v.history + [Content(data, true)]| != |v.history|;
  }

  /** The same for an invalidation: it stays exactly without a request or when it is invalid already. */
  lemma LockedInvalidateIff(v: Value, request: LockRequest)
    requires v.locked && request != Unlock
    ensures Invalidated(v, request) == v <==> request == NoRequest || !v.valid
  {
    assert |v.history + [Content(Cleared(|v.data|), false)]| != |v.history|;
  }

  /** A locked point of one byte that a write with a request to lock changes, and an invalidation too. */
  lemma LockDoesNotKeep()
    ensures var v := Value([1], true, true, [Content([1], true)]);
      && Written(v, [2], Lock).data == [2] && Written(v, [2], Lock).locked
      && !Invalidated(v, Lock).valid && Invalidated(v, Lock).data == [0]
  {
  }

  /** What is exported can be imported: into any point of the same size. */
  lemma ImportUndoesExport(v: Value, w: Value, withLock: bool)
    requires |v.data| == |w.data|
    ensures var r := Imported(w, Exported(v, withLock), withLock);
      && r.data == v.data && r.valid == v.valid && r.locked == (if withLock then v.locked else w.locked)
      && |r.history| == |w.history| + 1
  {
    assert Exported(v, withLock)[..|v.data|] == v.data;
  }
}
