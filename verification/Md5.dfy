/** Streaming MD5 (md5_aladdin_.c) against the one-shot definition of RFC 1321. The block function
    is a parameter. */
module Md5 {
  import opened Basics

  const WORD: nat := 0x1_0000_0000
  const COUNT: nat := 0x1_0000_0000_0000_0000

  type Word = x: nat | x < 0x1_0000_0000

  datatype Registers = Registers(a: Word, b: Word, c: Word, d: Word)

  type Block = (Registers, seq<Byte>) -> Registers

  const INITIAL: Registers := Registers(0x6745_2301, 0xefcd_ab89, 0x98ba_dcfe, 0x1032_5476)

  // ------------------------------------------------------- the digest of a whole message

  /** Section 3.4: the message's blocks of 64 bytes, one after the other. */
  function Fold(process: Block, r: Registers, bytes: seq<Byte>): Registers
    decreases |bytes|
  {
    if |bytes| < 64 then r else Fold(process, process(r, bytes[..64]), bytes[64..])
  }

  function Zeros(n: nat): (r: seq<Byte>)
    ensures |r| == n && forall k :: 0 <= k < n ==> r[k] == 0
  {
    seq(n, _ => 0)
  }

  /** Section 3.1: how many zeros follow the one bit, at least, for the length to fit behind them. */
  function ZerosNeeded(n: nat): (k: nat)
    ensures Fits(n, k) && forall j: nat :: j < k ==> !Fits(n, j)
  {
    (55 - n) % 64
  }

  predicate Fits(n: nat, k: nat) {
    (n + 1 + k) % 64 == 56
  }

  /** The low byte of w shifted right by i bytes. */
  function ByteOf(w: nat, i: nat): Byte {
    (w / Power256(i)) % 256
  }

  function Power256(i: nat): (p: nat)
    ensures p > 0
  {
    if i == 0 then 1 else 256 * Power256(i - 1)
  }

  function WordBytes(w: Word): (r: seq<Byte>)
    ensures |r| == 4
  {
    seq(4, i requires 0 <= i => ByteOf(w, i))
  }

  /** Section 3.2: the length in bits, modulo 2^64, as two words, the low one first. */
  function LengthBytes(n: nat): (r: seq<Byte>)
    ensures |r| == 8
  {
    var bits := 8 * n % COUNT;
    WordBytes(bits % WORD) + WordBytes(bits / WORD)
  }

  function Padding(n: nat): (r: seq<Byte>)
    ensures |r| == 1 + ZerosNeeded(n) + 8 && (n + |r|) % 64 == 0
  {
    [0x80] + Zeros(ZerosNeeded(n)) + LengthBytes(n)
  }

  /** Section 3.5: the registers, least significant bytes first. */
  function Output(r: Registers): (d: seq<Byte>)
    ensures |d| == 16
  {
    WordBytes(r.a) + WordBytes(r.b) + WordBytes(r.c) + WordBytes(r.d)
  }

  function Digest(process: Block, message: seq<Byte>): (d: seq<Byte>)
    ensures |d| == 16
  {
    Output(Fold(process, INITIAL, message + Padding(|message|)))
  }

  // --------------------------------------------------------- which bytes these are

  /** The number that four bytes stand for, the first being the lowest. */
  function LowFirst(d: seq<Byte>, i: nat): int
    requires i + 4 <= |d|
  {
    (d[i] as int) + 0x100 * (d[i + 1] as int) + 0x1_0000 * (d[i + 2] as int) + 0x100_0000 * (d[i + 3] as int)
  }

  /** A word is written low byte first. */
  lemma WordBytesAre(w: Word)
    ensures LowFirst(WordBytes(w), 0) == w
  {
    PowersAre();
    var d := WordBytes(w);
    assert d[0] == w / 1 % 256 && d[1] == w / 0x100 % 256 && d[2] == w / 0x1_0000 % 256 && d[3] == w / 0x100_0000 % 256;
    hide ByteOf, Power256, WordBytes;
    FourBytes(w);
  }

  lemma PowersAre()
    ensures Power256(0) == 1 && Power256(1) == 0x100 && Power256(2) == 0x1_0000 && Power256(3) == 0x100_0000
  {
  }

  lemma FourBytes(w: Word)
    ensures (w as int) ==
      w % 256 + 0x100 * (w / 0x100 % 256) + 0x1_0000 * (w / 0x1_0000 % 256) + 0x100_0000 * (w / 0x100_0000 % 256)
  {
    assert w / 0x1_0000 == w / 0x100 / 256 && w / 0x100_0000 == w / 0x1_0000 / 256;
  }

  /** The eight bytes of the length: the number of bits modulo 2^64, low byte first. */
  lemma LengthBytesAre(n: nat)
    ensures LowFirst(LengthBytes(n), 0) + WORD * LowFirst(LengthBytes(n), 4) == 8 * n % COUNT
  {
    var bits := 8 * n % COUNT;
    WordBytesAre(bits % WORD);
    WordBytesAre(bits / WORD);
    assert bits == bits % WORD + WORD * (bits / WORD);
    hide WordBytes;
  }

  /** The padding: one bit, zeros, and the length in the last eight bytes. */
  lemma PaddingIsOneBitZerosLength(n: nat)
    ensures var p, k := Padding(n), ZerosNeeded(n);
      p[0] == 0x80 && (forall i :: 1 <= i <= k ==> p[i] == 0) && p[k + 1..] == LengthBytes(n)
  {
    hide LengthBytes, ZerosNeeded;
  }

  /** No two messages of fewer than 2^61 bytes become the same by padding. */
  lemma PaddingIsUnambiguous(m: seq<Byte>, m': seq<Byte>)
    requires 8 * |m| < COUNT && 8 * |m'| < COUNT
    ensures m + Padding(|m|) == m' + Padding(|m'|) <==> m == m'
  {
    hide Padding, LengthBytes;
    var a, b := m + Padding(|m|), m' + Padding(|m'|);
    if a == b {
      LastEight(m);
      LastEight(m');
      SameLength(|m|, |m'|);
      assert a[..|m|] == m && b[..|m'|] == m';
    }
  }

  lemma SameLength(n: nat, n': nat)
    requires 8 * n < COUNT && 8 * n' < COUNT && LengthBytes(n) == LengthBytes(n')
    ensures n == n'
  {
    LengthBytesAre(n);
    LengthBytesAre(n');
    hide LengthBytes, LowFirst;
  }

  lemma LastEight(m: seq<Byte>)
    ensures var a := m + Padding(|m|); |a| >= 8 && a[|a| - 8..] == LengthBytes(|m|)
  {
    hide Padding, LengthBytes, ZerosNeeded;
    PaddingIsOneBitZerosLength(|m|);
    var p := Padding(|m|);
    assert (m + p)[|m + p| - 8..] == p[|p| - 8..];
  }

  /** The digest holds the registers in order, each low byte first. */
  lemma OutputIs(r: Registers)
    ensures var d := Output(r);
      LowFirst(d, 0) == r.a && LowFirst(d, 4) == r.b && LowFirst(d, 8) == r.c && LowFirst(d, 12) == r.d
  {
    WordBytesAre(r.a);
    WordBytesAre(r.b);
    WordBytesAre(r.c);
    WordBytesAre(r.d);
    hide WordBytes;
  }

  /** Section 3.3: the bytes the registers start with. */
  lemma InitialBytes()
    ensures Output(INITIAL) ==
      [0x01, 0x23, 0x45, 0x67, 0x89, 0xab, 0xcd, 0xef, 0xfe, 0xdc, 0xba, 0x98, 0x76, 0x54, 0x32, 0x10]
  {
    FourAre(INITIAL.a, 0x01, 0x23, 0x45, 0x67);
    FourAre(INITIAL.b, 0x89, 0xab, 0xcd, 0xef);
    FourAre(INITIAL.c, 0xfe, 0xdc, 0xba, 0x98);
    FourAre(INITIAL.d, 0x76, 0x54, 0x32, 0x10);
    hide WordBytes;
  }

  lemma FourAre(w: Word, a: Byte, b: Byte, c: Byte, d: Byte)
    requires LowFirst([a, b, c, d], 0) == w
    ensures WordBytes(w) == [a, b, c, d]
  {
    WordBytesAre(w);
    hide WordBytes;
    var x := WordBytes(w);
    var x0: int, x1: int, x2: int, x3: int := x[0], x[1], x[2], x[3];
    SameLow(x0, x1 + 0x100 * x2 + 0x1_0000 * x3, a, b as int + 0x100 * (c as int) + 0x1_0000 * (d as int));
    SameLow(x1, x2 + 0x100 * x3, b, c as int + 0x100 * (d as int));
    SameLow(x2, x3, c, d);
    assert x == [x[0], x[1], x[2], x[3]];
  }

  lemma SameLow(a: int, x: int, b: int, y: int)
    requires 0 <= a < 256 && 0 <= b < 256
    ensures a + 0x100 * x == b + 0x100 * y ==> a == b && x == y
  {
  }

  /** No block, no change; the first block is processed first. */
  lemma FoldOrder(process: Block, r: Registers, block: seq<Byte>, bytes: seq<Byte>)
    requires |block| == 64
    ensures Fold(process, r, []) == r
    ensures Fold(process, r, block + bytes) == Fold(process, process(r, block), bytes)
  {
    assert (block + bytes)[..64] == block && (block + bytes)[64..] == bytes;
  }

  // -------------------------------------------------------------------------- lemmas

  /** One more block. */
  lemma {:induction false} FoldNext(process: Block, r: Registers, bytes: seq<Byte>, block: seq<Byte>)
    requires |bytes| % 64 == 0 && |block| == 64
    ensures Fold(process, r, bytes + block) == process(Fold(process, r, bytes), block)
    decreases |bytes|
  {
    var all := bytes + block;
    if bytes == [] {
      assert all[..64] == block && all[64..] == [];
    } else {
      assert all[..64] == bytes[..64] && all[64..] == bytes[64..] + block;
      FoldNext(process, process(r, bytes[..64]), bytes[64..], block);
    }
  }

  lemma FoldAt(process: Block, r: Registers, bytes: seq<Byte>, q: nat)
    requires q % 64 == 0 && q + 64 <= |bytes|
    ensures Fold(process, r, bytes[..q + 64]) == process(Fold(process, r, bytes[..q]), bytes[q..q + 64])
  {
    assert bytes[..q + 64] == bytes[..q] + bytes[q..q + 64];
    FoldNext(process, r, bytes[..q], bytes[q..q + 64]);
  }

  /** The bit count, kept in two words. */
  predicate Counts(low: Word, high: Word, n: nat) {
    low + WORD * high == 8 * n % COUNT
  }

  lemma CountOffset(low: Word, high: Word, n: nat)
    requires Counts(low, high, n)
    ensures low / 8 % 64 == n % 64
  {
    var m := 8 * n / COUNT;
    assert 8 * n == m * COUNT + low + WORD * high;
    var t := 0x80_0000 * high + 0x80_0000_0000_0000 * m;
    assert low == 8 * (n - 64 * t);
    assert low / 8 == n - 64 * t;
    SameOffset(low / 8, t);
  }

  lemma SameOffset(a: nat, t: nat)
    ensures (a + 64 * t) % 64 == a % 64
  {
  }

  /** The carry into the high word. */
  lemma CountAdd(low: Word, high: Word, n: nat, k: nat, low': Word, high': Word)
    requires Counts(low, high, n) && k < 0x1000_0000
    requires low' == (low + 8 * k) % WORD
    requires high' == if low' < 8 * k then (high + 1) % WORD else high
    ensures Counts(low', high', n + k)
  {
    assert low' == if low + 8 * k < WORD then low + 8 * k else low + 8 * k - WORD;
    var t := low + WORD * high + 8 * k;
    assert low' + WORD * high' == if t < COUNT then t else t - COUNT;
    Wrap(8 * n, 8 * k);
  }

  lemma Wrap(x: nat, y: nat)
    requires y < COUNT
    ensures (x + y) % COUNT == var t := x % COUNT + y; if t < COUNT then t else t - COUNT
  {
  }

  // ----------------------------------------------------------------------- the class

  class Md5State {
    const process: Block
    var count0: Word
    var count1: Word
    var abcd: Registers
    const buf: array<Byte>
    ghost var message: seq<Byte>

    /** The registers have taken in the message's whole blocks; the rest is in the buffer. */
    ghost predicate Valid()
      reads this, buf
    {
      && buf.Length == 64
      && Counts(count0, count1, |message|)
      && Absorbed(abcd, message, |message| - |message| % 64)
      && buf[..|message| % 64] == message[|message| - |message| % 64..]
    }

    ghost predicate Absorbed(r: Registers, bytes: seq<Byte>, q: int) {
      0 <= q <= |bytes| && q % 64 == 0 && r == Fold(process, INITIAL, bytes[..q])
    }

    constructor (process: Block)
      ensures Valid() && message == [] && this.process == process && fresh(buf)
    {
      this.process := process;
      count0, count1 := 0, 0;
      abcd := INITIAL;
      buf := new Byte[64];
      message := [];
      new;
      assert Absorbed(abcd, message, 0);
    }

    method CopyToBuf(at: nat, src: seq<Byte>)
      requires buf.Length == 64 && at + |src| <= 64
      modifies buf
      ensures buf[..at + |src|] == old(buf[..at]) + src
    {
      for k := 0 to |src|
        invariant buf[..at + k] == old(buf[..at]) + src[..k]
      {
        buf[at + k] := src[k];
        assert buf[..at + k + 1] == buf[..at + k] + [src[k]];
      }
    }

    /** Appends the first nbytes bytes of the data. */
    method Append(data: seq<Byte>, nbytes: int)
      requires Valid()
      requires nbytes <= |data| && nbytes < 0x1000_0000
      modifies this, buf
      ensures Valid()
      ensures message == old(message) + if nbytes <= 0 then [] else data[..nbytes]
    {
      var offset := count0 / 8 % 64;
      if nbytes <= 0 { return; }
      CountOffset(count0, count1, |message|);
      UpdateCount(nbytes);
      TakeIn(data[..nbytes], offset);
    }

    /** Updates the message length. */
    method UpdateCount(nbytes: nat)
      requires Counts(count0, count1, |message|) && 0 < nbytes < 0x1000_0000
      modifies this`count0, this`count1
      ensures Counts(count0, count1, |message| + nbytes)
    {
      var nbits: Word := 8 * nbytes;
      ghost var low, high := count0, count1;
      count1 := (count1 + nbytes / 0x2000_0000) % WORD;
      count0 := (count0 + nbits) % WORD;
      if count0 < nbits { count1 := (count1 + 1) % WORD; }
      CountAdd(low, high, |message|, nbytes, count0, count1);
    }

    method TakeIn(data: seq<Byte>, offset: nat)
      requires buf.Length == 64 && data != []
      requires Counts(count0, count1, |message| + |data|)
      requires offset == |message| % 64
      requires Absorbed(abcd, message, |message| - offset) && buf[..offset] == message[|message| - offset..]
      modifies this`abcd, this`message, buf
      ensures Valid() && message == old(message) + data
    {
      hide Counts, Fold, Absorbed;
      var p := 0;
      ghost var was := message;
      AbsorbedMore(abcd, message, data, |message| - offset);
      message := message + data;
      if offset > 0 {
        var copy := if offset + |data| > 64 then 64 - offset else |data|;
        CopyToBuf(offset, data[..copy]);
        Joined(was, offset, data, copy);
        if offset + copy < 64 {
          StillPartial(|was|, offset, copy);
          assert message[|was| - offset..] == message[|was| - offset..|was| + copy];
          return;
        }
        p := copy;
        FullBlock(was, offset);
      }
      assert message[|was|..] == data;
      Blocks(data, p, |was|);
    }

    /** The buffer has become a whole block. */
    method FullBlock(ghost was: seq<Byte>, offset: nat)
      requires buf.Length == 64 && offset <= |was| && offset <= 64 && |was| + 64 - offset <= |message|
      requires Absorbed(abcd, message, |was| - offset)
      requires buf[..64] == message[|was| - offset..|was| + 64 - offset]
      modifies this`abcd
      ensures Absorbed(abcd, message, |was| + 64 - offset)
    {
      hide Fold, Absorbed;
      AbsorbNext(abcd, message, |was| - offset);
      assert buf[..] == buf[..64];
      abcd := process(abcd, buf[..]);
    }

    lemma AbsorbedMore(r: Registers, a: seq<Byte>, b: seq<Byte>, q: int)
      requires Absorbed(r, a, q)
      ensures Absorbed(r, a + b, q)
    {
      hide Fold;
      assert (a + b)[..q] == a[..q];
    }

    lemma StillPartial(n: nat, offset: nat, k: nat)
      requires offset == n % 64 && offset + k < 64
      ensures (n + k) % 64 == offset + k
    {
    }

    /** Processes the full blocks and keeps the rest. */
    method Blocks(data: seq<Byte>, start: nat, ghost n: nat)
      requires buf.Length == 64 && start <= |data| && n + |data| == |message| && message[n..] == data
      requires Absorbed(abcd, message, n + start)
      requires Counts(count0, count1, |message|)
      modifies this`abcd, buf
      ensures Valid()
    {
      hide Counts, Fold, Absorbed;
      var p := start;
      while |data| - p >= 64
        invariant start <= p <= |data|
        invariant Absorbed(abcd, message, n + p)
        decreases |data| - p
      {
        AbsorbNext(abcd, message, n + p);
        SameSlice(message, n, data, p, p + 64);
        abcd := process(abcd, data[p..p + 64]);
        p := p + 64;
      }
      if p < |data| {
        CopyToBuf(0, data[p..]);
      }
      SameSlice(message, n, data, p, |data|);
      AbsorbedRest(abcd, message, n + p);
    }

    lemma SameSlice(all: seq<Byte>, n: nat, data: seq<Byte>, p: nat, q: nat)
      requires n <= |all| && all[n..] == data && p <= q <= |data|
      ensures all[n + p..n + q] == data[p..q]
    {
      assert forall k :: p <= k < q ==> all[n..][k] == all[n + k];
    }

    lemma AbsorbNext(r: Registers, bytes: seq<Byte>, q: nat)
      requires Absorbed(r, bytes, q) && q + 64 <= |bytes|
      ensures Absorbed(process(r, bytes[q..q + 64]), bytes, q + 64)
    {
      hide Fold;
      FoldAt(process, INITIAL, bytes, q);
    }

    lemma AbsorbedRest(r: Registers, bytes: seq<Byte>, q: nat)
      requires Absorbed(r, bytes, q) && |bytes| - q < 64
      ensures |bytes| % 64 == |bytes| - q
    {
    }

    lemma Joined(a: seq<Byte>, offset: nat, data: seq<Byte>, copy: nat)
      requires offset <= |a| && copy <= |data|
      ensures (a + data)[|a| - offset..|a| + copy] == a[|a| - offset..] + data[..copy]
    {
    }

    /** The digest is that of everything appended, however it was cut up. */
    method Finish() returns (digest: seq<Byte>)
      requires Valid()
      modifies this, buf
      ensures Valid()
      ensures digest == Digest(process, old(message))
    {
      hide Counts, Fold, Output, Absorbed, Padding;
      PadOut();
      AbsorbedAll(abcd, message);
      digest := SaveDigest();
    }

    /** Pads to 56 bytes modulo 64 and appends the length. */
    method PadOut()
      requires Valid()
      modifies this, buf
      ensures Valid() && message == old(message) + Padding(|old(message)|) && |message| % 64 == 0
    {
      hide Counts, Fold, LengthBytes, ZerosNeeded, Absorbed, Padding;
      ghost var n := |message|;
      var data := SaveLength();
      var k := PadLength();
      hide Valid;
      var pad: seq<Byte> := [0x80] + Zeros(63);
      PaddingIs(pad, k, data, n);
      Append(pad, k + 1);
      Append(data, 8);
      Joins(old(message), pad[..k + 1], data[..8]);
    }

    /** How many zeros go between the one bit and the length. */
    method PadLength() returns (k: nat)
      requires Counts(count0, count1, |message|)
      ensures k < 64 && k == ZerosNeeded(|message|)
    {
      hide Counts, ZerosNeeded;
      CountOffset(count0, count1, |message|);
      PadCount(count0, |message|);
      k := (55 - count0 / 8) % 64;
    }

    lemma Joins(a: seq<Byte>, b: seq<Byte>, c: seq<Byte>)
      ensures a + b + c == a + (b + c)
    {
    }

    lemma AbsorbedAll(r: Registers, bytes: seq<Byte>)
      requires |bytes| % 64 == 0 && Absorbed(r, bytes, |bytes| - |bytes| % 64)
      ensures r == Fold(process, INITIAL, bytes)
    {
      assert bytes[..|bytes|] == bytes;
    }

    lemma PaddingIs(pad: seq<Byte>, k: nat, data: seq<Byte>, n: nat)
      requires pad == [0x80] + Zeros(63) && k < 64 && k == ZerosNeeded(n) && |data| == 8 && data == LengthBytes(n)
      ensures pad[..k + 1] + data[..8] == Padding(n)
    {
      hide LengthBytes, ZerosNeeded;
      assert pad[..k + 1] == [0x80] + Zeros(k);
    }

    method SaveLength() returns (data: seq<Byte>)
      requires Counts(count0, count1, |message|)
      ensures data == LengthBytes(|message|)
    {
      hide ByteOf;
      data := [];
      for i := 0 to 8
        invariant data == (WordBytes(count0) + WordBytes(count1))[..i]
      {
        data := data + [ByteOf(if i < 4 then count0 else count1, i % 4)];
      }
    }

    method SaveDigest() returns (digest: seq<Byte>)
      ensures digest == Output(abcd)
    {
      hide ByteOf;
      digest := [];
      for i := 0 to 16
        invariant digest == Output(abcd)[..i]
      {
        var word := if i < 4 then abcd.a else if i < 8 then abcd.b else if i < 12 then abcd.c else abcd.d;
        digest := digest + [ByteOf(word, i % 4)];
      }
    }
  }

  lemma PadCount(low: nat, n: nat)
    requires low / 8 % 64 == n % 64
    ensures (55 - low / 8) % 64 == (55 - n) % 64 == ZerosNeeded(n)
  {
  }

  // ------------------------------------------------------------------------ whole runs

  function Concat(pieces: seq<seq<Byte>>): seq<Byte> {
    if pieces == [] then [] else Concat(pieces[..|pieces| - 1]) + pieces[|pieces| - 1]
  }

  lemma ConcatNone()
    ensures Concat([]) == []
  {
  }

  lemma ConcatNext(pieces: seq<seq<Byte>>, i: nat)
    requires i < |pieces|
    ensures Concat(pieces[..i + 1]) == Concat(pieces[..i]) + pieces[i]
  {
    assert pieces[..i + 1][..i] == pieces[..i];
  }

  /** However a message is cut into pieces, its digest is the same. */
  method DigestOfPieces(process: Block, pieces: seq<seq<Byte>>) returns (digest: seq<Byte>)
    requires forall k :: 0 <= k < |pieces| ==> |pieces[k]| < 0x1000_0000
    ensures digest == Digest(process, Concat(pieces))
  {
    hide Digest, Md5State.Valid, Concat;
    var state := new Md5State(process);
    assert Concat(pieces[..0]) == [] by { ConcatNone(); }
    for i := 0 to |pieces|
      invariant state.Valid() && state.process == process && fresh(state) && fresh(state.buf)
      invariant state.message == Concat(pieces[..i])
    {
      ConcatNext(pieces, i);
      assert pieces[i][..|pieces[i]|] == pieces[i];
      state.Append(pieces[i], |pieces[i]|);
    }
    assert pieces[..|pieces|] == pieces;
    digest := state.Finish();
  }
}
