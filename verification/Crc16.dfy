/** CRC-CCITT of bytes that are not reflected, started with ones (Crc16CcittFast). */
module Crc16 {
  import opened Gf2Division
  import opened MachineWords
  import opened CheckValue

  /** The generator x^16 + x^12 + x^5 + 1 without its leading term, at the top of a word. */
  const P: bv32 := 0x1021_0000

  function G(): (g: Bits)
    ensures |g| == 16
  {
    FirstBits(P, 16)
  }

  lemma GeneratorBits()
    ensures forall k :: 0 <= k < 16 ==> (Bit(P, k) <==> k == 3 || k == 10 || k == 15)
  {
    var c: bv32, d: bv32 := 0x1021_0000, 0x2100_0000;
    assert !Bit(c, 0) && !Bit(c, 1) && !Bit(c, 2) && Bit(c, 3) && !Bit(c, 4) && !Bit(c, 5) && !Bit(c, 6) && !Bit(c, 7);
    assert !Bit(d, 0) && !Bit(d, 1) && Bit(d, 2) && !Bit(d, 3) && !Bit(d, 4) && !Bit(d, 5) && !Bit(d, 6) && Bit(d, 7);
    assert Shl8(c) == d;
    hide Bit, Shl8;
    forall k | 0 <= k < 8 ensures Bit(P, k + 8) == Bit(d, k) {
      BitNext(P, k);
    }
  }

  /** It has a constant term and an even number of terms. */
  lemma GeneratorFits()
    ensures Generator(G()) && Odd(G())
  {
    hide Bit, Odd;
    var g := G();
    GeneratorBits();
    forall k | 0 <= k < 16 ensures Odd(g[k..]) == (g[k] != Odd(g[k + 1..])) {
      OddFrom(g, k);
    }
    OddNone(g);
    hide G;
    assert !Odd(g[16..]) && Odd(g[15..]) && Odd(g[14..]) && Odd(g[13..]) && Odd(g[12..]) && Odd(g[11..]);
    assert !Odd(g[10..]) && !Odd(g[9..]) && !Odd(g[8..]) && !Odd(g[7..]) && !Odd(g[6..]) && !Odd(g[5..]);
    assert !Odd(g[4..]) && Odd(g[3..]) && Odd(g[2..]) && Odd(g[1..]) && Odd(g[0..]) && g[0..] == g;
  }

  lemma OddFrom(g: Bits, k: nat)
    requires k < |g|
    ensures Odd(g[k..]) == (g[k] != Odd(g[k + 1..]))
  {
    assert g[k..][1..] == g[k + 1..];
  }

  lemma OddNone(g: Bits)
    ensures !Odd(g[|g|..])
  {
  }

  /** The check value, at the top of a word. */
  function Word(c: bv16): bv32 { (c as bv32) << 16 }

  lemma WordIs(c: bv16, d: bv16)
    ensures Shl8(Shl8(Word(c))) == 0
    ensures Hi(Word(c)) == ((c >> 8) & 0xff) as bv8 && Hi(Shl8(Word(c))) == (c & 0xff) as bv8
    ensures Word(c) == 0 <==> c == 0
    ensures Word(Moved(d, c)) == Add(Word(d), Shl8(Word(c)))
  {
  }

  lemma Fits(c: bv32)
    requires Shl8(Shl8(c)) == 0
    ensures Within(c, 16)
  {
    hide Bit, Shl8;
    forall k: nat | k >= 16 ensures !Bit(c, k) {
      BitNext(c, k - 8);
      BitNext(Shl8(c), k - 16);
      BitZero(k - 16);
    }
  }

  lemma PFits()
    ensures Within(P, 16)
  {
    assert Shl8(Shl8(P)) == 0;
    hide *;
    Fits(P);
  }

  /** Of two messages that differ only within 16 consecutive bits, or only within 2 consecutive
      bytes, no two have the same check value. */
  lemma BurstsShow(m: seq<bv8>, n: seq<bv8>, from: nat)
    requires |m| == |n|
    ensures (forall k :: 0 <= k < 8 * |m| && !(from <= k < from + 16) ==> BitsOf(m)[k] == BitsOf(n)[k]) ==>
        (Check(m, G()) == Check(n, G()) <==> m == n)
    ensures (forall k :: 0 <= k < |m| && !(from <= k < from + 2) ==> m[k] == n[k]) ==>
        (Check(m, G()) == Check(n, G()) <==> m == n)
  {
    hide BitsOf, Check, FirstBits, G;
    GeneratorFits();
    if forall k :: 0 <= k < 8 * |m| && !(from <= k < from + 16) ==> BitsOf(m)[k] == BitsOf(n)[k] {
      BurstShows(m, n, from, G());
    }
    if forall k :: 0 <= k < |m| && !(from <= k < from + 2) ==> m[k] == n[k] {
      WrongBytesShow(m, n, from, G());
    }
  }

  /** Every odd number of wrong bits shows. */
  lemma OddErrors(m: seq<bv8>, n: seq<bv8>)
    ensures Odd(BitsOf(m)) != Odd(BitsOf(n)) ==> Check(m, G()) != Check(n, G())
  {
    hide BitsOf, Check, FirstBits, G, Odd;
    GeneratorFits();
    OddErrorsShow(m, n, G());
  }

  /** A message that arrives with its 2 bytes of check value, damaged in 16 consecutive bits at most, is
      accepted exactly when it is not damaged. */
  lemma DamagedFrames(m: seq<bv8>, trailer: seq<bv8>, received: seq<bv8>, from: nat)
    requires |trailer| == 2 && BitsOf(trailer) == Check(m, G()) && |received| == |m| + 2
    requires forall k :: 0 <= k < 8 * |received| && !(from <= k < from + 16) ==>
      BitsOf(received)[k] == BitsOf(m + trailer)[k]
    ensures Check(received, G()) == Zeros(16) <==> received == m + trailer
  {
    hide BitsOf, Check, FirstBits, G;
    GeneratorFits();
    DamagedFrameShows(m, trailer, received, from, G());
  }

  // ------------------------------------------------------------------------- the table

  function Row0(i: bv8): (e: bv16)
    ensures i >> 4 == 0x0 ==> Word(e) == ByteStep(Up(i), P)
  {
    match i
    case 0x00 => 0x0000 case 0x01 => 0x1021 case 0x02 => 0x2042 case 0x03 => 0x3063
    case 0x04 => 0x4084 case 0x05 => 0x50a5 case 0x06 => 0x60c6 case 0x07 => 0x70e7
    case 0x08 => 0x8108 case 0x09 => 0x9129 case 0x0a => 0xa14a case 0x0b => 0xb16b
    case 0x0c => 0xc18c case 0x0d => 0xd1ad case 0x0e => 0xe1ce case _ => 0xf1ef
  }

  function Row1(i: bv8): (e: bv16)
    ensures i >> 4 == 0x1 ==> Word(e) == ByteStep(Up(i), P)
  {
    match i
    case 0x10 => 0x1231 case 0x11 => 0x0210 case 0x12 => 0x3273 case 0x13 => 0x2252
    case 0x14 => 0x52b5 case 0x15 => 0x4294 case 0x16 => 0x72f7 case 0x17 => 0x62d6
    case 0x18 => 0x9339 case 0x19 => 0x8318 case 0x1a => 0xb37b case 0x1b => 0xa35a
    case 0x1c => 0xd3bd case 0x1d => 0xc39c case 0x1e => 0xf3ff case _ => 0xe3de
  }

  function Row2(i: bv8): (e: bv16)
    ensures i >> 4 == 0x2 ==> Word(e) == ByteStep(Up(i), P)
  {
    match i
    case 0x20 => 0x2462 case 0x21 => 0x3443 case 0x22 => 0x0420 case 0x23 => 0x1401
    case 0x24 => 0x64e6 case 0x25 => 0x74c7 case 0x26 => 0x44a4 case 0x27 => 0x5485
    case 0x28 => 0xa56a case 0x29 => 0xb54b case 0x2a => 0x8528 case 0x2b => 0x9509
    case 0x2c => 0xe5ee case 0x2d => 0xf5cf case 0x2e => 0xc5ac case _ => 0xd58d
  }

  function Row3(i: bv8): (e: bv16)
    ensures i >> 4 == 0x3 ==> Word(e) == ByteStep(Up(i), P)
  {
    match i
    case 0x30 => 0x3653 case 0x31 => 0x2672 case 0x32 => 0x1611 case 0x33 => 0x0630
    case 0x34 => 0x76d7 case 0x35 => 0x66f6 case 0x36 => 0x5695 case 0x37 => 0x46b4
    case 0x38 => 0xb75b case 0x39 => 0xa77a case 0x3a => 0x9719 case 0x3b => 0x8738
    case 0x3c => 0xf7df case 0x3d => 0xe7fe case 0x3e => 0xd79d case _ => 0xc7bc
  }

  function Row4(i: bv8): (e: bv16)
    ensures i >> 4 == 0x4 ==> Word(e) == ByteStep(Up(i), P)
  {
    match i
    case 0x40 => 0x48c4 case 0x41 => 0x58e5 case 0x42 => 0x6886 case 0x43 => 0x78a7
    case 0x44 => 0x0840 case 0x45 => 0x1861 case 0x46 => 0x2802 case 0x47 => 0x3823
    case 0x48 => 0xc9cc case 0x49 => 0xd9ed case 0x4a => 0xe98e case 0x4b => 0xf9af
    case 0x4c => 0x8948 case 0x4d => 0x9969 case 0x4e => 0xa90a case _ => 0xb92b
  }

  function Row5(i: bv8): (e: bv16)
    ensures i >> 4 == 0x5 ==> Word(e) == ByteStep(Up(i), P)
  {
    match i
    case 0x50 => 0x5af5 case 0x51 => 0x4ad4 case 0x52 => 0x7ab7 case 0x53 => 0x6a96
    case 0x54 => 0x1a71 case 0x55 => 0x0a50 case 0x56 => 0x3a33 case 0x57 => 0x2a12
    case 0x58 => 0xdbfd case 0x59 => 0xcbdc case 0x5a => 0xfbbf case 0x5b => 0xeb9e
    case 0x5c => 0x9b79 case 0x5d => 0x8b58 case 0x5e => 0xbb3b case _ => 0xab1a
  }

  function Row6(i: bv8): (e: bv16)
    ensures i >> 4 == 0x6 ==> Word(e) == ByteStep(Up(i), P)
  {
    match i
    case 0x60 => 0x6ca6 case 0x61 => 0x7c87 case 0x62 => 0x4ce4 case 0x63 => 0x5cc5
    case 0x64 => 0x2c22 case 0x65 => 0x3c03 case 0x66 => 0x0c60 case 0x67 => 0x1c41
    case 0x68 => 0xedae case 0x69 => 0xfd8f case 0x6a => 0xcdec case 0x6b => 0xddcd
    case 0x6c => 0xad2a case 0x6d => 0xbd0b case 0x6e => 0x8d68 case _ => 0x9d49
  }

  function Row7(i: bv8): (e: bv16)
    ensures i >> 4 == 0x7 ==> Word(e) == ByteStep(Up(i), P)
  {
    match i
    case 0x70 => 0x7e97 case 0x71 => 0x6eb6 case 0x72 => 0x5ed5 case 0x73 => 0x4ef4
    case 0x74 => 0x3e13 case 0x75 => 0x2e32 case 0x76 => 0x1e51 case 0x77 => 0x0e70
    case 0x78 => 0xff9f case 0x79 => 0xefbe case 0x7a => 0xdfdd case 0x7b => 0xcffc
    case 0x7c => 0xbf1b case 0x7d => 0xaf3a case 0x7e => 0x9f59 case _ => 0x8f78
  }

  function Row8(i: bv8): (e: bv16)
    ensures i >> 4 == 0x8 ==> Word(e) == ByteStep(Up(i), P)
  {
    match i
    case 0x80 => 0x9188 case 0x81 => 0x81a9 case 0x82 => 0xb1ca case 0x83 => 0xa1eb
    case 0x84 => 0xd10c case 0x85 => 0xc12d case 0x86 => 0xf14e case 0x87 => 0xe16f
    case 0x88 => 0x1080 case 0x89 => 0x00a1 case 0x8a => 0x30c2 case 0x8b => 0x20e3
    case 0x8c => 0x5004 case 0x8d => 0x4025 case 0x8e => 0x7046 case _ => 0x6067
  }

  function Row9(i: bv8): (e: bv16)
    ensures i >> 4 == 0x9 ==> Word(e) == ByteStep(Up(i), P)
  {
    match i
    case 0x90 => 0x83b9 case 0x91 => 0x9398 case 0x92 => 0xa3fb case 0x93 => 0xb3da
    case 0x94 => 0xc33d case 0x95 => 0xd31c case 0x96 => 0xe37f case 0x97 => 0xf35e
    case 0x98 => 0x02b1 case 0x99 => 0x1290 case 0x9a => 0x22f3 case 0x9b => 0x32d2
    case 0x9c => 0x4235 case 0x9d => 0x5214 case 0x9e => 0x6277 case _ => 0x7256
  }

  function RowA(i: bv8): (e: bv16)
    ensures i >> 4 == 0xa ==> Word(e) == ByteStep(Up(i), P)
  {
    match i
    case 0xa0 => 0xb5ea case 0xa1 => 0xa5cb case 0xa2 => 0x95a8 case 0xa3 => 0x8589
    case 0xa4 => 0xf56e case 0xa5 => 0xe54f case 0xa6 => 0xd52c case 0xa7 => 0xc50d
    case 0xa8 => 0x34e2 case 0xa9 => 0x24c3 case 0xaa => 0x14a0 case 0xab => 0x0481
    case 0xac => 0x7466 case 0xad => 0x6447 case 0xae => 0x5424 case _ => 0x4405
  }

  function RowB(i: bv8): (e: bv16)
    ensures i >> 4 == 0xb ==> Word(e) == ByteStep(Up(i), P)
  {
    match i
    case 0xb0 => 0xa7db case 0xb1 => 0xb7fa case 0xb2 => 0x8799 case 0xb3 => 0x97b8
    case 0xb4 => 0xe75f case 0xb5 => 0xf77e case 0xb6 => 0xc71d case 0xb7 => 0xd73c
    case 0xb8 => 0x26d3 case 0xb9 => 0x36f2 case 0xba => 0x0691 case 0xbb => 0x16b0
    case 0xbc => 0x6657 case 0xbd => 0x7676 case 0xbe => 0x4615 case _ => 0x5634
  }

  function RowC(i: bv8): (e: bv16)
    ensures i >> 4 == 0xc ==> Word(e) == ByteStep(Up(i), P)
  {
    match i
    case 0xc0 => 0xd94c case 0xc1 => 0xc96d case 0xc2 => 0xf90e case 0xc3 => 0xe92f
    case 0xc4 => 0x99c8 case 0xc5 => 0x89e9 case 0xc6 => 0xb98a case 0xc7 => 0xa9ab
    case 0xc8 => 0x5844 case 0xc9 => 0x4865 case 0xca => 0x7806 case 0xcb => 0x6827
    case 0xcc => 0x18c0 case 0xcd => 0x08e1 case 0xce => 0x3882 case _ => 0x28a3
  }

  function RowD(i: bv8): (e: bv16)
    ensures i >> 4 == 0xd ==> Word(e) == ByteStep(Up(i), P)
  {
    match i
    case 0xd0 => 0xcb7d case 0xd1 => 0xdb5c case 0xd2 => 0xeb3f case 0xd3 => 0xfb1e
    case 0xd4 => 0x8bf9 case 0xd5 => 0x9bd8 case 0xd6 => 0xabbb case 0xd7 => 0xbb9a
    case 0xd8 => 0x4a75 case 0xd9 => 0x5a54 case 0xda => 0x6a37 case 0xdb => 0x7a16
    case 0xdc => 0x0af1 case 0xdd => 0x1ad0 case 0xde => 0x2ab3 case _ => 0x3a92
  }

  function RowE(i: bv8): (e: bv16)
    ensures i >> 4 == 0xe ==> Word(e) == ByteStep(Up(i), P)
  {
    match i
    case 0xe0 => 0xfd2e case 0xe1 => 0xed0f case 0xe2 => 0xdd6c case 0xe3 => 0xcd4d
    case 0xe4 => 0xbdaa case 0xe5 => 0xad8b case 0xe6 => 0x9de8 case 0xe7 => 0x8dc9
    case 0xe8 => 0x7c26 case 0xe9 => 0x6c07 case 0xea => 0x5c64 case 0xeb => 0x4c45
    case 0xec => 0x3ca2 case 0xed => 0x2c83 case 0xee => 0x1ce0 case _ => 0x0cc1
  }

  function RowF(i: bv8): (e: bv16)
    ensures i >> 4 == 0xf ==> Word(e) == ByteStep(Up(i), P)
  {
    match i
    case 0xf0 => 0xef1f case 0xf1 => 0xff3e case 0xf2 => 0xcf5d case 0xf3 => 0xdf7c
    case 0xf4 => 0xaf9b case 0xf5 => 0xbfba case 0xf6 => 0x8fd9 case 0xf7 => 0x9ff8
    case 0xf8 => 0x6e17 case 0xf9 => 0x7e36 case 0xfa => 0x4e55 case 0xfb => 0x5e74
    case 0xfc => 0x2e93 case 0xfd => 0x3eb2 case 0xfe => 0x0ed1 case _ => 0x1ef0
  }

  /** The lookup table holds what eight steps of the division make of a byte. */
  function Table(i: bv8): (e: bv16)
    ensures Word(e) == ByteStep(Up(i), P)
  {
    hide ByteStep, Word;
    match i >> 4
    case 0x0 => Row0(i)
    case 0x1 => Row1(i)
    case 0x2 => Row2(i)
    case 0x3 => Row3(i)
    case 0x4 => Row4(i)
    case 0x5 => Row5(i)
    case 0x6 => Row6(i)
    case 0x7 => Row7(i)
    case 0x8 => Row8(i)
    case 0x9 => Row9(i)
    case 0xa => RowA(i)
    case 0xb => RowB(i)
    case 0xc => RowC(i)
    case 0xd => RowD(i)
    case 0xe => RowE(i)
    case _ => RowF(i)
  }

  lemma TableIndex(c: bv16, b: bv8)
    ensures Index(c, b) == Hi(Word(c)) ^ b
  {
  }

  // ------------------------------------------------------------------------- the class

  /** The word holds the check value of these bytes. */
  ghost predicate Holds(c: bv16, seen: seq<bv8>) {
    FirstBits(Word(c), 16) == Check(seen, G())
  }

  /** One turn of the loop. */
  function Turn(c: bv16, b: bv8): bv16 {
    Moved(Table(Index(c, b)), c)
  }

  function Index(c: bv16, b: bv8): bv8 { (((c >> 8) ^ (b as bv16)) & 0xff) as bv8 }

  function Moved(e: bv16, c: bv16): bv16 { e ^ (c << 8) }

  lemma TurnByTable(c: bv16, b: bv8)
    ensures Word(Turn(c, b)) == Add(Word(Table(Hi(Word(c)) ^ b)), Shl8(Word(c)))
  {
    hide Table, Add, Shl8, Hi, Index, Moved, Word;
    TableIndex(c, b);
    WordIs(c, Table(Hi(Word(c)) ^ b));
  }

  /** A turn of the loop keeps the check value. */
  lemma HoldsNext(c: bv16, seen: seq<bv8>, b: bv8)
    requires Holds(c, seen)
    ensures Holds(Turn(c, b), seen + [b])
  {
    hide FirstBits, ByteStep, Check, Table, Within, Shl8, Up, Add, Hi, Turn, Word;
    TurnByTable(c, b);
    WordIs(c, 0);
    Fits(Word(c));
    PFits();
    CheckNext(Word(c), seen, b, P, 16);
  }

  lemma AllOnes()
    ensures FirstBits(Word(!0), 16) == Ones(16)
  {
    hide Bit;
    var c: bv32 := 0xffff_0000;
    forall k | 0 <= k < 16 ensures Bit(c, k) {
      if k < 8 { OnesBelow(c, k); } else { BitNext(c, k - 8); OnesBelow(Shl8(c), k - 8); }
    }
  }

  lemma HoldsInitially()
    ensures Holds(!0, [])
  {
    CheckEmpty(G());
    AllOnes();
    hide *;
  }

  lemma HoldsZero(c: bv16, seen: seq<bv8>)
    requires Holds(c, seen)
    ensures c == 0 <==> |seen| >= 2 && BitsOf(seen[|seen| - 2..]) == Check(seen[..|seen| - 2], G())
  {
    hide FirstBits, Check, Within, BitsOf, G, Word;
    WordIs(c, 0);
    Fits(Word(c));
    ZeroIff(Word(c), 16);
    GeneratorFits();
    ZeroIffCheckFollows(seen, G());
  }

  function BytesOf(c: bv16): (r: seq<bv8>)
    ensures |r| == 2
  {
    [((c >> 8) & 0xff) as bv8, (c & 0xff) as bv8]
  }

  /** The bytes of the word, most significant first, are its bits. */
  lemma BytesAre(c: bv16)
    ensures BitsOf(BytesOf(c)) == FirstBits(Word(c), 16)
  {
    hide FirstBits, BitsOf, Hi, Up, Shl8, Word;
    WordIs(c, 0);
    BitsSplit(Word(c), 16);
    BitsSplit(Shl8(Word(c)), 8);
    TwoBytes(Hi(Word(c)), Hi(Shl8(Word(c))));
  }

  lemma TwoBytes(a: bv8, b: bv8)
    ensures BitsOf([a, b]) == FirstBits(Up(a), 8) + FirstBits(Up(b), 8)
  {
    hide Up, Bit;
    assert [a, b][1..] == [b];
    assert BitsOf([b]) == Bits8(b) + [] == Bits8(b);
  }

  class Crc16CcittFast {
    var crc: bv16
    ghost var seen: seq<bv8>

    /** The word holds the check value of all bytes since the last reset. */
    ghost predicate Valid()
      reads this
    {
      Holds(crc, seen)
    }

    constructor ()
      ensures Valid() && seen == []
    {
      crc := !0;
      seen := [];
      new;
      hide Holds;
      HoldsInitially();
    }

    method Reset()
      modifies this
      ensures Valid() && seen == []
    {
      hide Holds;
      crc := !0;
      seen := [];
      HoldsInitially();
    }

    method Accumulate(bytes: seq<bv8>)
      requires Valid()
      modifies this
      ensures Valid() && seen == old(seen) + bytes
    {
      hide Holds, Turn;
      for i := 0 to |bytes|
        invariant Valid() && seen == old(seen) + bytes[..i]
      {
        HoldsNext(crc, seen, bytes[i]);
        crc := Turn(crc, bytes[i]);
        seen := seen + [bytes[i]];
      }
    }

    /** Returns the check value and writes it where a receiver expects it: behind the message. */
    method Finalize(dest: array?<bv8>) returns (value: bv16)
      requires Valid()
      requires dest != null ==> dest.Length >= 2
      modifies dest
      ensures value == crc && FirstBits(Word(value), 16) == Check(seen, G())
      ensures dest != null ==> BitsOf(dest[..2]) == Check(seen, G()) && dest[2..] == old(dest[2..])
    {
      hide BitsOf, FirstBits, Check, G, BytesOf, Word;
      if dest != null {
        dest[0] := BytesOf(crc)[0];
        dest[1] := BytesOf(crc)[1];
        BytesAre(crc);
        assert dest[..2] == BytesOf(crc);
      }
      return crc;
    }

    /** True exactly when the last 2 bytes are what Finalize wrote for the bytes before them. */
    method IsOkay() returns (ok: bool)
      requires Valid()
      ensures ok <==> |seen| >= 2 && BitsOf(seen[|seen| - 2..]) == Check(seen[..|seen| - 2], G())
    {
      hide Holds;
      HoldsZero(crc, seen);
      return crc == 0;
    }
  }
}
