/** The CRC-32 of IEEE 802.3, clause 3.2.9, but neither reflected nor complemented
    (Crc32EthernetFast). */
module Crc32 {
  import opened Gf2Division
  import opened MachineWords
  import opened CheckValue

  /** The generator x^32 + x^26 + x^23 + x^22 + x^16 + x^12 + x^11 + x^10 + x^8 + x^7 + x^5 + x^4 +
      x^2 + x + 1 without its leading term. */
  const P: bv32 := 0x04c1_1db7

  function G(): (g: Bits)
    ensures |g| == 32
  {
    FirstBits(P, 32)
  }

  /** All its terms: bit k stands for x^(31 - k). */
  lemma GeneratorBits()
    ensures forall k :: 0 <= k < 32 ==>
      (Bit(P, k) <==> 31 - k in {26, 23, 22, 16, 12, 11, 10, 8, 7, 5, 4, 2, 1, 0})
  {
    var a: bv32, b: bv32 := 0x04c1_1db7, 0xc11d_b700;
    var c: bv32, d: bv32 := 0x1db7_0000, 0xb700_0000;
    assert !Bit(a, 0) && !Bit(a, 1) && !Bit(a, 2) && !Bit(a, 3) && !Bit(a, 4) && Bit(a, 5) && !Bit(a, 6) && !Bit(a, 7);
    assert Bit(b, 0) && Bit(b, 1) && !Bit(b, 2) && !Bit(b, 3) && !Bit(b, 4) && !Bit(b, 5) && !Bit(b, 6) && Bit(b, 7);
    assert !Bit(c, 0) && !Bit(c, 1) && !Bit(c, 2) && Bit(c, 3) && Bit(c, 4) && Bit(c, 5) && !Bit(c, 6) && Bit(c, 7);
    assert Bit(d, 0) && !Bit(d, 1) && Bit(d, 2) && Bit(d, 3) && !Bit(d, 4) && Bit(d, 5) && Bit(d, 6) && Bit(d, 7);
    assert Shl8(a) == b && Shl8(b) == c && Shl8(c) == d;
    hide Bit, Shl8;
    forall k | 0 <= k < 8
      ensures Bit(a, k + 8) == Bit(b, k) && Bit(a, k + 16) == Bit(c, k) && Bit(a, k + 24) == Bit(d, k)
    {
      BitNext(a, k);
      BitNext(a, k + 8);
      BitNext(b, k);
      BitNext(a, k + 16);
      BitNext(b, k + 8);
      BitNext(c, k);
    }
  }

  /** It has a constant term. */
  lemma GeneratorFits()
    ensures Generator(G())
  {
    hide Bit;
    GeneratorBits();
  }

  /** Of two messages that differ only within 32 consecutive bits, or only within 4 consecutive
      bytes, no two have the same check value. */
  lemma BurstsShow(m: seq<bv8>, n: seq<bv8>, from: nat)
    requires |m| == |n|
    ensures (forall k :: 0 <= k < 8 * |m| && !(from <= k < from + 32) ==> BitsOf(m)[k] == BitsOf(n)[k]) ==>
        (Check(m, G()) == Check(n, G()) <==> m == n)
    ensures (forall k :: 0 <= k < |m| && !(from <= k < from + 4) ==> m[k] == n[k]) ==>
        (Check(m, G()) == Check(n, G()) <==> m == n)
  {
    hide BitsOf, Check, FirstBits, G;
    GeneratorFits();
    if forall k :: 0 <= k < 8 * |m| && !(from <= k < from + 32) ==> BitsOf(m)[k] == BitsOf(n)[k] {
      BurstShows(m, n, from, G());
    }
    if forall k :: 0 <= k < |m| && !(from <= k < from + 4) ==> m[k] == n[k] {
      WrongBytesShow(m, n, from, G());
    }
  }

  /** A message that arrives with its 4 bytes of check value, damaged in 32 consecutive bits at most, is
      accepted exactly when it is not damaged. */
  lemma DamagedFrames(m: seq<bv8>, trailer: seq<bv8>, received: seq<bv8>, from: nat)
    requires |trailer| == 4 && BitsOf(trailer) == Check(m, G()) && |received| == |m| + 4
    requires forall k :: 0 <= k < 8 * |received| && !(from <= k < from + 32) ==>
      BitsOf(received)[k] == BitsOf(m + trailer)[k]
    ensures Check(received, G()) == Zeros(32) <==> received == m + trailer
  {
    hide BitsOf, Check, FirstBits, G;
    GeneratorFits();
    DamagedFrameShows(m, trailer, received, from, G());
  }

  // ------------------------------------------------------------------------- the table

  function Row0(i: bv8): (e: bv32)
    ensures i >> 4 == 0x0 ==> e == ByteStep(Up(i), P)
  {
    match i
    case 0x00 => 0x00000000 case 0x01 => 0x04c11db7 case 0x02 => 0x09823b6e case 0x03 => 0x0d4326d9
    case 0x04 => 0x130476dc case 0x05 => 0x17c56b6b case 0x06 => 0x1a864db2 case 0x07 => 0x1e475005
    case 0x08 => 0x2608edb8 case 0x09 => 0x22c9f00f case 0x0a => 0x2f8ad6d6 case 0x0b => 0x2b4bcb61
    case 0x0c => 0x350c9b64 case 0x0d => 0x31cd86d3 case 0x0e => 0x3c8ea00a case _ => 0x384fbdbd
  }

  function Row1(i: bv8): (e: bv32)
    ensures i >> 4 == 0x1 ==> e == ByteStep(Up(i), P)
  {
    match i
    case 0x10 => 0x4c11db70 case 0x11 => 0x48d0c6c7 case 0x12 => 0x4593e01e case 0x13 => 0x4152fda9
    case 0x14 => 0x5f15adac case 0x15 => 0x5bd4b01b case 0x16 => 0x569796c2 case 0x17 => 0x52568b75
    case 0x18 => 0x6a1936c8 case 0x19 => 0x6ed82b7f case 0x1a => 0x639b0da6 case 0x1b => 0x675a1011
    case 0x1c => 0x791d4014 case 0x1d => 0x7ddc5da3 case 0x1e => 0x709f7b7a case _ => 0x745e66cd
  }

  function Row2(i: bv8): (e: bv32)
    ensures i >> 4 == 0x2 ==> e == ByteStep(Up(i), P)
  {
    match i
    case 0x20 => 0x9823b6e0 case 0x21 => 0x9ce2ab57 case 0x22 => 0x91a18d8e case 0x23 => 0x95609039
    case 0x24 => 0x8b27c03c case 0x25 => 0x8fe6dd8b case 0x26 => 0x82a5fb52 case 0x27 => 0x8664e6e5
    case 0x28 => 0xbe2b5b58 case 0x29 => 0xbaea46ef case 0x2a => 0xb7a96036 case 0x2b => 0xb3687d81
    case 0x2c => 0xad2f2d84 case 0x2d => 0xa9ee3033 case 0x2e => 0xa4ad16ea case _ => 0xa06c0b5d
  }

  function Row3(i: bv8): (e: bv32)
    ensures i >> 4 == 0x3 ==> e == ByteStep(Up(i), P)
  {
    match i
    case 0x30 => 0xd4326d90 case 0x31 => 0xd0f37027 case 0x32 => 0xddb056fe case 0x33 => 0xd9714b49
    case 0x34 => 0xc7361b4c case 0x35 => 0xc3f706fb case 0x36 => 0xceb42022 case 0x37 => 0xca753d95
    case 0x38 => 0xf23a8028 case 0x39 => 0xf6fb9d9f case 0x3a => 0xfbb8bb46 case 0x3b => 0xff79a6f1
    case 0x3c => 0xe13ef6f4 case 0x3d => 0xe5ffeb43 case 0x3e => 0xe8bccd9a case _ => 0xec7dd02d
  }

  function Row4(i: bv8): (e: bv32)
    ensures i >> 4 == 0x4 ==> e == ByteStep(Up(i), P)
  {
    match i
    case 0x40 => 0x34867077 case 0x41 => 0x30476dc0 case 0x42 => 0x3d044b19 case 0x43 => 0x39c556ae
    case 0x44 => 0x278206ab case 0x45 => 0x23431b1c case 0x46 => 0x2e003dc5 case 0x47 => 0x2ac12072
    case 0x48 => 0x128e9dcf case 0x49 => 0x164f8078 case 0x4a => 0x1b0ca6a1 case 0x4b => 0x1fcdbb16
    case 0x4c => 0x018aeb13 case 0x4d => 0x054bf6a4 case 0x4e => 0x0808d07d case _ => 0x0cc9cdca
  }

  function Row5(i: bv8): (e: bv32)
    ensures i >> 4 == 0x5 ==> e == ByteStep(Up(i), P)
  {
    match i
    case 0x50 => 0x7897ab07 case 0x51 => 0x7c56b6b0 case 0x52 => 0x71159069 case 0x53 => 0x75d48dde
    case 0x54 => 0x6b93dddb case 0x55 => 0x6f52c06c case 0x56 => 0x6211e6b5 case 0x57 => 0x66d0fb02
    case 0x58 => 0x5e9f46bf case 0x59 => 0x5a5e5b08 case 0x5a => 0x571d7dd1 case 0x5b => 0x53dc6066
    case 0x5c => 0x4d9b3063 case 0x5d => 0x495a2dd4 case 0x5e => 0x44190b0d case _ => 0x40d816ba
  }

  function Row6(i: bv8): (e: bv32)
    ensures i >> 4 == 0x6 ==> e == ByteStep(Up(i), P)
  {
    match i
    case 0x60 => 0xaca5c697 case 0x61 => 0xa864db20 case 0x62 => 0xa527fdf9 case 0x63 => 0xa1e6e04e
    case 0x64 => 0xbfa1b04b case 0x65 => 0xbb60adfc case 0x66 => 0xb6238b25 case 0x67 => 0xb2e29692
    case 0x68 => 0x8aad2b2f case 0x69 => 0x8e6c3698 case 0x6a => 0x832f1041 case 0x6b => 0x87ee0df6
    case 0x6c => 0x99a95df3 case 0x6d => 0x9d684044 case 0x6e => 0x902b669d case _ => 0x94ea7b2a
  }

  function Row7(i: bv8): (e: bv32)
    ensures i >> 4 == 0x7 ==> e == ByteStep(Up(i), P)
  {
    match i
    case 0x70 => 0xe0b41de7 case 0x71 => 0xe4750050 case 0x72 => 0xe9362689 case 0x73 => 0xedf73b3e
    case 0x74 => 0xf3b06b3b case 0x75 => 0xf771768c case 0x76 => 0xfa325055 case 0x77 => 0xfef34de2
    case 0x78 => 0xc6bcf05f case 0x79 => 0xc27dede8 case 0x7a => 0xcf3ecb31 case 0x7b => 0xcbffd686
    case 0x7c => 0xd5b88683 case 0x7d => 0xd1799b34 case 0x7e => 0xdc3abded case _ => 0xd8fba05a
  }

  function Row8(i: bv8): (e: bv32)
    ensures i >> 4 == 0x8 ==> e == ByteStep(Up(i), P)
  {
    match i
    case 0x80 => 0x690ce0ee case 0x81 => 0x6dcdfd59 case 0x82 => 0x608edb80 case 0x83 => 0x644fc637
    case 0x84 => 0x7a089632 case 0x85 => 0x7ec98b85 case 0x86 => 0x738aad5c case 0x87 => 0x774bb0eb
    case 0x88 => 0x4f040d56 case 0x89 => 0x4bc510e1 case 0x8a => 0x46863638 case 0x8b => 0x42472b8f
    case 0x8c => 0x5c007b8a case 0x8d => 0x58c1663d case 0x8e => 0x558240e4 case _ => 0x51435d53
  }

  function Row9(i: bv8): (e: bv32)
    ensures i >> 4 == 0x9 ==> e == ByteStep(Up(i), P)
  {
    match i
    case 0x90 => 0x251d3b9e case 0x91 => 0x21dc2629 case 0x92 => 0x2c9f00f0 case 0x93 => 0x285e1d47
    case 0x94 => 0x36194d42 case 0x95 => 0x32d850f5 case 0x96 => 0x3f9b762c case 0x97 => 0x3b5a6b9b
    case 0x98 => 0x0315d626 case 0x99 => 0x07d4cb91 case 0x9a => 0x0a97ed48 case 0x9b => 0x0e56f0ff
    case 0x9c => 0x1011a0fa case 0x9d => 0x14d0bd4d case 0x9e => 0x19939b94 case _ => 0x1d528623
  }

  function RowA(i: bv8): (e: bv32)
    ensures i >> 4 == 0xa ==> e == ByteStep(Up(i), P)
  {
    match i
    case 0xa0 => 0xf12f560e case 0xa1 => 0xf5ee4bb9 case 0xa2 => 0xf8ad6d60 case 0xa3 => 0xfc6c70d7
    case 0xa4 => 0xe22b20d2 case 0xa5 => 0xe6ea3d65 case 0xa6 => 0xeba91bbc case 0xa7 => 0xef68060b
    case 0xa8 => 0xd727bbb6 case 0xa9 => 0xd3e6a601 case 0xaa => 0xdea580d8 case 0xab => 0xda649d6f
    case 0xac => 0xc423cd6a case 0xad => 0xc0e2d0dd case 0xae => 0xcda1f604 case _ => 0xc960ebb3
  }

  function RowB(i: bv8): (e: bv32)
    ensures i >> 4 == 0xb ==> e == ByteStep(Up(i), P)
  {
    match i
    case 0xb0 => 0xbd3e8d7e case 0xb1 => 0xb9ff90c9 case 0xb2 => 0xb4bcb610 case 0xb3 => 0xb07daba7
    case 0xb4 => 0xae3afba2 case 0xb5 => 0xaafbe615 case 0xb6 => 0xa7b8c0cc case 0xb7 => 0xa379dd7b
    case 0xb8 => 0x9b3660c6 case 0xb9 => 0x9ff77d71 case 0xba => 0x92b45ba8 case 0xbb => 0x9675461f
    case 0xbc => 0x8832161a case 0xbd => 0x8cf30bad case 0xbe => 0x81b02d74 case _ => 0x857130c3
  }

  function RowC(i: bv8): (e: bv32)
    ensures i >> 4 == 0xc ==> e == ByteStep(Up(i), P)
  {
    match i
    case 0xc0 => 0x5d8a9099 case 0xc1 => 0x594b8d2e case 0xc2 => 0x5408abf7 case 0xc3 => 0x50c9b640
    case 0xc4 => 0x4e8ee645 case 0xc5 => 0x4a4ffbf2 case 0xc6 => 0x470cdd2b case 0xc7 => 0x43cdc09c
    case 0xc8 => 0x7b827d21 case 0xc9 => 0x7f436096 case 0xca => 0x7200464f case 0xcb => 0x76c15bf8
    case 0xcc => 0x68860bfd case 0xcd => 0x6c47164a case 0xce => 0x61043093 case _ => 0x65c52d24
  }

  function RowD(i: bv8): (e: bv32)
    ensures i >> 4 == 0xd ==> e == ByteStep(Up(i), P)
  {
    match i
    case 0xd0 => 0x119b4be9 case 0xd1 => 0x155a565e case 0xd2 => 0x18197087 case 0xd3 => 0x1cd86d30
    case 0xd4 => 0x029f3d35 case 0xd5 => 0x065e2082 case 0xd6 => 0x0b1d065b case 0xd7 => 0x0fdc1bec
    case 0xd8 => 0x3793a651 case 0xd9 => 0x3352bbe6 case 0xda => 0x3e119d3f case 0xdb => 0x3ad08088
    case 0xdc => 0x2497d08d case 0xdd => 0x2056cd3a case 0xde => 0x2d15ebe3 case _ => 0x29d4f654
  }

  function RowE(i: bv8): (e: bv32)
    ensures i >> 4 == 0xe ==> e == ByteStep(Up(i), P)
  {
    match i
    case 0xe0 => 0xc5a92679 case 0xe1 => 0xc1683bce case 0xe2 => 0xcc2b1d17 case 0xe3 => 0xc8ea00a0
    case 0xe4 => 0xd6ad50a5 case 0xe5 => 0xd26c4d12 case 0xe6 => 0xdf2f6bcb case 0xe7 => 0xdbee767c
    case 0xe8 => 0xe3a1cbc1 case 0xe9 => 0xe760d676 case 0xea => 0xea23f0af case 0xeb => 0xeee2ed18
    case 0xec => 0xf0a5bd1d case 0xed => 0xf464a0aa case 0xee => 0xf9278673 case _ => 0xfde69bc4
  }

  function RowF(i: bv8): (e: bv32)
    ensures i >> 4 == 0xf ==> e == ByteStep(Up(i), P)
  {
    match i
    case 0xf0 => 0x89b8fd09 case 0xf1 => 0x8d79e0be case 0xf2 => 0x803ac667 case 0xf3 => 0x84fbdbd0
    case 0xf4 => 0x9abc8bd5 case 0xf5 => 0x9e7d9662 case 0xf6 => 0x933eb0bb case 0xf7 => 0x97ffad0c
    case 0xf8 => 0xafb010b1 case 0xf9 => 0xab710d06 case 0xfa => 0xa6322bdf case 0xfb => 0xa2f33668
    case 0xfc => 0xbcb4666d case 0xfd => 0xb8757bda case 0xfe => 0xb5365d03 case _ => 0xb1f740b4
  }

  /** The lookup table holds what eight steps of the division make of a byte. */
  function Table(i: bv8): (e: bv32)
    ensures e == ByteStep(Up(i), P)
  {
    hide ByteStep;
    match i >> 4
    case 0x0 => Row0(i)
    case 0x1 => Row1(i)
    case 0x2 => Row2(i)
    case 0x3 => Row3(i)
    case 0x4 => Row4(i)
    case 0x5 => Row5(i)
    case 0x6 => Row6(i)
    case 0x7 => Row7(i)
    case 0x8 => Row8(i)
    case 0x9 => Row9(i)
    case 0xa => RowA(i)
    case 0xb => RowB(i)
    case 0xc => RowC(i)
    case 0xd => RowD(i)
    case 0xe => RowE(i)
    case _ => RowF(i)
  }

  lemma TableIndex(c: bv32, b: bv8)
    ensures Index(c, b) == Hi(c) ^ b
  {
  }

  // ------------------------------------------------------------------------- the class

  /** The word holds the check value of these bytes. */
  ghost predicate Holds(c: bv32, seen: seq<bv8>) {
    FirstBits(c, 32) == Check(seen, G())
  }

  /** One turn of the loop. */
  function Turn(c: bv32, b: bv8): bv32 {
    Moved(Table(Index(c, b)), c)
  }

  function Index(c: bv32, b: bv8): bv8 { b ^ ((c >> 24) as bv8) }

  function Moved(e: bv32, c: bv32): bv32 { Add(e, Shl8(c)) }

  lemma TurnByTable(c: bv32, b: bv8)
    ensures Turn(c, b) == Add(Table(Hi(c) ^ b), Shl8(c))
  {
    hide Table, Add, Shl8, Hi, Index;
    TableIndex(c, b);
  }

  /** A turn of the loop keeps the check value. */
  lemma HoldsNext(c: bv32, seen: seq<bv8>, b: bv8)
    requires Holds(c, seen)
    ensures Holds(Turn(c, b), seen + [b])
  {
    hide FirstBits, ByteStep, Check, Table, Within, Shl8, Up, Add, Hi, Turn;
    TurnByTable(c, b);
    WordWithin(c);
    WordWithin(P);
    CheckNext(c, seen, b, P, 32);
  }

  lemma AllOnes()
    ensures FirstBits(!0, 32) == Ones(32)
  {
    hide Bit;
    var c: bv32 := !0;
    forall k | 0 <= k < 32 ensures Bit(c, k) {
      if k < 8 {
        OnesBelow(c, k);
      } else if k < 16 {
        BitNext(c, k - 8);
        OnesBelow(Shl8(c), k - 8);
      } else if k < 24 {
        BitNext(c, k - 8);
        BitNext(Shl8(c), k - 16);
        OnesBelow(Shl8(Shl8(c)), k - 16);
      } else {
        BitNext(c, k - 8);
        BitNext(Shl8(c), k - 16);
        BitNext(Shl8(Shl8(c)), k - 24);
        OnesBelow(Shl8(Shl8(Shl8(c))), k - 24);
      }
    }
  }

  lemma HoldsInitially()
    ensures Holds(!0, [])
  {
    CheckEmpty(G());
    AllOnes();
    hide *;
  }

  lemma HoldsZero(c: bv32, seen: seq<bv8>)
    requires Holds(c, seen)
    ensures c == 0 <==> |seen| >= 4 && BitsOf(seen[|seen| - 4..]) == Check(seen[..|seen| - 4], G())
  {
    hide FirstBits, Check, Within, BitsOf, G;
    WordWithin(c);
    ZeroIff(c, 32);
    GeneratorFits();
    ZeroIffCheckFollows(seen, G());
  }

  function BytesOf(c: bv32): (r: seq<bv8>)
    ensures |r| == 4
  {
    [(c >> 24) as bv8, ((c >> 16) & 0xff) as bv8, ((c >> 8) & 0xff) as bv8, (c & 0xff) as bv8]
  }

  /** The bytes of the word, most significant first, are its bits. */
  lemma BytesAre(c: bv32)
    ensures BitsOf(BytesOf(c)) == FirstBits(c, 32)
  {
    hide FirstBits, BitsOf, Hi, Up, Shl8;
    BytesAt(c);
    var c1, c2, c3 := Shl8(c), Shl8(Shl8(c)), Shl8(Shl8(Shl8(c)));
    BitsSplit(c, 32);
    BitsSplit(c1, 24);
    BitsSplit(c2, 16);
    BitsSplit(c3, 8);
    FourBits(Hi(c), Hi(c1), Hi(c2), Hi(c3));
    assert FirstBits(Shl8(c3), 0) == [];
  }

  lemma BytesAt(c: bv32)
    ensures Hi(c) == (c >> 24) as bv8 && Hi(Shl8(c)) == ((c >> 16) & 0xff) as bv8
    ensures Hi(Shl8(Shl8(c))) == ((c >> 8) & 0xff) as bv8 && Hi(Shl8(Shl8(Shl8(c)))) == (c & 0xff) as bv8
  {
  }

  lemma FourBits(a: bv8, b: bv8, c: bv8, d: bv8)
    ensures BitsOf([a, b, c, d]) ==
      FirstBits(Up(a), 8) + (FirstBits(Up(b), 8) + (FirstBits(Up(c), 8) + FirstBits(Up(d), 8)))
  {
    hide Up, Bit;
    assert [a, b, c, d][1..] == [b, c, d] && [b, c, d][1..] == [c, d] && [c, d][1..] == [d];
    assert BitsOf([d]) == Bits8(d) + [] == Bits8(d);
    assert BitsOf([c, d]) == Bits8(c) + Bits8(d);
    assert BitsOf([b, c, d]) == Bits8(b) + BitsOf([c, d]);
  }

  class Crc32EthernetFast {
    var crc: bv32
    ghost var seen: seq<bv8>

    /** The word holds the check value of all bytes since the last reset. */
    ghost predicate Valid()
      reads this
    {
      Holds(crc, seen)
    }

    constructor ()
      ensures Valid() && seen == []
    {
      crc := !0;
      seen := [];
      new;
      hide Holds;
      HoldsInitially();
    }

    method Reset()
      modifies this
      ensures Valid() && seen == []
    {
      hide Holds;
      crc := !0;
      seen := [];
      HoldsInitially();
    }

    method Accumulate(bytes: seq<bv8>)
      requires Valid()
      modifies this
      ensures Valid() && seen == old(seen) + bytes
    {
      hide Holds, Turn;
      for i := 0 to |bytes|
        invariant Valid() && seen == old(seen) + bytes[..i]
      {
        HoldsNext(crc, seen, bytes[i]);
        crc := Turn(crc, bytes[i]);
        seen := seen + [bytes[i]];
      }
    }

    /** Returns the check value and writes it where a receiver expects it: behind the message. */
    method Finalize(dest: array?<bv8>) returns (value: bv32)
      requires Valid()
      requires dest != null ==> dest.Length >= 4
      modifies dest
      ensures value == crc && FirstBits(value, 32) == Check(seen, G())
      ensures dest != null ==> BitsOf(dest[..4]) == Check(seen, G()) && dest[4..] == old(dest[4..])
    {
      hide BitsOf, FirstBits, Check, G, BytesOf;
      if dest != null {
        dest[0] := BytesOf(crc)[0];
        dest[1] := BytesOf(crc)[1];
        dest[2] := BytesOf(crc)[2];
        dest[3] := BytesOf(crc)[3];
        BytesAre(crc);
        assert dest[..4] == BytesOf(crc);
      }
      return crc;
    }

    /** True exactly when the last 4 bytes are what Finalize wrote for the bytes before them. */
    method IsOkay() returns (ok: bool)
      requires Valid()
      ensures ok <==> |seen| >= 4 && BitsOf(seen[|seen| - 4..]) == Check(seen[..|seen| - 4], G())
    {
      hide Holds;
      HoldsZero(crc, seen);
      return crc == 0;
    }
  }
}
