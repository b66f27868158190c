/** The bits of machine words, most significant first, and polynomial division carried out in
    a word of 32 bits. A shorter word stands at the top of one of 32 bits. */
module MachineWords {
  import opened Gf2Division

  predicate Top(c: bv32) { c & 0x8000_0000 != 0 }

  function Shl(c: bv32): bv32 { c << 1 }

  function Shl8(c: bv32): bv32 { c << 8 }

  function Add(a: bv32, b: bv32): bv32 { a ^ b }

  /** A byte at the top of a word, a word's top byte, and the word without it. */
  function Up(b: bv8): bv32 { (b as bv32) << 24 }

  function Hi(c: bv32): bv8 { (c >> 24) as bv8 }

  function Lo(c: bv32): bv32 { c & 0x00ff_ffff }

  /** Bit k, counted from the top. */
  predicate Bit(c: bv32, k: nat)
    decreases k
  {
    if k == 0 then Top(c) else Bit(Shl(c), k - 1)
  }

  function FirstBits(c: bv32, w: nat): (r: Bits)
    ensures |r| == w && forall k :: 0 <= k < w ==> r[k] == Bit(c, k)
  {
    seq(w, k requires 0 <= k => Bit(c, k))
  }

  /** Nothing follows the first w bits. */
  ghost predicate Within(c: bv32, w: nat) {
    forall k: nat :: k >= w ==> !Bit(c, k)
  }

  // ------------------------------------------------------------ facts about single steps

  lemma AddTop(a: bv32, b: bv32)
    ensures Top(Add(a, b)) == (Top(a) != Top(b))
  {
  }

  lemma AddShl(a: bv32, b: bv32)
    ensures Shl(Add(a, b)) == Add(Shl(a), Shl(b))
  {
  }

  lemma EightShl(c: bv32)
    ensures Shl(Shl(Shl(Shl(Shl(Shl(Shl(Shl(c)))))))) == Shl8(c)
  {
  }

  lemma FourBytes(c: bv32)
    ensures Shl8(Shl8(Shl8(Shl8(c)))) == 0 && Shl(0) == 0 && !Top(0)
  {
  }

  lemma OneByteOnly(b: bv8)
    ensures Shl8(Up(b)) == 0
  {
  }

  // ------------------------------------------------------------------------ words of bits

  lemma {:induction false} BitAdd(a: bv32, b: bv32, k: nat)
    ensures Bit(Add(a, b), k) == (Bit(a, k) != Bit(b, k))
    decreases k
  {
    hide Top, Shl, Add;
    AddTop(a, b);
    if k > 0 {
      AddShl(a, b);
      BitAdd(Shl(a), Shl(b), k - 1);
    }
  }

  lemma BitsAdd(a: bv32, b: bv32, w: nat)
    ensures FirstBits(Add(a, b), w) == Xor(FirstBits(a, w), FirstBits(b, w))
  {
    hide Bit, Add;
    var x := FirstBits(Add(a, b), w);
    forall k | 0 <= k < w ensures x[k] == (Bit(a, k) != Bit(b, k)) {
      BitAdd(a, b, k);
    }
  }

  lemma {:induction false} BitZero(k: nat)
    ensures !Bit(0, k)
  {
    hide Top, Shl;
    FourBytes(0);
    if k > 0 { BitZero(k - 1); }
  }

  /** Eight bits on, the next byte begins. */
  lemma BitNext(c: bv32, k: nat)
    ensures Bit(c, k + 8) == Bit(Shl8(c), k)
  {
    hide Top, Shl, Shl8;
    EightShl(c);
    var d := Shl(Shl(Shl(Shl(c))));
    assert Bit(c, k + 8) == Bit(Shl(c), k + 7) == Bit(Shl(Shl(c)), k + 6);
    assert Bit(Shl(Shl(c)), k + 6) == Bit(Shl(Shl(Shl(c))), k + 5) == Bit(d, k + 4);
    assert Bit(d, k + 4) == Bit(Shl(d), k + 3) == Bit(Shl(Shl(d)), k + 2) == Bit(Shl(Shl(Shl(d))), k + 1);
  }

  lemma WordWithin(c: bv32)
    ensures Within(c, 32)
  {
    hide Bit, Shl8;
    forall k: nat | k >= 32 ensures !Bit(c, k) {
      BitNext(c, k - 8);
      BitNext(Shl8(c), k - 16);
      BitNext(Shl8(Shl8(c)), k - 24);
      BitNext(Shl8(Shl8(Shl8(c))), k - 32);
      FourBytes(c);
      BitZero(k - 32);
    }
  }

  lemma ByteWithin(b: bv8)
    ensures Within(Up(b), 8)
  {
    hide Bit, Shl8, Up;
    forall k: nat | k >= 8 ensures !Bit(Up(b), k) {
      BitNext(Up(b), k - 8);
      OneByteOnly(b);
      BitZero(k - 8);
    }
  }

  lemma AndShl(c: bv32, m: bv32)
    ensures c & m == 0 ==> Shl(c) & Shl(m) == 0 && !(Top(c) && Top(m))
  {
  }

  /** A word has no bit where it has none under the mask. */
  lemma {:induction false} BitMasked(c: bv32, m: bv32, k: nat)
    requires c & m == 0 && Bit(m, k)
    ensures !Bit(c, k)
    decreases k
  {
    AndShl(c, m);
    hide Top, Shl;
    if k > 0 { BitMasked(Shl(c), Shl(m), k - 1); }
  }

  lemma OnesOnTop(k: nat)
    requires k < 8
    ensures Bit(0xff00_0000, k)
  {
    assert Bit(0xff00_0000, 0) && Bit(0xff00_0000, 1) && Bit(0xff00_0000, 2) && Bit(0xff00_0000, 3);
    assert Bit(0xff00_0000, 4) && Bit(0xff00_0000, 5) && Bit(0xff00_0000, 6) && Bit(0xff00_0000, 7);
  }

  lemma HiLo(c: bv32, b: bv8)
    ensures Add(Up(Hi(c)), Lo(c)) == c
    ensures Add(c, Up(b)) == Add(Up(Hi(c) ^ b), Lo(c))
    ensures Lo(c) & 0xff00_0000 == 0 && Shl8(Lo(c)) == Shl8(c)
  {
    HiAndLo(c);
    ByteOnHi(c, b);
    OnlyLo(c);
    hide *;
  }

  lemma HiAndLo(c: bv32)
    ensures Add(Up(Hi(c)), Lo(c)) == c
  {
  }

  lemma ByteOnHi(c: bv32, b: bv8)
    ensures Add(c, Up(b)) == Add(Up(Hi(c) ^ b), Lo(c))
  {
    HiAndLo(c);
    UpXor(Hi(c), b);
    AddAssociates(Up(Hi(c)), Lo(c), Up(b));
    AddCommutes(Lo(c), Up(b));
    AddAssociates(Up(Hi(c)), Up(b), Lo(c));
    hide *;
  }

  lemma UpXor(a: bv8, b: bv8)
    ensures Up(a ^ b) == Add(Up(a), Up(b))
  {
  }

  lemma OnlyLo(c: bv32)
    ensures Lo(c) & 0xff00_0000 == 0 && Shl8(Lo(c)) == Shl8(c)
  {
  }

  lemma LoClear(c: bv32, k: nat)
    requires k < 8
    ensures !Bit(Lo(c), k)
  {
    hide Bit, Lo;
    HiLo(c, 0);
    OnesOnTop(k);
    BitMasked(Lo(c), 0xff00_0000, k);
  }

  lemma TopByte(c: bv32, k: nat)
    requires k < 8
    ensures Bit(c, k) == Bit(Up(Hi(c)), k)
  {
    hide Bit, Add, Up, Hi, Lo;
    HiLo(c, 0);
    LoClear(c, k);
    BitAdd(Up(Hi(c)), Lo(c), k);
  }

  lemma OnesBelow(c: bv32, k: nat)
    requires k < 8 && Hi(c) == 0xff
    ensures Bit(c, k)
  {
    assert Up(0xff) == 0xff00_0000;
    hide Bit, Hi, Up;
    TopByte(c, k);
    OnesOnTop(k);
  }

  /** A word's first bits are those of its top byte, the others those of the bytes below. */
  lemma BitsSplit(c: bv32, w: nat)
    requires w >= 8
    ensures FirstBits(c, w) == FirstBits(Up(Hi(c)), 8) + FirstBits(Shl8(c), w - 8)
  {
    hide Bit, Up, Hi, Shl8;
    var x := FirstBits(Up(Hi(c)), 8) + FirstBits(Shl8(c), w - 8);
    forall k | 0 <= k < w ensures Bit(c, k) == x[k] {
      if k < 8 { TopByte(c, k); } else { BitNext(c, k - 8); }
    }
  }

  // --------------------------------------------------------------------- words from bits

  /** The last 32 - n bits of a word. */
  function Low(n: nat): bv32 {
    if n == 0 then !0 else Low(n - 1) >> 1
  }

  lemma LowStep(c: bv32, m: bv32)
    ensures !Top(c) && Shl(c) & !m == 0 ==> c & !(m >> 1) == 0
  {
  }

  lemma {:induction false} BitsClear(c: bv32, n: nat)
    requires forall k :: 0 <= k < n ==> !Bit(c, k)
    ensures c & !Low(n) == 0
    decreases n
  {
    if n > 0 {
      hide Top, Shl;
      assert !Bit(c, 0);
      var d := Shl(c);
      forall k | 0 <= k < n - 1 ensures !Bit(d, k) {
        assert !Bit(c, k + 1);
      }
      BitsClear(d, n - 1);
      LowStep(c, Low(n - 1));
    }
  }

  lemma LowNone()
    ensures Low(32) == 0
  {
    assert Low(4) == 0x0fff_ffff;
    assert Low(8) == 0x00ff_ffff;
    assert Low(12) == 0x000f_ffff;
    assert Low(16) == 0x0000_ffff;
    assert Low(20) == 0x0000_0fff;
    assert Low(24) == 0x0000_00ff;
    assert Low(28) == 0x0000_000f;
  }

  lemma NotNone(c: bv32)
    ensures c & !0 == c
  {
  }

  /** A word without bits is zero. */
  lemma ZeroIff(c: bv32, w: nat)
    requires Within(c, w)
    ensures FirstBits(c, w) == Zeros(w) <==> c == 0
  {
    hide Bit, Low;
    if FirstBits(c, w) == Zeros(w) {
      forall k | 0 <= k < 32 ensures !Bit(c, k) {
        if k < w { assert FirstBits(c, w)[k] == Zeros(w)[k]; }
      }
      BitsClear(c, 32);
      LowNone();
      NotNone(c);
    }
    if c == 0 {
      forall k | 0 <= k < w ensures !Bit(c, k) {
        BitZero(k);
      }
      assert FirstBits(c, w) == Zeros(w);
    }
  }

  // ------------------------------------------------------------------ division in a word

  /** One row of the division by the generator with the low coefficients p. */
  function BitStep(c: bv32, p: bv32): bv32 {
    if c & 0x8000_0000 != 0 then (c << 1) ^ p else c << 1
  }

  function Steps(c: bv32, p: bv32, n: nat): bv32
    decreases n
  {
    if n == 0 then c else Steps(BitStep(c, p), p, n - 1)
  }

  function ByteStep(c: bv32, p: bv32): bv32 {
    BitStep(BitStep(BitStep(BitStep(BitStep(BitStep(BitStep(BitStep(c, p), p), p), p), p), p), p), p)
  }

  lemma BitStepIs(c: bv32, p: bv32)
    ensures BitStep(c, p) == if Top(c) then Add(Shl(c), p) else Shl(c)
  {
  }

  lemma ByteStepIsSteps(c: bv32, p: bv32)
    ensures ByteStep(c, p) == Steps(c, p, 8)
  {
    hide BitStep;
    var d := BitStep(BitStep(BitStep(BitStep(c, p), p), p), p);
    var e := BitStep(BitStep(BitStep(d, p), p), p);
    assert Steps(c, p, 8) == Steps(BitStep(c, p), p, 7) == Steps(BitStep(BitStep(c, p), p), p, 6);
    assert Steps(BitStep(BitStep(c, p), p), p, 6) == Steps(BitStep(BitStep(BitStep(c, p), p), p), p, 5);
    assert Steps(BitStep(BitStep(BitStep(c, p), p), p), p, 5) == Steps(d, p, 4);
    assert Steps(d, p, 4) == Steps(BitStep(d, p), p, 3) == Steps(BitStep(BitStep(d, p), p), p, 2) == Steps(e, p, 1);
  }

  lemma ShlBits(c: bv32, w: nat)
    requires w > 0 && Within(c, w)
    ensures FirstBits(Shl(c), w) == FirstBits(c, w)[1..] + [false]
    ensures Within(Shl(c), w)
  {
    hide Top, Shl;
    var d := Shl(c);
    assert forall k: nat :: Bit(d, k) == Bit(c, k + 1);
  }

  lemma AddWithin(a: bv32, b: bv32, w: nat)
    requires Within(a, w) && Within(b, w)
    ensures Within(Add(a, b), w)
  {
    hide Bit, Add;
    var c := Add(a, b);
    forall k: nat | k >= w ensures !Bit(c, k) {
      BitAdd(a, b, k);
    }
  }

  /** A step in the word is a step of the shift register. */
  lemma BitStepShifts(c: bv32, p: bv32, w: nat)
    requires w > 0 && Within(c, w) && Within(p, w)
    ensures FirstBits(BitStep(c, p), w) == Shifted(FirstBits(c, w), false, FirstBits(p, w))
    ensures Within(BitStep(c, p), w)
  {
    assert Bit(c, 0) == Top(c);
    hide Bit, Top, Shl, Add, BitStep, FirstBits, Within;
    BitStepIs(c, p);
    ShlBits(c, w);
    BitsAdd(Shl(c), p, w);
    AddWithin(Shl(c), p, w);
    assert FirstBits(c, w)[0] == Top(c);
  }

  lemma {:induction false} StepsFeed(c: bv32, p: bv32, w: nat, n: nat)
    requires w > 0 && Within(c, w) && Within(p, w)
    ensures FirstBits(Steps(c, p, n), w) == Feed(FirstBits(c, w), Zeros(n), FirstBits(p, w))
    ensures Within(Steps(c, p, n), w)
    decreases n
  {
    hide FirstBits, BitStep, Within, Feed;
    FeedZeros(FirstBits(c, w), n, FirstBits(p, w));
    if n > 0 {
      BitStepShifts(c, p, w);
      StepsFeed(BitStep(c, p), p, w, n - 1);
    }
  }

  lemma FeedZeros(reg: Bits, n: nat, g: Bits)
    requires |reg| == |g| > 0
    ensures Feed(reg, Zeros(n), g) == if n == 0 then reg else Feed(Shifted(reg, false, g), Zeros(n - 1), g)
  {
    if n > 0 { assert Zeros(n)[1..] == Zeros(n - 1); }
  }

  lemma BitStepAdd(a: bv32, b: bv32, p: bv32)
    ensures BitStep(Add(a, b), p) == Add(BitStep(a, p), BitStep(b, p))
  {
    hide BitStep, Add, Shl, Top;
    BitStepIs(a, p);
    BitStepIs(b, p);
    BitStepIs(Add(a, b), p);
    AddTop(a, b);
    AddShl(a, b);
    AddAgain(Shl(a), Shl(b), p);
  }

  lemma XorAssociates(a: bv32, b: bv32, p: bv32)
    ensures (a ^ b) ^ p == a ^ (b ^ p)
  {
  }

  lemma XorCommutes(a: bv32, b: bv32)
    ensures a ^ b == b ^ a
  {
  }

  lemma XorCancels(a: bv32, p: bv32)
    ensures a ^ (p ^ p) == a
  {
  }

  lemma AddAssociates(a: bv32, b: bv32, p: bv32)
    ensures Add(Add(a, b), p) == Add(a, Add(b, p))
  {
    XorAssociates(a, b, p);
  }

  lemma AddAgain(a: bv32, b: bv32, p: bv32)
    ensures Add(Add(a, p), b) == Add(a, Add(b, p)) == Add(Add(a, b), p)
    ensures Add(Add(a, p), Add(b, p)) == Add(a, b)
  {
    AddCommutes(p, b);
    AddCommutes(b, p);
    AddCancels(Add(a, b), p);
    hide Add;
    AddAssociates(a, b, p);
    AddAssociates(a, p, b);
    AddAssociates(Add(a, p), b, p);
    AddAssociates(Add(a, b), p, p);
  }

  lemma AddCommutes(a: bv32, b: bv32)
    ensures Add(a, b) == Add(b, a)
  {
    XorCommutes(a, b);
  }

  lemma AddCancels(a: bv32, p: bv32)
    ensures Add(a, Add(p, p)) == a
  {
    XorCancels(a, p);
  }

  lemma {:induction false} StepsAdd(a: bv32, b: bv32, p: bv32, n: nat)
    ensures Steps(Add(a, b), p, n) == Add(Steps(a, p, n), Steps(b, p, n))
    decreases n
  {
    hide BitStep, Add;
    if n > 0 {
      BitStepAdd(a, b, p);
      StepsAdd(BitStep(a, p), BitStep(b, p), p, n - 1);
    }
  }

  function Shls(c: bv32, n: nat): bv32
    decreases n
  {
    if n == 0 then c else Shls(Shl(c), n - 1)
  }

  /** Leading zeros are only shifted out. */
  lemma {:induction false} StepsMove(c: bv32, p: bv32, n: nat)
    requires forall k :: 0 <= k < n ==> !Bit(c, k)
    ensures Steps(c, p, n) == Shls(c, n)
    decreases n
  {
    hide Top, Shl, BitStep, Add;
    if n > 0 {
      assert !Bit(c, 0);
      BitStepIs(c, p);
      var d := Shl(c);
      forall k | 0 <= k < n - 1 ensures !Bit(d, k) {
        assert !Bit(c, k + 1);
      }
      StepsMove(d, p, n - 1);
    }
  }

  lemma ShlsEight(c: bv32)
    ensures Shls(c, 8) == Shl8(c)
  {
    hide Shl, Shl8;
    EightShl(c);
    var d := Shl(Shl(Shl(Shl(c))));
    assert Shls(c, 8) == Shls(Shl(c), 7) == Shls(Shl(Shl(c)), 6) == Shls(Shl(Shl(Shl(c))), 5) == Shls(d, 4);
    assert Shls(d, 4) == Shls(Shl(d), 3) == Shls(Shl(Shl(d)), 2) == Shls(Shl(Shl(Shl(d))), 1);
  }

  /** Eight steps act on the top byte, by a table, and move the rest. */
  lemma StepsByTable(c: bv32, b: bv8, p: bv32)
    ensures Steps(Add(c, Up(b)), p, 8) == Add(ByteStep(Up(Hi(c) ^ b), p), Shl8(c))
  {
    hide Bit, Shls, Shl8, Steps, Add, Up, Hi, Lo, ByteStep;
    HiLo(c, b);
    StepsAdd(Up(Hi(c) ^ b), Lo(c), p, 8);
    ByteStepIsSteps(Up(Hi(c) ^ b), p);
    forall k | 0 <= k < 8 ensures !Bit(Lo(c), k) {
      LoClear(c, k);
    }
    StepsMove(Lo(c), p, 8);
    ShlsEight(Lo(c));
  }
}
