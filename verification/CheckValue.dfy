/** The check value of a byte string: what polynomial division leaves of it. */
module CheckValue {
  import opened Gf2Division
  import opened MachineWords

  function Bits8(b: bv8): (r: Bits)
    ensures |r| == 8
  {
    FirstBits(Up(b), 8)
  }

  function BitsOf(bytes: seq<bv8>): (r: Bits)
    ensures |r| == 8 * |bytes|
  {
    if bytes == [] then [] else Bits8(bytes[0]) + BitsOf(bytes[1..])
  }

  /** The message followed by as many zeros as the generator's degree, its first bits inverted,
      modulo the generator. */
  function Check(message: seq<bv8>, g: Bits): (r: Bits)
    ensures |r| == |g|
  {
    Remainder(Dividend(Ones(|g|), BitsOf(message)), g)
  }

  /** A generator with a constant term, of a degree that is a number of bytes. */
  ghost predicate Generator(g: Bits) {
    |g| > 0 && |g| % 8 == 0 && g[|g| - 1]
  }

  lemma {:induction false} BitsOfAppend(a: seq<bv8>, b: seq<bv8>)
    ensures BitsOf(a + b) == BitsOf(a) + BitsOf(b)
  {
    if a == [] {
      assert a + b == b;
    } else {
      assert (a + b)[1..] == a[1..] + b;
      BitsOfAppend(a[1..], b);
    }
  }

  lemma UpInjective(a: bv8, b: bv8)
    ensures Add(Up(a), Up(b)) == 0 ==> a == b
  {
  }

  lemma Bits8Injective(a: bv8, b: bv8)
    requires Bits8(a) == Bits8(b)
    ensures a == b
  {
    hide FirstBits, Add, Up, Within;
    var c := Add(Up(a), Up(b));
    BitsAdd(Up(a), Up(b), 8);
    ByteWithin(a);
    ByteWithin(b);
    AddWithin(Up(a), Up(b), 8);
    assert FirstBits(c, 8) == Zeros(8);
    ZeroIff(c, 8);
    UpInjective(a, b);
  }

  lemma {:induction false} BitsOfInjective(a: seq<bv8>, b: seq<bv8>)
    requires BitsOf(a) == BitsOf(b)
    ensures a == b
  {
    hide Bits8;
    if a != [] {
      assert b != [];
      var x, y := Bits8(a[0]) + BitsOf(a[1..]), Bits8(b[0]) + BitsOf(b[1..]);
      assert x[..8] == y[..8] && x[8..] == y[8..];
      Bits8Injective(a[0], b[0]);
      BitsOfInjective(a[1..], b[1..]);
      assert a == [a[0]] + a[1..] && b == [b[0]] + b[1..];
    }
  }

  /** Equal bytes have equal bits. */
  lemma {:induction false} BitAt(a: seq<bv8>, k: nat)
    requires k < 8 * |a|
    ensures BitsOf(a)[k] == Bits8(a[k / 8])[k % 8]
  {
    hide Bits8;
    if k >= 8 {
      BitAt(a[1..], k - 8);
      assert a[1..][(k - 8) / 8] == a[k / 8] && (k - 8) % 8 == k % 8;
    }
  }

  // ----------------------------------------------------------------------- streaming

  /** The check value can be computed from any prefix's check value and the rest. */
  lemma CheckAppend(a: seq<bv8>, b: seq<bv8>, g: Bits)
    requires |g| > 0
    ensures Check(a, g) == Feed(Ones(|g|), BitsOf(a), g)
    ensures Check(a + b, g) == Feed(Check(a, g), BitsOf(b), g)
  {
    hide Feed, Remainder, BitsOf;
    BitsOfAppend(a, b);
    FeedAppend(Ones(|g|), BitsOf(a), BitsOf(b), g);
    FeedDivides(Ones(|g|), BitsOf(a), g);
    FeedDivides(Ones(|g|), BitsOf(a + b), g);
  }

  lemma CheckEmpty(g: Bits)
    requires |g| > 0
    ensures Check([], g) == Ones(|g|)
  {
    CheckAppend([], [], g);
  }

  /** Dividing by one more byte in a machine word, with a table of what eight steps do. */
  lemma CheckNext(c: bv32, seen: seq<bv8>, b: bv8, p: bv32, w: nat)
    requires w >= 8 && Within(c, w) && Within(p, w)
    requires FirstBits(c, w) == Check(seen, FirstBits(p, w))
    ensures var d := Add(ByteStep(Up(Hi(c) ^ b), p), Shl8(c));
      FirstBits(d, w) == Check(seen + [b], FirstBits(p, w)) && Within(d, w)
  {
    hide FirstBits, Add, Up, Hi, Shl8, ByteStep, Steps, Check, Within, BitsOf, Feed;
    var x := Add(c, Up(b));
    StepsByTable(c, b, p);
    BitsAdd(c, Up(b), w);
    UpBits(b, w);
    AddWithin(c, Up(b), w);
    StepsFeed(x, p, w, 8);
    FeedWindow(FirstBits(c, w), BitsOf([b]), FirstBits(p, w));
    CheckAppend(seen, [b], FirstBits(p, w));
  }

  lemma UpBits(b: bv8, w: nat)
    requires w >= 8
    ensures FirstBits(Up(b), w) == BitsOf([b]) + Zeros(w - 8)
    ensures Within(Up(b), w)
  {
    hide Bit, Up;
    ByteWithin(b);
    assert BitsOf([b]) == Bits8(b) + [] == Bits8(b);
    assert FirstBits(Up(b), w) == FirstBits(Up(b), 8) + Zeros(w - 8);
  }

  // -------------------------------------------------------------- what shows an error

  /** The check value is the one remainder: it is what is left after some multiple of the generator
      is taken off, and the only string of its length that is. */
  lemma CheckIsTheRemainder(m: seq<bv8>, r: Bits, g: Bits)
    requires |r| == |g| > 0
    ensures r == Check(m, g) <==>
      exists q: Bits :: |q| == 8 * |m| && Dividend(Ones(|g|), BitsOf(m)) == Xor(Product(q, g), Pad(|q|, r))
  {
    hide Product, Quotient, Remainder;
    var d := Dividend(Ones(|g|), BitsOf(m));
    DivisionLaw(d, g);
    assert |Quotient(d, g)| == 8 * |m|;
    forall q: Bits | |q| == 8 * |m| && d == Xor(Product(q, g), Pad(|q|, r)) ensures r == Check(m, g) {
      DivisionUnique(d, q, r, g);
    }
  }

  /** A burst of wrong bits no longer than the check value always shows. */
  lemma BurstShows(m: seq<bv8>, n: seq<bv8>, from: nat, g: Bits)
    requires Generator(g) && |m| == |n|
    requires forall k :: 0 <= k < 8 * |m| && !(from <= k < from + |g|) ==> BitsOf(m)[k] == BitsOf(n)[k]
    ensures Check(m, g) == Check(n, g) <==> m == n
  {
    hide Feed, Remainder, BitsOf, Check;
    CheckAppend(m, [], g);
    CheckAppend(n, [], g);
    if Check(m, g) == Check(n, g) {
      BurstDetected(Ones(|g|), BitsOf(m), BitsOf(n), from, g);
      BitsOfInjective(m, n);
    }
  }

  /** So do wrong bytes, as many as the check value has, next to each other. */
  lemma WrongBytesShow(m: seq<bv8>, n: seq<bv8>, from: nat, g: Bits)
    requires Generator(g) && |m| == |n|
    requires forall k :: 0 <= k < |m| && !(from <= k < from + |g| / 8) ==> m[k] == n[k]
    ensures Check(m, g) == Check(n, g) <==> m == n
  {
    hide Bits8, BitsOf, Check;
    forall k | 0 <= k < 8 * |m| && !(8 * from <= k < 8 * from + |g|) ensures BitsOf(m)[k] == BitsOf(n)[k] {
      BitAt(m, k);
      BitAt(n, k);
      assert !(from <= k / 8 < from + |g| / 8);
      assert m[k / 8] == n[k / 8];
    }
    BurstShows(m, n, 8 * from, g);
  }

  /** A generator with an even number of terms shows every odd number of wrong bits. */
  lemma OddErrorsShow(m: seq<bv8>, n: seq<bv8>, g: Bits)
    requires |g| > 0 && Odd(g)
    ensures Odd(BitsOf(m)) != Odd(BitsOf(n)) ==> Check(m, g) != Check(n, g)
  {
    hide Feed, Remainder, BitsOf, Check, Odd;
    CheckAppend(m, [], g);
    CheckAppend(n, [], g);
    ParityDetected(Ones(|g|), BitsOf(m), g);
    ParityDetected(Ones(|g|), BitsOf(n), g);
  }

  /** The check value is zero exactly when the message ends with the check value of all before. */
  lemma ZeroIffCheckFollows(m: seq<bv8>, g: Bits)
    requires Generator(g)
    ensures Check(m, g) == Zeros(|g|) <==>
      |m| >= |g| / 8 && BitsOf(m[|m| - |g| / 8..]) == Check(m[..|m| - |g| / 8], g)
  {
    hide Feed, Remainder, BitsOf, Check;
    CheckAppend(m, [], g);
    ZeroIffTrailer(BitsOf(m), g);
    if |m| >= |g| / 8 {
      var n := |m| - |g| / 8;
      assert m == m[..n] + m[n..];
      BitsOfAppend(m[..n], m[n..]);
      CheckAppend(m[..n], [], g);
      assert BitsOf(m)[..8 * n] == BitsOf(m[..n]) && BitsOf(m)[8 * n..] == BitsOf(m[n..]);
      assert 8 * n == |BitsOf(m)| - |g|;
    }
  }

  /** A message is sent with its check value behind it. If what arrives differs from that, in the
      message or in the check value, within a burst no longer than the check value, its check value
      is not zero. */
  lemma DamagedFrameShows(m: seq<bv8>, trailer: seq<bv8>, received: seq<bv8>, from: nat, g: Bits)
    requires Generator(g) && |trailer| == |g| / 8 && BitsOf(trailer) == Check(m, g)
    requires |received| == |m| + |trailer|
    requires forall k :: 0 <= k < 8 * |received| && !(from <= k < from + |g|) ==>
      BitsOf(received)[k] == BitsOf(m + trailer)[k]
    ensures Check(received, g) == Zeros(|g|) <==> received == m + trailer
  {
    hide BitsOf, Check;
    var sent := m + trailer;
    ZeroIffCheckFollows(sent, g);
    assert sent[|sent| - |g| / 8..] == trailer && sent[..|sent| - |g| / 8] == m;
    BurstShows(received, sent, from, g);
  }
}
