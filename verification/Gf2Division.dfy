/** Division of polynomials over GF(2), most significant coefficient first, and the shift register
    that computes its remainders. A generator x^w + g is given by its low coefficients g. */
module Gf2Division {

  type Bits = seq<bool>

  function Zeros(n: nat): (r: Bits)
    ensures |r| == n && forall k :: 0 <= k < n ==> !r[k]
  {
    seq(n, _ => false)
  }

  function Ones(n: nat): (r: Bits)
    ensures |r| == n && forall k :: 0 <= k < n ==> r[k]
  {
    seq(n, _ => true)
  }

  function Xor(a: Bits, b: Bits): (r: Bits)
    requires |a| == |b|
    ensures |r| == |a| && forall k :: 0 <= k < |a| ==> r[k] == (a[k] != b[k])
  {
    seq(|a|, k requires 0 <= k < |a| && |a| == |b| => a[k] != b[k])
  }

  function Scale(q: bool, g: Bits): (r: Bits)
    ensures |r| == |g| && forall k :: 0 <= k < |g| ==> r[k] == (q && g[k])
  {
    if q then g else Zeros(|g|)
  }

  // -------------------------------------------------------------------- long division

  /** The dividend after one row of long division. */
  function Reduced(d: Bits, g: Bits): (r: Bits)
    requires |d| > |g|
    ensures |r| == |d| - 1
    ensures forall k :: 0 <= k < |r| ==> r[k] == (d[k + 1] != (k < |g| && d[0] && g[k]))
  {
    Xor(d[1..], Scale(d[0], g) + Zeros(|d| - 1 - |g|))
  }

  function Remainder(d: Bits, g: Bits): (r: Bits)
    requires |d| >= |g|
    ensures |r| == |g|
    decreases |d|
  {
    if |d| == |g| then d else Remainder(Reduced(d, g), g)
  }

  function Quotient(d: Bits, g: Bits): (q: Bits)
    requires |d| >= |g|
    ensures |q| == |d| - |g|
    decreases |d|
  {
    if |d| == |g| then [] else [d[0]] + Quotient(Reduced(d, g), g)
  }

  predicate At(s: Bits, k: int) {
    0 <= k < |s| && s[k]
  }

  /** n zeros in front. */
  function Pad(n: nat, r: Bits): (p: Bits)
    ensures |p| == n + |r|
  {
    Zeros(n) + r
  }

  lemma PadAt(n: nat, r: Bits, k: int)
    ensures At(Pad(n, r), k) == At(r, k - n)
  {
  }

  predicate RowAt(q: bool, g: Bits, k: int) {
    q && (k == 0 || At(g, k - 1))
  }

  /** The generator, or nothing, followed by n zeros. */
  function Row(q: bool, g: Bits, n: nat): (r: Bits)
    ensures |r| == |g| + 1 + n
    ensures forall k :: 0 <= k < |r| ==> r[k] == RowAt(q, g, k)
  {
    if q then [true] + g + Zeros(n) else Zeros(|g| + 1 + n)
  }

  /** q times the generator. */
  function Product(q: Bits, g: Bits): (r: Bits)
    ensures |r| == |q| + |g|
  {
    if q == [] then Zeros(|g|)
    else Xor(Row(q[0], g, |q| - 1), Pad(1, Product(q[1..], g)))
  }

  lemma ProductAt(q: Bits, g: Bits, k: nat)
    requires q != [] && k < |q| + |g|
    ensures At(Product(q, g), k) == (RowAt(q[0], g, k) != At(Product(q[1..], g), k - 1))
  {
    var a, p := Row(q[0], g, |q| - 1), Product(q[1..], g);
    assert Product(q, g) == Xor(a, Pad(1, p));
    hide Product, Row, Xor, Pad;
    assert At(a, k) == RowAt(q[0], g, k);
    hide At, RowAt;
    XorAt(a, Pad(1, p), k);
    PadAt(1, p, k);
  }

  lemma XorAt(a: Bits, b: Bits, k: int)
    requires |a| == |b|
    ensures At(Xor(a, b), k) == (At(a, k) != At(b, k))
  {
  }

  lemma SameAt(a: Bits, b: Bits)
    ensures |a| == |b| && (forall k: nat :: k < |a| ==> At(a, k) == At(b, k)) ==> a == b
  {
    if |a| == |b| && forall k: nat :: k < |a| ==> At(a, k) == At(b, k) {
      forall k | 0 <= k < |a| ensures a[k] == b[k] {
        assert At(a, k) == At(b, k);
      }
    }
  }

  lemma ReducedAt(d: Bits, g: Bits, k: nat)
    requires |d| > |g|
    ensures k < |d| - 1 ==> At(Reduced(d, g), k) == (At(d, k + 1) != (d[0] && At(g, k)))
  {
  }

  /** One row of long division takes the generator off once. */
  lemma RowTakesOff(d: Bits, q: Bits, r: Bits, g: Bits)
    requires q != [] && |r| == |g| && |d| == |q| + |g|
    ensures d == Xor(Product(q, g), Pad(|q|, r)) <==>
      d[0] == q[0] && Reduced(d, g) == Xor(Product(q[1..], g), Pad(|q| - 1, r))
  {
    hide Product, Xor, Pad, At, RowAt, Reduced;
    var p, t := Product(q, g), Product(q[1..], g);
    forall k: nat | k < |p| ensures At(p, k) == (RowAt(q[0], g, k) != At(t, k - 1)) {
      ProductAt(q, g, k);
    }
    forall k: nat | k < |p|
      ensures At(Xor(p, Pad(|q|, r)), k) == (RowAt(q[0], g, k) != At(Xor(t, Pad(|q| - 1, r)), k - 1))
    {
      SumAt(q[0], p, t, |q|, r, g, k);
    }
    RowOff(d, q[0], Xor(p, Pad(|q|, r)), Xor(t, Pad(|q| - 1, r)), g);
  }

  lemma SumAt(q: bool, p: Bits, t: Bits, n: nat, r: Bits, g: Bits, k: nat)
    requires n > 0 && |r| == |g| && |p| == n + |g| && |t| == n - 1 + |g|
    requires At(p, k) == (RowAt(q, g, k) != At(t, k - 1))
    ensures At(Xor(p, Pad(n, r)), k) == (RowAt(q, g, k) != At(Xor(t, Pad(n - 1, r)), k - 1))
  {
    hide Xor, Pad, At, RowAt;
    XorAt(p, Pad(n, r), k);
    PadAt(n, r, k);
    XorAt(t, Pad(n - 1, r), k - 1);
    PadAt(n - 1, r, k - 1);
  }

  lemma RowOff(d: Bits, q: bool, x: Bits, y: Bits, g: Bits)
    requires |d| == |x| == |y| + 1 > |g|
    requires forall k: nat :: k < |x| ==> At(x, k) == (RowAt(q, g, k) != At(y, k - 1))
    ensures d == x <==> d[0] == q && Reduced(d, g) == y
  {
    var e := Reduced(d, g);
    var zero: nat := 0;
    assert At(x, zero) == (RowAt(q, g, zero) != At(y, zero - 1));
    assert RowAt(q, g, 0) == q && !At(y, -1);
    assert At(x, 0) == q;
    assert At(d, 0) == d[0];
    forall k: nat ensures RowAt(q, g, k + 1) == (q && At(g, k)) {
      assert k + 1 - 1 == k;
    }
    hide At, Reduced, RowAt;
    if d == x {
      forall k: nat | k < |e| ensures At(e, k) == At(y, k) {
        ReducedAt(d, g, k);
        assert At(x, k + 1) == (RowAt(q, g, k + 1) != At(y, k));
      }
      SameAt(e, y);
    }
    if d[0] == q && e == y {
      forall k: nat | k < |d| ensures At(d, k) == At(x, k) {
        if k > 0 { ReducedAt(d, g, k - 1); assert RowAt(q, g, k - 1 + 1) == (q && At(g, k - 1)); }
      }
      SameAt(d, x);
    }
  }

  /** Dividend is quotient times generator plus remainder. */
  lemma {:induction false} DivisionLaw(d: Bits, g: Bits)
    requires |d| >= |g|
    ensures d == Xor(Product(Quotient(d, g), g), Pad(|d| - |g|, Remainder(d, g)))
    decreases |d|
  {
    if |d| > |g| {
      DivisionLaw(Reduced(d, g), g);
      assert Quotient(d, g)[1..] == Quotient(Reduced(d, g), g);
      RowTakesOff(d, Quotient(d, g), Remainder(d, g), g);
    }
  }

  /** No other quotient and remainder do that. */
  lemma {:induction false} DivisionUnique(d: Bits, q: Bits, r: Bits, g: Bits)
    requires |r| == |g| && |d| == |q| + |g|
    requires d == Xor(Product(q, g), Pad(|q|, r))
    ensures q == Quotient(d, g) && r == Remainder(d, g)
    decreases |q|
  {
    if q == [] {
      assert d == r;
    } else {
      RowTakesOff(d, q, r, g);
      DivisionUnique(Reduced(d, g), q[1..], r, g);
    }
  }

  // --------------------------------------------------------------- the shift register

  /** One bit shifted into the register. */
  function Shifted(reg: Bits, b: bool, g: Bits): (r: Bits)
    requires |reg| == |g| > 0
    ensures |r| == |reg|
    ensures forall k :: 0 <= k < |r| ==> r[k] == ((k + 1 < |reg| && reg[k + 1]) != (reg[0] != b && g[k]))
  {
    Xor(reg[1..] + [false], Scale(reg[0] != b, g))
  }

  function Feed(reg: Bits, bits: Bits, g: Bits): (r: Bits)
    requires |reg| == |g| > 0
    ensures |r| == |reg|
    decreases |bits|
  {
    if bits == [] then reg else Feed(Shifted(reg, bits[0], g), bits[1..], g)
  }

  /** The register's start value and the message, as the dividend they stand for. */
  function Dividend(reg: Bits, bits: Bits): (d: Bits)
    ensures |d| == |reg| + |bits|
    ensures forall k :: 0 <= k < |d| ==> d[k] == ((k < |reg| && reg[k]) != (k < |bits| && bits[k]))
  {
    Xor(reg + Zeros(|bits|), bits + Zeros(|reg|))
  }

  /** Feeding a message leaves the remainder of dividing it. */
  lemma {:induction false} FeedDivides(reg: Bits, bits: Bits, g: Bits)
    requires |reg| == |g| > 0
    ensures Feed(reg, bits, g) == Remainder(Dividend(reg, bits), g)
    decreases |bits|
  {
    var d := Dividend(reg, bits);
    if bits == [] {
      assert d == reg;
    } else {
      var s := Shifted(reg, bits[0], g);
      assert Reduced(d, g) == Dividend(s, bits[1..]);
      FeedDivides(s, bits[1..], g);
    }
  }

  lemma {:induction false} FeedAppend(reg: Bits, a: Bits, b: Bits, g: Bits)
    requires |reg| == |g| > 0
    ensures Feed(reg, a + b, g) == Feed(Feed(reg, a, g), b, g)
    decreases |a|
  {
    if a == [] {
      assert a + b == b;
    } else {
      assert (a + b)[1..] == a[1..] + b;
      FeedAppend(Shifted(reg, a[0], g), a[1..], b, g);
    }
  }

  /** A bit string no longer than the register may as well be added to it beforehand. */
  lemma FeedWindow(reg: Bits, w: Bits, g: Bits)
    requires |reg| == |g| > 0 && |w| <= |g|
    ensures Feed(reg, w, g) == Feed(Xor(reg, w + Zeros(|g| - |w|)), Zeros(|w|), g)
  {
    var x := Xor(reg, w + Zeros(|g| - |w|));
    assert Dividend(reg, w) == Dividend(x, Zeros(|w|));
    FeedDivides(reg, w, g);
    FeedDivides(x, Zeros(|w|), g);
  }

  /** With a constant term in the generator, no two register values are ever confused. */
  lemma {:induction false} FeedInjective(r: Bits, s: Bits, bits: Bits, g: Bits)
    requires |r| == |s| == |g| > 0 && g[|g| - 1]
    requires Feed(r, bits, g) == Feed(s, bits, g)
    ensures r == s
    decreases |bits|
  {
    if bits != [] {
      var r', s' := Shifted(r, bits[0], g), Shifted(s, bits[0], g);
      FeedInjective(r', s', bits[1..], g);
      assert r'[|g| - 1] == (r[0] != bits[0]) && s'[|g| - 1] == (s[0] != bits[0]);
      forall k | 0 <= k < |r| ensures r[k] == s[k] {
        if k > 0 { assert r'[k - 1] == s'[k - 1]; }
      }
    }
  }

  lemma {:induction false} FeedNothing(n: nat, g: Bits)
    requires |g| > 0
    ensures Feed(Zeros(|g|), Zeros(n), g) == Zeros(|g|)
  {
    if n > 0 {
      assert Shifted(Zeros(|g|), false, g) == Zeros(|g|);
      assert Zeros(n)[1..] == Zeros(n - 1);
      FeedNothing(n - 1, g);
    }
  }

  // ------------------------------------------------------- what a check value detects

  /** Two messages of the same length that differ only within as many consecutive bits as the
      generator's degree never leave the same register value. */
  lemma BurstDetected(reg: Bits, a: Bits, b: Bits, from: nat, g: Bits)
    requires |reg| == |g| > 0 && g[|g| - 1]
    requires |a| == |b|
    requires forall k :: 0 <= k < |a| && !(from <= k < from + |g|) ==> a[k] == b[k]
    requires Feed(reg, a, g) == Feed(reg, b, g)
    ensures a == b
  {
    hide Feed;
    var i := if from < |a| then from else |a|;
    var j := if from + |g| < |a| then from + |g| else |a|;
    assert a[..i] == b[..i] && a[j..] == b[j..];
    Cut(a, i, j);
    Cut(b, i, j);
    BetweenInjective(reg, a[..i], a[i..j], b[i..j], a[j..], g);
  }

  lemma Cut(a: Bits, i: nat, j: nat)
    requires i <= j <= |a|
    ensures a == a[..i] + a[i..j] + a[j..]
  {
  }

  lemma BetweenInjective(reg: Bits, p: Bits, v: Bits, w: Bits, s: Bits, g: Bits)
    requires |reg| == |g| > 0 && g[|g| - 1]
    requires |v| == |w| <= |g|
    requires Feed(reg, p + v + s, g) == Feed(reg, p + w + s, g)
    ensures v == w
  {
    hide Feed;
    FeedAppend(reg, p + v, s, g);
    FeedAppend(reg, p + w, s, g);
    FeedAppend(reg, p, v, g);
    FeedAppend(reg, p, w, g);
    FeedInjective(Feed(reg, p + v, g), Feed(reg, p + w, g), s, g);
    WindowInjective(Feed(reg, p, g), v, w, g);
  }

  lemma WindowInjective(c: Bits, v: Bits, w: Bits, g: Bits)
    requires |c| == |g| > 0 && g[|g| - 1] && |v| == |w| <= |g|
    requires Feed(c, v, g) == Feed(c, w, g)
    ensures v == w
  {
    FeedWindow(c, v, g);
    FeedWindow(c, w, g);
    var x, y := Xor(c, v + Zeros(|g| - |v|)), Xor(c, w + Zeros(|g| - |w|));
    FeedInjective(x, y, Zeros(|v|), g);
    forall k | 0 <= k < |v| ensures v[k] == w[k] {
      assert x[k] == y[k] && (v + Zeros(|g| - |v|))[k] == v[k] && (w + Zeros(|g| - |w|))[k] == w[k];
    }
  }

  /** The register is cleared by its own value and by nothing else. */
  lemma ClearedIff(reg: Bits, t: Bits, g: Bits)
    requires |reg| == |g| > 0 && g[|g| - 1] && |t| == |g|
    ensures Feed(reg, t, g) == Zeros(|g|) <==> t == reg
  {
    FeedWindow(reg, reg, g);
    assert Xor(reg, reg + Zeros(0)) == Zeros(|g|);
    FeedNothing(|g|, g);
    if Feed(reg, t, g) == Zeros(|g|) { WindowInjective(reg, t, reg, g); }
  }

  /** A register started with ones is zero exactly when the last bits of what it was fed are the
      check value of all before them. */
  lemma ZeroIffTrailer(bits: Bits, g: Bits)
    requires |g| > 0 && g[|g| - 1]
    ensures Feed(Ones(|g|), bits, g) == Zeros(|g|) <==>
      |bits| >= |g| && bits[|bits| - |g|..] == Feed(Ones(|g|), bits[..|bits| - |g|], g)
  {
    hide Feed, Zeros, Ones;
    if |bits| >= |g| {
      var n := |bits| - |g|;
      assert bits == bits[..n] + bits[n..];
      TrailerClears(bits[..n], bits[n..], g);
    } else {
      TooShort(bits, g);
    }
  }

  lemma TrailerClears(a: Bits, t: Bits, g: Bits)
    requires |t| == |g| > 0 && g[|g| - 1]
    ensures Feed(Ones(|g|), a + t, g) == Zeros(|g|) <==> t == Feed(Ones(|g|), a, g)
  {
    hide Feed, Zeros, Ones;
    FeedAppend(Ones(|g|), a, t, g);
    ClearedIff(Feed(Ones(|g|), a, g), t, g);
  }

  lemma TooShort(bits: Bits, g: Bits)
    requires |bits| < |g| && g[|g| - 1]
    ensures Feed(Ones(|g|), bits, g) != Zeros(|g|)
  {
    hide Feed;
    FeedWindow(Ones(|g|), bits, g);
    FeedNothing(|bits|, g);
    var x := Xor(Ones(|g|), bits + Zeros(|g| - |bits|));
    assert x[|g| - 1] != Zeros(|g|)[|g| - 1];
    if Feed(Ones(|g|), bits, g) == Zeros(|g|) { FeedInjective(x, Zeros(|g|), Zeros(|bits|), g); }
  }

  function Odd(a: Bits): bool {
    if a == [] then false else a[0] != Odd(a[1..])
  }

  lemma {:induction false} OddXor(a: Bits, b: Bits)
    requires |a| == |b|
    ensures Odd(Xor(a, b)) == (Odd(a) != Odd(b))
  {
    if a != [] {
      assert Xor(a, b)[1..] == Xor(a[1..], b[1..]);
      OddXor(a[1..], b[1..]);
    }
  }

  lemma {:induction false} OddEnd(a: Bits, b: bool)
    ensures Odd(a + [b]) == (Odd(a) != b)
  {
    if a == [] {
      assert (a + [b])[1..] == [];
    } else {
      assert (a + [b])[1..] == a[1..] + [b];
      OddEnd(a[1..], b);
    }
  }

  lemma {:induction false} OddZeros(n: nat)
    ensures !Odd(Zeros(n))
  {
    if n > 0 {
      assert Zeros(n)[1..] == Zeros(n - 1);
      OddZeros(n - 1);
    }
  }

  /** A generator with an even number of terms keeps the parity: an odd number of wrong bits
      always shows. */
  lemma {:induction false} ParityDetected(reg: Bits, bits: Bits, g: Bits)
    requires |reg| == |g| > 0 && Odd(g)
    ensures Odd(Feed(reg, bits, g)) == (Odd(reg) != Odd(bits))
    decreases |bits|
  {
    if bits != [] {
      var s := Shifted(reg, bits[0], g);
      OddXor(reg[1..] + [false], Scale(reg[0] != bits[0], g));
      OddEnd(reg[1..], false);
      OddZeros(|g|);
      ParityDetected(s, bits[1..], g);
    }
  }
}
