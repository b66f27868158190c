/** The hash value of the table's default hash function as a number. */
module HashNumbers {
  import opened HashTable

  const WORD: nat := 0x1_0000_0000
  const FOLD: nat := 0x1000_0000

  // ------------------------------------------------------------- machine words as numbers

  function Val8(a: bv8): nat { a as nat }

  function Val32(a: bv32): nat { a as nat }

  function Val33(a: bv33): nat { a as nat }

  /** The sum of a word and a byte, as the machine has it and with the carry. */
  function Sum(a: bv32, b: bv8): bv32 { a + (b as bv32) }

  function Wide(a: bv32, b: bv8): bv33 { (a as bv33) + (b as bv33) }

  function Low(s: bv33): bv32 { (s & 0xffff_ffff) as bv32 }

  function Join33(carry: bool, l: bv32): bv33 { (if carry then 0x1_0000_0000 else 0) | (l as bv33) }

  lemma WideVal(a: bv32, b: bv8)
    ensures Val33(Wide(a, b)) == Val32(a) + Val8(b)
  {
  }

  lemma WideLow(a: bv32, b: bv8)
    ensures Low(Wide(a, b)) == Sum(a, b)
  {
    LowBits(a, b);
    assert Wide(a, b) == (a as bv33) + (b as bv33) && Sum(a, b) == a + (b as bv32);
    hide Wide, Sum;
  }

  lemma LowBits(a: bv32, b: bv8)
    ensures (((a as bv33) + (b as bv33)) & 0xffff_ffff) as bv32 == a + (b as bv32)
  {
  }

  lemma Parted(s: bv33)
    ensures s == Join33(s >> 32 != 0, Low(s))
  {
  }

  lemma JoinVal(carry: bool, l: bv32)
    ensures Val33(Join33(carry, l)) == (if carry then WORD else 0) + Val32(l) && Val32(l) < WORD
  {
  }

  /** Adding a byte to a word, modulo 2^32. */
  lemma AddByte(a: bv32, b: bv8)
    ensures Val32(Sum(a, b)) == (Val32(a) + Val8(b)) % WORD
  {
    hide Val8, Val32, Val33, Sum, Wide, Low, Join33;
    var s := Wide(a, b);
    WideVal(a, b);
    WideLow(a, b);
    Parted(s);
    JoinVal(s >> 32 != 0, Low(s));
  }

  lemma UpFour(key: bv32)
    requires key & 0xf000_0000 == 0
    ensures Val32(key << 4) == 16 * Val32(key)
  {
  }

  // -------------------------------------------------------------------- one more byte

  function Val4(a: bv4): nat { a as nat }

  function Val20(a: bv20): nat { a as nat }

  /** A word in four parts: its top four bits, twenty more, and its two lowest hexadecimal digits. */
  function Parts(t: bv4, p: bv20, n: bv4, z: bv4): bv32 {
    ((t as bv32) << 28) | ((p as bv32) << 8) | ((n as bv32) << 4) | (z as bv32)
  }

  lemma PartsAre(k: bv32) returns (t: bv4, p: bv20, n: bv4, z: bv4)
    ensures k == Parts(t, p, n, z)
  {
    t, p, n, z := (k >> 28) as bv4, ((k >> 8) & 0xf_ffff) as bv20, ((k >> 4) & 0xf) as bv4, (k & 0xf) as bv4;
  }

  lemma PartsVal(t: bv4, p: bv20, n: bv4, z: bv4)
    ensures Val32(Parts(t, p, n, z)) == FOLD * Val4(t) + 256 * Val20(p) + 16 * Val4(n) + Val4(z)
    ensures Val4(t) < 16 && Val20(p) < 0x10_0000 && Val4(n) < 16 && Val4(z) < 16 && Val4(0) == 0
  {
  }

  function Both(n: bv4, t: bv4): bv4 { n ^ t }

  lemma FoldedParts(t: bv4, p: bv20, n: bv4, z: bv4)
    ensures Folded(Parts(t, p, n, z)) == Parts(0, p, Both(n, t), z)
  {
    hide Parts, Both, High, Turned;
    HighIs(t, p, n, z);
    TurnedIs(t, p, n, z);
  }

  lemma HighIs(t: bv4, p: bv20, n: bv4, z: bv4)
    ensures High(Parts(t, p, n, z)) == Parts(t, 0, 0, 0) && (Parts(t, 0, 0, 0) == 0 <==> t == 0)
    ensures Both(n, 0) == n
  {
  }

  lemma TurnedIs(t: bv4, p: bv20, n: bv4, z: bv4)
    ensures Turned(Parts(t, p, n, z), Parts(t, 0, 0, 0)) == Parts(0, p, Both(n, t), z)
  {
  }

  lemma ShiftedIs(key: bv32, b: bv8)
    ensures Shifted(key, b) == Sum(key << 4, b)
  {
  }

  lemma MixedParts(key: bv32, b: bv8, t: bv4, p: bv20, n: bv4, z: bv4)
    requires Sum(key << 4, b) == Parts(t, p, n, z)
    ensures Mixed(key, b) == Parts(0, p, Both(n, t), z)
  {
    hide Shifted, Folded, Parts, Both, Sum;
    ShiftedIs(key, b);
    FoldedParts(t, p, n, z);
  }

  /** Two numbers added in binary without carries, in their lowest places. */
  function Xor(a: nat, b: nat, places: nat): nat {
    if places == 0 then 0 else 2 * Xor(a / 2, b / 2, places - 1) + (a + b) % 2
  }

  lemma XorNext(x: nat, a: bool, y: nat, b: bool, places: nat)
    ensures Xor(Twice(x, a), Twice(y, b), places + 1) == Twice(Xor(x, y, places), a != b)
  {
    assert Twice(x, a) / 2 == x && Twice(y, b) / 2 == y;
    assert (Twice(x, a) + Twice(y, b)) % 2 == if a != b then 1 else 0;
  }

  function Twice(x: nat, a: bool): nat { 2 * x + if a then 1 else 0 }

  function Quad(a: bool, b: bool, c: bool, d: bool): bv4 {
    (if a then 8 else 0) | (if b then 4 else 0) | (if c then 2 else 0) | (if d then 1 else 0)
  }

  lemma QuadIs(n: bv4) returns (a: bool, b: bool, c: bool, d: bool)
    ensures n == Quad(a, b, c, d)
  {
    a, b, c, d := n & 8 != 0, n & 4 != 0, n & 2 != 0, n & 1 != 0;
  }

  lemma QuadVal(a: bool, b: bool, c: bool, d: bool)
    ensures Val4(Quad(a, b, c, d)) == Twice(Twice(Twice(Twice(0, a), b), c), d)
  {
  }

  lemma QuadBoth(a: bool, b: bool, c: bool, d: bool, a': bool, b': bool, c': bool, d': bool)
    ensures Both(Quad(a, b, c, d), Quad(a', b', c', d')) == Quad(a != a', b != b', c != c', d != d')
  {
  }

  lemma BothIs(n: bv4, t: bv4)
    ensures Val4(Both(n, t)) == Xor(Val4(n), Val4(t), 4)
  {
    var a, b, c, d := QuadIs(n);
    var a', b', c', d' := QuadIs(t);
    hide Val4, Quad, Both, Twice;
    QuadVal(a, b, c, d);
    QuadVal(a', b', c', d');
    QuadBoth(a, b, c, d, a', b', c', d');
    QuadVal(a != a', b != b', c != c', d != d');
    assert Xor(0, 0, 0) == 0;
    hide Xor;
    XorNext(0, a, 0, a', 0);
    XorNext(Twice(0, a), b, Twice(0, a'), b', 1);
    XorNext(Twice(Twice(0, a), b), c, Twice(Twice(0, a'), b'), c', 2);
    XorNext(Twice(Twice(Twice(0, a), b), c), d, Twice(Twice(Twice(0, a'), b'), c'), d', 3);
  }

  /** Hashing one more byte multiplies by 16, adds the byte, and folds what exceeds 28 bits into the
      second lowest hexadecimal digit. */
  lemma MixedIs(key: bv32, b: bv8)
    requires key & 0xf000_0000 == 0
    ensures var k := (16 * Val32(key) + Val8(b)) % WORD; var digit := k / 16 % 16;
      Val32(Mixed(key, b)) == k % FOLD - 16 * digit + 16 * Xor(digit, k / FOLD, 4)
  {
    hide Val4, Val8, Val20, Val32, Mixed, Parts, Xor, Both, Sum;
    UpFour(key);
    AddByte(key << 4, b);
    var t, p, n, z := PartsAre(Sum(key << 4, b));
    MixedParts(key, b, t, p, n, z);
    PartsVal(t, p, n, z);
    PartsVal(0, p, Both(n, t), z);
    BothIs(n, t);
    Digits(Val4(t), Val20(p), Val4(n), Val4(z));
  }

  lemma Digits(t: nat, p: nat, n: nat, z: nat)
    requires t < 16 && p < 0x10_0000 && n < 16 && z < 16
    ensures var k := FOLD * t + 256 * p + 16 * n + z;
      k / FOLD == t && k % FOLD == 256 * p + 16 * n + z && k / 16 % 16 == n
  {
    var k := FOLD * t + 256 * p + 16 * n + z;
    assert k / 16 == 0x100_0000 * t + 16 * p + n;
  }

  // ------------------------------------------------------------------------ whole keys

  /** The bytes as digits to base 16, the last one lowest; a digit may be larger than the base. */
  function Number(bytes: seq<bv8>): nat {
    if bytes == [] then 0 else 16 * Number(bytes[..|bytes| - 1]) + Val8(bytes[|bytes| - 1])
  }

  /** As long as that number has 28 bits at most, it is the hash value. */
  lemma {:induction false} HashIsNumber(bytes: seq<bv8>)
    requires Number(bytes) < FOLD
    ensures Val32(Hash(bytes)) == Number(bytes)
  {
    hide Mixed, Val8, Val32, Xor, Hash;
    HashNext(bytes);
    if bytes != [] {
      var init, b := bytes[..|bytes| - 1], bytes[|bytes| - 1];
      HashIsNumber(init);
      HashIsLow(init);
      MixedIs(Hash(init), b);
      XorNone(Number(bytes) / 16 % 16);
      SmallEnough(Number(bytes));
    }
  }

  lemma HashNext(bytes: seq<bv8>)
    ensures bytes == [] ==> Val32(Hash(bytes)) == 0
    ensures bytes != [] ==> Hash(bytes) == Mixed(Hash(bytes[..|bytes| - 1]), bytes[|bytes| - 1])
  {
    hide Mixed;
  }

  lemma SmallEnough(k: nat)
    requires k < FOLD
    ensures k % WORD == k && k % FOLD == k && k / FOLD == 0
  {
  }

  lemma XorNone(a: nat)
    requires a < 16
    ensures Xor(a, 0, 4) == a
  {
    assert Xor(a / 8, 0, 1) == a / 8;
    assert a / 4 / 2 == a / 8 && Xor(a / 4, 0, 2) == a / 4;
    assert a / 2 / 2 == a / 4 && Xor(a / 2, 0, 3) == a / 2;
  }

  /** And then the bucket is its remainder. */
  lemma BucketIsRemainder(bytes: seq<bv8>, n: nat)
    requires n > 0 && Number(bytes) < FOLD
    ensures BucketOf(bytes, n) == Number(bytes) % n
  {
    hide Number, Hash;
    HashIsNumber(bytes);
  }

  /** So it is for every key of at most six ASCII characters. */
  lemma ShortKeys(bytes: seq<bv8>)
    requires |bytes| <= 6 && forall i :: 0 <= i < |bytes| ==> bytes[i] < 0x80
    ensures Val32(Hash(bytes)) == Number(bytes)
  {
    hide Number, Val32, Hash, Bound;
    NumberBound(bytes);
    BoundIs(|bytes|);
    HashIsNumber(bytes);
  }

  ghost function Bound(n: nat): nat {
    if n == 0 then 0 else 16 * Bound(n - 1) + 0x7f
  }

  lemma BoundIs(n: nat)
    requires n <= 6
    ensures Bound(n) < FOLD
  {
    assert Bound(1) == 0x7f && Bound(2) == 0x86f && Bound(3) == 0x876f;
    assert Bound(4) == 0x8_776f && Bound(5) == 0x87_776f && Bound(6) == 0x877_776f;
  }

  lemma {:induction false} NumberBound(bytes: seq<bv8>)
    requires forall i :: 0 <= i < |bytes| ==> bytes[i] < 0x80
    ensures Number(bytes) <= Bound(|bytes|)
  {
    if bytes != [] {
      Ascii(bytes[|bytes| - 1]);
      hide Val8;
      NumberBound(bytes[..|bytes| - 1]);
    }
  }

  lemma Ascii(b: bv8)
    requires b < 0x80
    ensures Val8(b) <= 0x7f
  {
  }

  /** The key "a" in a table of ten buckets. */
  lemma KeyA()
    ensures BucketOf([0x61], 10) == 7
  {
    var key: seq<bv8> := [0x61];
    assert key[..0] == [] && Hash(key[..0]) == 0 && Mixed(0, 0x61) == 0x61;
    assert Hash(key) == 0x61;
  }
}
