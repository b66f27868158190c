/** The Fletcher-16 checksum (Fletcher16): two sums modulo 255 and the trailer that cancels them. */
module Fletcher {
  import opened Basics

  /** The sum of the bytes. */
  function Sum(bytes: seq<Byte>): nat {
    if bytes == [] then 0 else bytes[0] + Sum(bytes[1..])
  }

  /** The sum of the bytes, each weighted with its distance from the end. */
  function Weighted(bytes: seq<Byte>): nat {
    if bytes == [] then 0 else |bytes| * bytes[0] + Weighted(bytes[1..])
  }

  lemma {:induction false} SumAppend(a: seq<Byte>, b: seq<Byte>)
    ensures Sum(a + b) == Sum(a) + Sum(b)
    ensures Weighted(a + b) == Weighted(a) + |b| * Sum(a) + Weighted(b)
  {
    if a == [] {
      assert a + b == b;
    } else {
      assert (a + b)[1..] == a[1..] + b;
      SumAppend(a[1..], b);
      assert (|a| + |b|) * a[0] == |a| * a[0] + |b| * a[0];
      assert |b| * (a[0] + Sum(a[1..])) == |b| * a[0] + |b| * Sum(a[1..]);
    }
  }

  lemma SumOne(a: seq<Byte>, x: Byte)
    ensures Sum(a + [x]) == Sum(a) + x && Weighted(a + [x]) == Weighted(a) + Sum(a) + x
  {
    SumAppend(a, [x]);
  }

  /** Both sums vanish modulo 255. */
  ghost predicate Okay(bytes: seq<Byte>) {
    Sum(bytes) % 255 == 0 && Weighted(bytes) % 255 == 0
  }

  function First(sum1: nat, sum2: nat): (lo: Byte)
    ensures lo > 0
  {
    255 - (sum1 + sum2) % 255
  }

  function Second(sum1: nat, lo: Byte): (hi: Byte)
    ensures hi > 0
  {
    255 - (sum1 + lo) % 255
  }

  /** The two bytes that finalize writes for a message. */
  function Trailer(bytes: seq<Byte>): (r: seq<Byte>)
    ensures |r| == 2 && r[0] > 0 && r[1] > 0
  {
    var lo := First(Sum(bytes) % 255, Weighted(bytes) % 255);
    [lo, Second(Sum(bytes) % 255, lo)]
  }

  /** Two bytes after a message are accepted exactly when they are its trailer, up to 0 and 255
      being the same. */
  lemma OkayIff(m: seq<Byte>, x: Byte, y: Byte)
    ensures Okay(m + [x, y]) <==> x % 255 == Trailer(m)[0] % 255 && y % 255 == Trailer(m)[1] % 255
  {
    SumAppend(m, [x, y]);
    SumTwo(x, y);
    hide Sum, Weighted, Trailer, First, Second;
    TrailerIs(m);
    Cancels(Sum(m), Weighted(m), x, y);
  }

  lemma SumTwo(x: Byte, y: Byte)
    ensures Sum([x, y]) == x + y && Weighted([x, y]) == 2 * x + y
  {
    SumOne([], x);
    SumOne([x], y);
    assert [] + [x] == [x] && [x] + [y] == [x, y];
  }

  lemma TrailerIs(m: seq<Byte>)
    ensures Trailer(m)[0] == First(Sum(m) % 255, Weighted(m) % 255)
    ensures Trailer(m)[1] == Second(Sum(m) % 255, Trailer(m)[0])
  {
  }

  /** A sum may be reduced before it is added to. */
  lemma ModAdd(a: int, b: int)
    ensures (a % 255 + b) % 255 == (a + b) % 255
  {
  }

  lemma Cancels(s: nat, w: nat, x: Byte, y: Byte)
    ensures (s + x + y) % 255 == 0 && (w + 2 * s + 2 * x + y) % 255 == 0 <==>
      var lo := First(s % 255, w % 255); x % 255 == lo % 255 && y % 255 == Second(s % 255, lo) % 255
  {
    var lo := First(s % 255, w % 255);
    CancelsFirst(s, w, x);
    CancelsSecond(s, lo, x, y);
    SameDifference(s + x + y, w + s + x);
  }

  /** If one of two sums is zero, their sum is zero exactly when the other is. */
  lemma SameDifference(a: nat, b: nat)
    ensures a % 255 == 0 ==> ((a + b) % 255 == 0 <==> b % 255 == 0)
  {
  }

  lemma Complement(t: nat, x: Byte)
    requires t < 255
    ensures (t + x) % 255 == 0 <==> x % 255 == (255 - t) % 255
  {
    assert t + x == 0 || t + x == 255 || (0 < t + x < 255) || 255 < t + x <= 509;
  }

  lemma CancelsFirst(s: nat, w: nat, x: Byte)
    ensures (w + s + x) % 255 == 0 <==> x % 255 == First(s % 255, w % 255) % 255
  {
    ModAdd(s, w % 255);
    ModAdd(w, s);
    ModAdd(s + w, x);
    var t := (s + w) % 255;
    Complement(t, x);
  }

  lemma CancelsSecond(s: nat, lo: Byte, x: Byte, y: Byte)
    ensures x % 255 == lo % 255 ==> ((s + x + y) % 255 == 0 <==> y % 255 == Second(s % 255, lo) % 255)
  {
    if x % 255 == lo % 255 {
      ModAdd(s, lo);
      ModAdd(lo, s);
      ModAdd(x, s);
      ModAdd(s + x, y);
      var t := (s + lo) % 255;
      Complement(t, y);
    }
  }

  /** The trailer itself always cancels both sums. */
  lemma TrailerCancels(m: seq<Byte>)
    ensures Okay(m + Trailer(m))
  {
    hide Trailer, Okay;
    var t := Trailer(m);
    assert t == [t[0], t[1]];
    OkayIff(m, t[0], t[1]);
  }

  /** Two messages that differ in one byte only are told apart exactly when those bytes differ
      modulo 255. */
  lemma OneByteShows(a: seq<Byte>, x: Byte, y: Byte, b: seq<Byte>)
    ensures Sum(a + [x] + b) % 255 == Sum(a + [y] + b) % 255 <==> x % 255 == y % 255
    ensures x % 255 == y % 255 ==> Weighted(a + [x] + b) % 255 == Weighted(a + [y] + b) % 255
  {
    SumMiddle(a, x, b);
    SumMiddle(a, y, b);
    hide Sum, Weighted;
    SameScaled(Weighted(a) + (|b| + 1) * Sum(a) + Weighted(b), |b| + 1, x, y);
    SumTells(Sum(a) + Sum(b), x, y);
  }

  /** The messages 0 and 255 have the same sums, and the trailer of one is accepted after the other. */
  lemma ZeroIsLike255()
    ensures Sum([0]) % 255 == Sum([255]) % 255 && Weighted([0]) % 255 == Weighted([255]) % 255
    ensures Trailer([0]) == Trailer([255]) && Okay([255] + Trailer([0]))
  {
    OneByte(0);
    OneByte(255);
    TrailerIs([0]);
    TrailerIs([255]);
    TrailerCancels([255]);
    hide Sum, Weighted, Trailer, Okay;
    var a, b := Trailer([0]), Trailer([255]);
    assert a == [a[0], a[1]] && b == [b[0], b[1]];
  }

  lemma OneByte(x: Byte)
    ensures Sum([x]) == x && Weighted([x]) == x
  {
    SumOne([], x);
    assert [] + [x] == [x];
  }

  lemma SumTells(s: nat, x: Byte, y: Byte)
    ensures (s + x) % 255 == (s + y) % 255 <==> x % 255 == y % 255
  {
    var d, e := x / 255 - y / 255, (s + x) / 255 - (s + y) / 255;
    if x % 255 == y % 255 {
      assert s + x == s + y + 255 * d;
      Shifted(s + y, d);
    }
    if (s + x) % 255 == (s + y) % 255 {
      assert (x as int) == y + 255 * e;
      Shifted(y, e);
    }
  }

  lemma SameScaled(w: int, n: nat, x: int, y: int)
    ensures x % 255 == y % 255 ==> (w + n * x) % 255 == (w + n * y) % 255
  {
    if x % 255 == y % 255 {
      var d := x / 255 - y / 255;
      assert n * x == n * y + 255 * (n * d) by {
        assert n * (y + 255 * d) == n * y + n * (255 * d);
      }
      Shifted(w + n * y, n * d);
    }
  }

  lemma SumMiddle(a: seq<Byte>, x: Byte, b: seq<Byte>)
    ensures Sum(a + [x] + b) == Sum(a) + Sum(b) + x
    ensures Weighted(a + [x] + b) == Weighted(a) + (|b| + 1) * Sum(a) + Weighted(b) + (|b| + 1) * x
  {
    hide Sum, Weighted;
    SumAppend(a + [x], b);
    SumOne(a, x);
    assert |b| * (Sum(a) + x) == |b| * Sum(a) + |b| * x;
  }

  lemma Shifted(t: int, k: int)
    ensures (t + 255 * k) % 255 == t % 255
  {
  }

  lemma Packed(lo: Byte, hi: Byte)
    ensures var v := (lo as int) + 256 * (hi as int); v % 256 == lo && v / 256 == hi
  {
  }

  class Fletcher16 {
    var sum1: nat
    var sum2: nat
    ghost var seen: seq<Byte>

    ghost predicate Valid()
      reads this
    {
      sum1 == Sum(seen) % 255 && sum2 == Weighted(seen) % 255
    }

    constructor ()
      ensures Valid() && seen == []
    {
      sum1, sum2 := 0, 0;
      seen := [];
    }

    method Reset()
      modifies this
      ensures Valid() && seen == []
    {
      sum1, sum2 := 0, 0;
      seen := [];
    }

    method Accumulate(bytes: seq<Byte>)
      requires Valid()
      modifies this
      ensures Valid() && seen == old(seen) + bytes
    {
      hide Sum, Weighted;
      for i := 0 to |bytes|
        invariant Valid() && seen == old(seen) + bytes[..i]
      {
        SumOne(seen, bytes[i]);
        ModAdd(Sum(seen), bytes[i]);
        ModAdd(Sum(seen) + bytes[i], Weighted(seen) % 255);
        ModAdd(Weighted(seen), Sum(seen) + bytes[i]);
        sum1 := (sum1 + bytes[i]) % 255;
        sum2 := (sum2 + sum1) % 255;
        seen := seen + [bytes[i]];
      }
    }

    method Finalize(dest: array?<Byte>) returns (value: nat)
      requires Valid()
      requires dest != null ==> dest.Length >= 2
      modifies dest
      ensures value % 256 == Trailer(seen)[0] && value / 256 == Trailer(seen)[1]
      ensures dest != null ==> dest[..2] == Trailer(seen) && dest[2..] == old(dest[2..])
    {
      hide First, Second, Sum, Weighted;
      var lo := First(sum1, sum2);
      var hi := Second(sum1, lo);
      if dest != null {
        dest[0] := lo;
        dest[1] := hi;
      }
      Packed(lo, hi);
      value := (lo as int) + 256 * (hi as int);
    }

    method IsOkay() returns (ok: bool)
      requires Valid()
      ensures ok <==> Okay(seen)
    {
      return sum1 == 0 && sum2 == 0;
    }
  }
}
