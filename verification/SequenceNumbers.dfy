/** The 16-bit sequence number of a model point (ModelPointCommon_::advanceSequenceNumber). */
module SequenceNumbers {

  /** SEQUENCE_NUMBER_UNKNOWN, and the number of different sequence numbers in use. */
  const UNKNOWN: nat := 0
  const PERIOD: nat := 65535

  /** One increment of a uint16_t that skips UNKNOWN when it rolls over. */
  function Advance(n: nat): nat {
    var m := (n + 1) % 0x1_0000;
    if m == UNKNOWN then UNKNOWN + 1 else m
  }

  function Advances(n: nat, k: nat): nat {
    if k == 0 then n else Advance(Advances(n, k - 1))
  }

  /** The number a fresh point shows after the given number of changes. */
  function SeqOf(version: nat): nat {
    1 + version % PERIOD
  }

  /** Each version's number is one more than the one before, up to the largest that 16 bits hold;
      the first is 1. */
  lemma AdvanceCounts(version: nat)
    ensures Advance(SeqOf(version)) == SeqOf(version + 1)
    ensures SeqOf(version) != UNKNOWN && SeqOf(0) == 1
    ensures SeqOf(version + 1) == if SeqOf(version) == 0xffff then 1 else SeqOf(version) + 1
  {
  }

  /** k advances from any number in use: never UNKNOWN, and back to the start only every PERIOD. */
  lemma {:induction false} AdvancesCycle(n: nat, k: nat)
    requires 1 <= n <= PERIOD
    ensures Advances(n, k) == SeqOf(n - 1 + k)
    ensures Advances(n, k) != UNKNOWN
    ensures Advances(n, k) == n <==> k % PERIOD == 0
  {
    assert SeqOf(n - 1) == n;
    hide Advance, SeqOf;
    AdvanceCounts(n - 1 + k);
    if k > 0 {
      AdvancesCycle(n, k - 1);
      AdvanceCounts(n - 1 + k - 1);
    }
    SameNumber(n - 1, n - 1 + k);
  }

  /** Two versions show the same number exactly when a multiple of PERIOD changes lies between them. */
  lemma SameNumber(v: nat, w: nat)
    requires v <= w
    ensures SeqOf(v) == SeqOf(w) <==> (w - v) % PERIOD == 0
  {
    var q, r := w / PERIOD - v / PERIOD, w % PERIOD - v % PERIOD;
    assert w - v == q * PERIOD + r;
    assert r == 0 ==> (w - v) % PERIOD == 0;
  }
}
