/** Integer bit arithmetic: the width of a number, powers of two, and the bitwise
    `or` that packs command words. */
module Bits {

  function Pow2(k: nat): (p: nat)
    ensures p >= 1
  {
    if k == 0 then 1 else 2 * Pow2(k - 1)
  }

  /** How many binary digits `n` needs; zero needs none. */
  function BitLength(n: nat): nat {
    if n == 0 then 0 else 1 + BitLength(n / 2)
  }

  /** The width is the least exponent whose power of two exceeds the number. */
  lemma {:induction false} BitLengthIsWidth(n: nat, k: nat)
    ensures BitLength(n) <= k <==> n < Pow2(k)
  {
    if n > 0 && k > 0 {
      BitLengthIsWidth(n / 2, k - 1);
    } else if n > 0 {
      assert BitLength(n) >= 1;
    }
  }

  lemma {:induction false} BitLengthMonotone(a: nat, b: nat)
    requires a <= b
    ensures BitLength(a) <= BitLength(b)
  {
    if a > 0 {
      BitLengthMonotone(a / 2, b / 2);
    }
  }

  /** Halving a set of `t` cores, larger half first, takes exactly one bit off the
      width of `t - 1`; the smaller half is no wider. */
  lemma HalvingDropsOneBit(t: nat)
    requires t >= 2
    ensures BitLength((t + 1) / 2 - 1) == BitLength(t - 1) - 1
    ensures BitLength(t / 2 - 1) <= BitLength(t - 1) - 1
  {
    assert (t + 1) / 2 - 1 == (t - 1) / 2;
    BitLengthMonotone(t / 2 - 1, (t - 1) / 2);
  }

  /** Bitwise `or` of two non-negative integers, one binary digit at a time. */
  function BitOr(a: nat, b: nat): nat {
    if a == 0 && b == 0 then 0
    else 2 * BitOr(a / 2, b / 2) + (if a % 2 == 1 || b % 2 == 1 then 1 else 0)
  }

  lemma {:induction false} BitOrZero(a: nat)
    ensures BitOr(a, 0) == a
  {
    if a > 0 {
      BitOrZero(a / 2);
    }
  }

  /** A field shifted above the width of another never overlaps it: `or` is a sum. */
  lemma {:induction false} BitOrOfDisjointFields(hi: nat, k: nat, lo: nat)
    requires lo < Pow2(k)
    ensures BitOr(hi * Pow2(k), lo) == hi * Pow2(k) + lo
  {
    if k == 0 {
      BitOrZero(hi);
    } else {
      var half := hi * Pow2(k - 1);
      assert hi * Pow2(k) == 2 * half;
      assert (2 * half) / 2 == half && (2 * half) % 2 == 0;
      BitOrOfDisjointFields(hi, k - 1, lo / 2);
    }
  }
}
