/**
 Bitwise operators of C's unsigned integers, as functions on natural numbers, with the
 arithmetic that the driver's shifts and masks stand for.
 */
module Bits {

  import Ring

  const WORD32: nat := 0x1_0000_0000

  function Pow2(k: nat): (p: nat)
    ensures p > 0
  {
    if k == 0 then 1 else 2 * Pow2(k - 1)
  }

  /** Bitwise `a & b`. */
  function And(a: nat, b: nat): nat {
    if a == 0 || b == 0 then 0
    else 2 * And(a / 2, b / 2) + (if a % 2 == 1 && b % 2 == 1 then 1 else 0)
  }

  /** Bitwise `a | b`. */
  function Or(a: nat, b: nat): nat {
    if a == 0 then b
    else if b == 0 then a
    else 2 * Or(a / 2, b / 2) + (if a % 2 == 1 || b % 2 == 1 then 1 else 0)
  }

  /** `x >> k`. */
  function Shr(x: nat, k: nat): nat {
    if k == 0 then x else Shr(x / 2, k - 1)
  }

  /** `x << k`, before any truncation to the width of a word. */
  function Shl(x: nat, k: nat): nat {
    if k == 0 then x else 2 * Shl(x, k - 1)
  }

  /** The low `k` bits of `x`. */
  function Low(x: nat, k: nat): nat {
    if k == 0 then 0 else x % 2 + 2 * Low(x / 2, k - 1)
  }

  /** Bit `i` of `x`. */
  predicate Bit(x: nat, i: nat) {
    Shr(x, i) % 2 == 1
  }

  lemma {:induction false} ShlIsMul(x: nat, k: nat)
    ensures Shl(x, k) == x * Pow2(k)
  {
    if k > 0 {
      ShlIsMul(x, k - 1);
    }
  }

  /** Splitting a number at bit `k`. */
  lemma {:induction false} Split(x: nat, k: nat)
    ensures x == Low(x, k) + Shl(Shr(x, k), k) && Low(x, k) < Pow2(k)
  {
    if k > 0 {
      Split(x / 2, k - 1);
    }
  }

  /** The shift is the quotient and the low bits are the remainder by the power of two. */
  lemma ShrLow(x: nat, k: nat)
    ensures Shr(x, k) == x / Pow2(k) && Low(x, k) == x % Pow2(k)
  {
    Split(x, k);
    ShlIsMul(Shr(x, k), k);
    Ring.ModUnique(x, Shr(x, k), Low(x, k), Pow2(k));
  }

  /** A split determines its two parts. */
  lemma {:induction false} Join(lo: nat, hi: nat, k: nat)
    requires lo < Pow2(k)
    ensures Low(lo + Shl(hi, k), k) == lo && Shr(lo + Shl(hi, k), k) == hi
  {
    if k > 0 {
      Join(lo / 2, hi, k - 1);
      assert (lo + Shl(hi, k)) / 2 == lo / 2 + Shl(hi, k - 1);
    }
  }

  lemma {:induction false} ShrShr(x: nat, a: nat, b: nat)
    ensures Shr(Shr(x, a), b) == Shr(x, a + b)
  {
    if a > 0 {
      ShrShr(x / 2, a - 1, b);
    }
  }

  lemma {:induction false} ShlShl(x: nat, a: nat, b: nat)
    ensures Shl(Shl(x, a), b) == Shl(x, a + b)
  {
    if b > 0 {
      ShlShl(x, a, b - 1);
    }
  }

  lemma {:induction false} ShlAdd(x: nat, y: nat, k: nat)
    ensures Shl(x + y, k) == Shl(x, k) + Shl(y, k)
  {
    if k > 0 {
      ShlAdd(x, y, k - 1);
    }
  }

  /** The low bits of the low bits. */
  lemma {:induction false} LowLow(x: nat, a: nat, b: nat)
    requires a <= b
    ensures Low(Low(x, b), a) == Low(x, a)
  {
    if a > 0 {
      LowLow(x / 2, a - 1, b - 1);
      assert Low(x, b) / 2 == Low(x / 2, b - 1);
    }
  }

  /** Shifting left and cutting at `k + d` bits keeps the low `d` bits of the operand. */
  lemma {:induction false} LowShl(x: nat, k: nat, d: nat)
    ensures Low(Shl(x, k), k + d) == Shl(Low(x, d), k)
  {
    if k > 0 {
      LowShl(x, k - 1, d);
      assert Shl(x, k) / 2 == Shl(x, k - 1);
    }
  }

  /** Shifting right and then taking low bits only looks at the low bits. */
  lemma {:induction false} ShrOfLow(x: nat, s: nat, w: nat)
    ensures Shr(Low(x, s + w), s) == Low(Shr(x, s), w)
  {
    if s > 0 {
      ShrOfLow(x / 2, s - 1, w);
      assert Low(x, s + w) / 2 == Low(x / 2, s - 1 + w);
    }
  }

  /** Masking with `2^k - 1` keeps the low `k` bits. */
  lemma {:induction false} AndMask(x: nat, k: nat)
    ensures And(x, Pow2(k) - 1) == Low(x, k)
  {
    if x == 0 {
      LowZero(k);
    } else if k > 0 {
      AndMask(x / 2, k - 1);
      assert (Pow2(k) - 1) / 2 == Pow2(k - 1) - 1;
    }
  }

  lemma {:induction false} LowZero(k: nat)
    ensures Low(0, k) == 0 && Shr(0, k) == 0 && Shl(0, k) == 0
  {
    if k > 0 {
      LowZero(k - 1);
    }
  }

  /** Masking with a mask whose low `k` bits are clear only sees the bits from `k` on. */
  lemma {:induction false} AndHigh(x: nat, m: nat, k: nat)
    ensures And(x, Shl(m, k)) == Shl(And(Shr(x, k), m), k)
  {
    if k > 0 {
      AndHigh(x / 2, m, k - 1);
      if x == 0 {
        LowZero(k);
      }
    }
  }

  /** `|` of two values without a common bit is their sum. */
  lemma {:induction false} OrDisjoint(lo: nat, hi: nat, k: nat)
    requires lo < Pow2(k)
    ensures Or(lo, Shl(hi, k)) == lo + Shl(hi, k)
  {
    if k > 0 {
      OrDisjoint(lo / 2, hi, k - 1);
    }
  }

  /** A field of `x` is nonzero exactly when one of its bits is set. */
  lemma {:induction false} FieldNonzero(x: nat, s: nat, w: nat)
    ensures Low(Shr(x, s), w) != 0 <==> exists i :: s <= i < s + w && Bit(x, i)
    decreases w
  {
    if w > 0 {
      FieldNonzero(x, s + 1, w - 1);
      ShrShr(x, s, 1);
      assert Shr(Shr(x, s), 1) == Shr(x, s) / 2;
      if Shr(x, s) % 2 == 1 {
        assert Bit(x, s);
      } else if exists i :: s <= i < s + w && Bit(x, i) {
        var i :| s <= i < s + w && Bit(x, i);
        assert s + 1 <= i < s + 1 + (w - 1);
      }
    }
  }

  lemma {:induction false} LowSmall(x: nat, k: nat)
    requires x < Pow2(k)
    ensures Low(x, k) == x
  {
    if k > 0 {
      LowSmall(x / 2, k - 1);
    }
  }

  /** XPNET_CEIL_LEN for an alignment of 2^k, `(len + align - 1) & ~(align - 1)` in 64 bits. */
  function CeilLen(len: nat, k: nat): nat
    requires k <= 64
  {
    And(len + Pow2(k) - 1, Shl(Pow2(64 - k) - 1, k))
  }

  /** The least multiple of the alignment that is not below `len`. */
  lemma CeilLenIsCeiling(len: nat, k: nat)
    requires k <= 64 && len + Pow2(k) <= Pow2(64)
    ensures len <= CeilLen(len, k) < len + Pow2(k) && CeilLen(len, k) % Pow2(k) == 0
  {
    hide And, Low, Shr, Shl, Pow2;
    var x := len + Pow2(k) - 1;
    AndHigh(x, Pow2(64 - k) - 1, k);
    AndMask(Shr(x, k), 64 - k);
    ShrOfLow(x, k, 64 - k);
    LowSmall(x, 64);
    Split(x, k);
    ShlIsMul(Shr(x, k), k);
    Ring.ModUnique(Shl(Shr(x, k), k), Shr(x, k), 0, Pow2(k));
  }

  /** The values a transmit descriptor's flag word passes through. */
  lemma FlagWords()
    ensures Or(8, 4) == 12 && Or(16, 4) == 20 && Or(8, 16) == 24 && Or(12, 16) == 28
  {
    assert Or(2, 1) == 3 && Or(4, 2) == 6;
    assert Or(4, 1) == 5 && Or(8, 2) == 10;
    assert Or(1, 2) == 3 && Or(2, 4) == 6 && Or(4, 8) == 12;
    assert Or(3, 4) == 7 && Or(6, 8) == 14;
  }

  /** Their ownership, SOP and EOP bits. */
  lemma FlagBits()
    ensures !Bit(0, 4) && !Bit(8, 4) && !Bit(12, 4)
    ensures Bit(16, 4) && Bit(20, 4) && Bit(24, 4) && Bit(28, 4)
    ensures !Bit(16, 3) && !Bit(20, 3) && Bit(24, 3) && Bit(28, 3)
    ensures !Bit(16, 2) && Bit(20, 2) && !Bit(24, 2) && Bit(28, 2)
  {
    assert Shr(0, 4) == 0 && Shr(8, 4) == 0 && Shr(12, 4) == 0;
    assert Shr(16, 2) == 4 && Shr(20, 2) == 5 && Shr(24, 2) == 6 && Shr(28, 2) == 7;
    assert Shr(16, 3) == 2 && Shr(20, 3) == 2 && Shr(24, 3) == 3 && Shr(28, 3) == 3;
    assert Shr(16, 4) == 1 && Shr(20, 4) == 1 && Shr(24, 4) == 1 && Shr(28, 4) == 1;
  }
}
