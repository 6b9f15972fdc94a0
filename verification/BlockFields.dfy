/** xp_block_number_get: a field of 1 to 32 bits out of a register of several 32-bit words. */
module BlockFields {

  import opened Bits

  /** xp_reg_mask. */
  const MASK: seq<nat> := [
    0x00000000, 0x00000001, 0x00000003,
    0x00000007, 0x0000000f, 0x0000001f,
    0x0000003f, 0x0000007f, 0x000000ff,
    0x000001ff, 0x000003ff, 0x000007ff,
    0x00000fff, 0x00001fff, 0x00003fff,
    0x00007fff, 0x0000ffff, 0x0001ffff,
    0x0003ffff, 0x0007ffff, 0x000fffff,
    0x001fffff, 0x003fffff, 0x007fffff,
    0x00ffffff, 0x01ffffff, 0x03ffffff,
    0x07ffffff, 0x0fffffff, 0x1fffffff,
    0x3fffffff, 0x7fffffff, 0xffffffff]

  /** A register: 32-bit words, least significant first. */
  ghost predicate Words32(reg: seq<nat>) {
    forall i :: 0 <= i < |reg| ==> reg[i] < Pow2(32)
  }

  /** The number the words spell. */
  function Value(reg: seq<nat>): nat {
    if reg == [] then 0 else reg[0] + Shl(Value(reg[1..]), 32)
  }

  /** The code; the word index of a field within one word is a u8, `<<` drops what leaves 32 bits. */
  function BlockNumberGet(reg: seq<nat>, startBit: nat, endBit: nat, width: nat): nat
    requires startBit <= endBit && endBit / 32 < |reg| && width <= 32
  {
    if startBit / 32 == endBit / 32 then
      var index := startBit / 32 % 256;
      var mask := if startBit != endBit then MASK[width] else 1;
      And(Shr(reg[index], startBit % 32), mask)
    else
      var word1 := Shr(reg[startBit / 32], startBit % 32);
      var word2 := Low(Shl(reg[endBit / 32], 32 - startBit % 32), 32);
      And(Or(word1, word2), MASK[width])
  }

  lemma {:induction false} MaskTable(w: nat)
    requires w <= 32
    ensures MASK[w] == Pow2(w) - 1
  {
    if w > 0 {
      MaskTable(w - 1);
      MaskDoubles(w);
    }
  }

  lemma MaskDoubles(w: nat)
    requires 1 <= w <= 32
    ensures MASK[w] == 2 * MASK[w - 1] + 1
  {
    assert w <= 16 ==> MASK[w] == 2 * MASK[w - 1] + 1;
  }

  /** Dropping whole words. */
  lemma {:induction false} ShrWords(reg: seq<nat>, q: nat)
    requires Words32(reg) && q <= |reg|
    ensures Shr(Value(reg), 32 * q) == Value(reg[q..])
  {
    hide Shl, Low, Pow2;
    if q == 0 {
      assert reg[0..] == reg;
    } else {
      ShrWords(reg[1..], q - 1);
      assert reg[1..][q - 1..] == reg[q..];
      Join(reg[0], Value(reg[1..]), 32);
      ShrShr(Value(reg), 32, 32 * (q - 1));
    }
  }

  /** Shifting a sum whose high part starts at bit `k`. */
  lemma {:induction false} ShrSum(lo: nat, hi: nat, k: nat, s: nat)
    requires s <= k
    ensures Shr(lo + Shl(hi, k), s) == Shr(lo, s) + Shl(hi, k - s)
  {
    if s > 0 {
      ShrSum(lo / 2, hi, k - 1, s - 1);
      assert (lo + Shl(hi, k)) / 2 == lo / 2 + Shl(hi, k - 1);
    }
  }

  /** Cutting a sum whose high part starts at bit `k`. */
  lemma {:induction false} LowSum(lo: nat, hi: nat, k: nat, d: nat)
    requires lo < Pow2(k)
    ensures Low(lo + Shl(hi, k), k + d) == lo + Shl(Low(hi, d), k)
  {
    if k > 0 {
      LowSum(lo / 2, hi, k - 1, d);
      assert (lo + Shl(hi, k)) / 2 == lo / 2 + Shl(hi, k - 1);
    }
  }

  lemma {:induction false} ShrBound(x: nat, k: nat, s: nat)
    requires s <= k && x < Pow2(k)
    ensures Shr(x, s) < Pow2(k - s)
  {
    if s > 0 {
      ShrBound(x / 2, k - 1, s - 1);
    }
  }

  /** A field inside the first word. */
  lemma InOneWord(reg: seq<nat>, s: nat, w: nat)
    requires Words32(reg) && reg != [] && s + w <= 32
    ensures Low(Shr(Value(reg), s), w) == Low(Shr(reg[0], s), w)
  {
    hide Shl, Shr, Low, Pow2;
    var x := Value(reg);
    Join(reg[0], Value(reg[1..]), 32);
    ShrOfLow(x, s, w);
    LowLow(x, s + w, 32);
    ShrOfLow(reg[0], s, w);
  }

  /** The first 32 bits from bit `s` on, across the first two words. */
  lemma AcrossTwoWords(reg: seq<nat>, s: nat)
    requires Words32(reg) && |reg| >= 2 && 0 < s < 32
    ensures Low(Shr(Value(reg), s), 32) == Or(Shr(reg[0], s), Low(Shl(reg[1], 32 - s), 32))
  {
    hide Or, Shl, Shr, Low, Pow2;
    var a, b := reg[0], reg[1];
    var y := Value(reg[1..]);
    var k := 32 - s;
    ShrSum(a, y, 32, s);
    ShrBound(a, 32, s);
    LowSum(Shr(a, s), y, k, s);
    assert y == b + Shl(Value(reg[1..][1..]), 32);
    Join(b, Value(reg[1..][1..]), 32);
    LowLow(y, s, 32);
    LowShl(b, k, s);
    OrDisjoint(Shr(a, s), Low(b, s), k);
  }

  /** The field straddles two words, or its word number fits the u8 index. */
  predicate Indexable(start: nat, width: nat) {
    start / 32 < 256 || start / 32 != (start + width - 1) / 32
  }

  /**
   Bit-field extraction is division and remainder: for every register and every field of 1 to 32
   bits that lies in it, straddling two words or not, the code computes floor(R / 2^start) mod 2^width.
   */
  lemma FieldIsQuotientRemainder(reg: seq<nat>, start: nat, width: nat)
    requires Words32(reg) && 1 <= width <= 32 && (start + width - 1) / 32 < |reg|
    requires Indexable(start, width)
    ensures BlockNumberGet(reg, start, start + width - 1, width) == Value(reg) / Pow2(start) % Pow2(width)
  {
    FieldBits(reg, start, width);
    ShrLow(Value(reg), start);
    ShrLow(Shr(Value(reg), start), width);
  }

  lemma FieldBits(reg: seq<nat>, start: nat, width: nat)
    requires Words32(reg) && 1 <= width <= 32 && (start + width - 1) / 32 < |reg|
    requires Indexable(start, width)
    ensures BlockNumberGet(reg, start, start + width - 1, width) == Low(Shr(Value(reg), start), width)
  {
    hide Or, And, Value, Shl, Shr, Low, Pow2, BlockNumberGet;
    if start / 32 == (start + width - 1) / 32 {
      FieldInWord(reg, start, width);
    } else {
      FieldAcross(reg, start, width);
    }
  }

  lemma FieldInWord(reg: seq<nat>, start: nat, width: nat)
    requires Words32(reg) && 1 <= width <= 32 && (start + width - 1) / 32 == start / 32 < |reg| && start / 32 < 256
    ensures BlockNumberGet(reg, start, start + width - 1, width) == Low(Shr(Value(reg), start), width)
  {
    hide Or, And, Value, Shl, Shr, Low, Pow2;
    var q, s := start / 32, start % 32;
    ShrWords(reg, q);
    ShrShr(Value(reg), 32 * q, s);
    InOneWord(reg[q..], s, width);
    AndMask(Shr(reg[q], s), width);
    MaskTable(width);
    MaskTable(1);
  }

  lemma FieldAcross(reg: seq<nat>, start: nat, width: nat)
    requires Words32(reg) && 1 <= width <= 32 && start / 32 < (start + width - 1) / 32 < |reg|
    ensures BlockNumberGet(reg, start, start + width - 1, width) == Low(Shr(Value(reg), start), width)
  {
    hide Or, And, Value, Shl, Shr, Low, Pow2;
    var q, s := start / 32, start % 32;
    assert (start + width - 1) / 32 == q + 1;
    ShrWords(reg, q);
    ShrShr(Value(reg), 32 * q, s);
    AcrossTwoWords(reg[q..], s);
    var x := Shr(Value(reg), start);
    LowLow(x, width, 32);
    AndMask(Low(x, 32), width);
    MaskTable(width);
  }

  /**
   The u8 word index is what bounds the result above: for a field inside one word beyond bit 8191
   some register makes the code return 0 where the field is 1.
   */
  lemma IndexTruncates(start: nat, width: nat) returns (reg: seq<nat>)
    requires 1 <= width <= 32 && !Indexable(start, width)
    ensures Words32(reg) && |reg| == start / 32 + 1
    ensures BlockNumberGet(reg, start, start + width - 1, width) == 0
    ensures Value(reg) / Pow2(start) % Pow2(width) == 1
  {
    hide Shl, Shr, Low, Pow2, Value;
    var q, s := start / 32, start % 32;
    Pow2Less(s, 32);
    reg := seq(q + 1, i => if i == q then Pow2(s) else 0);
    ShrWords(reg, q);
    ShrShr(Value(reg), 32 * q, s);
    InOneWord(reg[q..], s, width);
    Join(0, 1, s);
    ShlIsMul(1, s);
    assert Shr(Pow2(s), s) == 1;
    Pow2Less(0, width);
    PowZero();
    LowSmall(1, width);
    ShrLow(Value(reg), start);
    ShrLow(Shr(Value(reg), start), width);
    assert reg[q % 256] == 0;
    LowZero(s);
    assert And(0, MASK[width]) == 0 && And(0, 1) == 0;
  }

  /** The code reads position (start, width) right in every register if and only if it is indexable. */
  lemma ExtractionExactIff(start: nat, width: nat)
    requires 1 <= width <= 32
    ensures (forall reg :: Words32(reg) && (start + width - 1) / 32 < |reg| ==>
               BlockNumberGet(reg, start, start + width - 1, width) == Value(reg) / Pow2(start) % Pow2(width))
            <==> Indexable(start, width)
  {
    hide BlockNumberGet, Words32, Value;
    if Indexable(start, width) {
      forall reg | Words32(reg) && (start + width - 1) / 32 < |reg|
        ensures BlockNumberGet(reg, start, start + width - 1, width) == Value(reg) / Pow2(start) % Pow2(width)
      {
        FieldIsQuotientRemainder(reg, start, width);
      }
    } else {
      var reg := IndexTruncates(start, width);
      assert BlockNumberGet(reg, start, start + width - 1, width) != Value(reg) / Pow2(start) % Pow2(width);
    }
  }

  lemma PowZero()
    ensures Pow2(0) == 1
  {
  }

  lemma {:induction false} Pow2Less(a: nat, b: nat)
    requires a < b
    ensures Pow2(a) < Pow2(b) && Pow2(b) >= 2
    decreases b
  {
    if a < b - 1 {
      Pow2Less(a, b - 1);
    }
  }

  /** A block's field is nonzero exactly when a bit of the register inside it is set. */
  lemma FieldSetIffBit(reg: seq<nat>, start: nat, width: nat)
    requires Words32(reg) && 1 <= width <= 32 && (start + width - 1) / 32 < |reg| && Indexable(start, width)
    ensures BlockNumberGet(reg, start, start + width - 1, width) != 0 <==> AnyBit(Value(reg), start, start + width - 1)
  {
    FieldBits(reg, start, width);
    hide BlockNumberGet, Value;
    AnyBitOf(Value(reg), start, width);
  }

  /** One of the bits from `start` to `end` is set. */
  ghost predicate AnyBit(x: nat, start: nat, end: nat) {
    exists i :: start <= i <= end && Bit(x, i)
  }

  lemma AnyBitOf(x: nat, start: nat, width: nat)
    requires 1 <= width
    ensures Low(Shr(x, start), width) != 0 <==> AnyBit(x, start, start + width - 1)
  {
    hide Low, Shr;
    FieldNonzero(x, start, width);
  }

  /** Bit `i` of the register is bit `i % 32` of its word `i / 32`. */
  lemma BitOfWord(reg: seq<nat>, i: nat)
    requires Words32(reg) && i / 32 < |reg|
    ensures Bit(Value(reg), i) <==> Bit(reg[i / 32], i % 32)
  {
    hide Shl, Value, Pow2;
    var q, s := i / 32, i % 32;
    ShrWords(reg, q);
    ShrShr(Value(reg), 32 * q, s);
    InOneWord(reg[q..], s, 1);
  }
}
