/** The MSI handlers: which blocks of an interrupt summary register get reported. */
module Irq {

  import opened Bits
  import opened BlockFields

  /** Start bit, end bit and width of each block. */
  datatype Table = Table(start: seq<nat>, end: seq<nat>, width: seq<nat>)

  const HP_START: seq<nat> := [
     0,  1,  2,  3,   4,   5,   6,
     7,  8,  9, 11,  23,  26,  30,
    31, 32, 33, 34,  35,  47,  50,
    54, 55, 56, 57,  58,  59,  60,
    76, 78, 80, 82, 114, 115, 116]

  const HP_END: seq<nat> := [
     0,  1,  2,   3,   4,  5,    6,
     7,  8, 10,  22,  25, 29,   30,
    31, 32, 33,  34,  46, 49,   53,
    54, 55, 56,  57,  58, 59,   75,
    77, 79, 81, 113, 114, 115, 116]

  const HP_WIDTH: seq<nat> := [
    1, 1, 1,  1,  1, 1,  1,
    1, 1, 2, 12,  3, 4,  1,
    1, 1, 1,  1, 12, 3,  4,
    1, 1, 1,  1,  1, 1, 16,
    2, 2, 2, 32,  1, 1,  1]

  const LP_START: seq<nat> := [
     0,  1,  2,  3,  4,  5,  6,  7,  8,  9, 11,
    23, 26, 30, 31, 32, 33, 34, 35, 47, 50, 54,
    55, 56, 57, 58, 59, 60, 76, 78, 80, 82, 83]

  const LP_END: seq<nat> := [
     0,  1,  2,  3,  4,  5,  6,  7,  8, 10, 22,
    25, 29, 30, 31, 32, 33, 34, 46, 49, 53, 54,
    55, 56, 57, 58, 59, 75, 77, 79, 81, 82, 83]

  const LP_WIDTH: seq<nat> := [
    1, 1, 1, 1, 1,  1, 1,  1, 1, 2, 12,
    3, 4, 1, 1, 1,  1, 1, 12, 3, 4,  1,
    1, 1, 1, 1, 1, 16, 2,  2, 2, 1,  1]

  const HIGH_PRIO: Table := Table(HP_START, HP_END, HP_WIDTH)
  const LOW_PRIO: Table := Table(LP_START, LP_END, LP_WIDTH)

  const NUM_HP_BLOCKS: nat := 35
  const NUM_LP_BLOCKS: nat := 33

  /** Consecutive blocks of at most 32 bits that together are the bits 0..last. */
  ghost predicate Partition(t: Table, last: nat) {
    && |t.start| == |t.end| == |t.width| > 0
    && t.start[0] == 0 && t.end[|t.end| - 1] == last
    && (forall b :: 0 <= b < |t.start| ==> t.start[b] <= t.end[b] && t.width[b] == t.end[b] - t.start[b] + 1 && t.width[b] <= 32)
    && (forall b :: 0 <= b < |t.start| - 1 ==> t.start[b + 1] == t.end[b] + 1)
  }

  lemma HpEnds(b: nat)
    requires b < NUM_HP_BLOCKS
    ensures |HP_START| == |HP_END| == |HP_WIDTH| == NUM_HP_BLOCKS
    ensures HP_WIDTH[b] <= 32 && HP_START[b] <= HP_END[b]
  {
  }

  lemma HpWidth(b: nat)
    requires b < NUM_HP_BLOCKS
    ensures |HP_START| == |HP_END| == |HP_WIDTH| == NUM_HP_BLOCKS
    ensures HP_WIDTH[b] == HP_END[b] - HP_START[b] + 1
  {
  }

  lemma HpNext(b: nat)
    requires b < NUM_HP_BLOCKS - 1
    ensures |HP_START| == |HP_END| == NUM_HP_BLOCKS && HP_START[b + 1] == HP_END[b] + 1
  {
  }

  lemma LpEnds(b: nat)
    requires b < NUM_LP_BLOCKS
    ensures |LP_START| == |LP_END| == |LP_WIDTH| == NUM_LP_BLOCKS
    ensures LP_WIDTH[b] <= 32 && LP_START[b] <= LP_END[b]
  {
  }

  lemma LpWidth(b: nat)
    requires b < NUM_LP_BLOCKS
    ensures |LP_START| == |LP_END| == |LP_WIDTH| == NUM_LP_BLOCKS
    ensures LP_WIDTH[b] == LP_END[b] - LP_START[b] + 1
  {
  }

  lemma LpNext(b: nat)
    requires b < NUM_LP_BLOCKS - 1
    ensures |LP_START| == |LP_END| == NUM_LP_BLOCKS && LP_START[b + 1] == LP_END[b] + 1
  {
  }

  /** The high-priority table partitions the bits 0..116 of its register. */
  lemma HighPartition()
    ensures Partition(HIGH_PRIO, 116) && |HIGH_PRIO.start| == NUM_HP_BLOCKS
  {
    forall b: nat | b < NUM_HP_BLOCKS
      ensures HIGH_PRIO.start[b] <= HIGH_PRIO.end[b] && HIGH_PRIO.width[b] <= 32
              && HIGH_PRIO.width[b] == HIGH_PRIO.end[b] - HIGH_PRIO.start[b] + 1
    {
      HpEnds(b);
      HpWidth(b);
    }
    forall b: nat | b < NUM_HP_BLOCKS - 1
      ensures HIGH_PRIO.start[b + 1] == HIGH_PRIO.end[b] + 1
    {
      HpNext(b);
    }
  }

  /** The low-priority table partitions the bits 0..83 of its register. */
  lemma LowPartition()
    ensures Partition(LOW_PRIO, 83) && |LOW_PRIO.start| == NUM_LP_BLOCKS
  {
    forall b: nat | b < NUM_LP_BLOCKS
      ensures LOW_PRIO.start[b] <= LOW_PRIO.end[b] && LOW_PRIO.width[b] <= 32
              && LOW_PRIO.width[b] == LOW_PRIO.end[b] - LOW_PRIO.start[b] + 1
    {
      LpEnds(b);
      LpWidth(b);
    }
    forall b: nat | b < NUM_LP_BLOCKS - 1
      ensures LOW_PRIO.start[b + 1] == LOW_PRIO.end[b] + 1
    {
      LpNext(b);
    }
  }

  /** The block a bit of the high-priority register belongs to, by number. */
  function HighBlockOf(i: nat): nat {
    if i <= 8 then i
    else if i <= 10 then 9
    else if i <= 22 then 10
    else if i <= 25 then 11
    else if i <= 29 then 12
    else if i <= 34 then i - 17
    else if i <= 46 then 18
    else if i <= 49 then 19
    else if i <= 53 then 20
    else if i <= 59 then i - 33
    else if i <= 75 then 27
    else if i <= 81 then i / 2 - 10
    else if i <= 113 then 31
    else i - 82
  }

  /** And of the low-priority register: the same up to bit 81, then two blocks of one bit. */
  function LowBlockOf(i: nat): nat {
    if i <= 81 then HighBlockOf(i) else i - 51
  }

  lemma HighStarts(i: nat)
    requires i <= 116
    ensures |HP_START| == 35 && HighBlockOf(i) < 35 && HP_START[HighBlockOf(i)] <= i
  {
  }

  lemma HighEndsAt(i: nat)
    requires i <= 116
    ensures |HP_END| == 35 && HighBlockOf(i) < 35 && i <= HP_END[HighBlockOf(i)]
  {
  }

  lemma LowStarts(i: nat)
    requires i <= 83
    ensures |LP_START| == 33 && LowBlockOf(i) < 33 && LP_START[LowBlockOf(i)] <= i
  {
  }

  lemma LowEndsAt(i: nat)
    requires i <= 83
    ensures |LP_END| == 33 && LowBlockOf(i) < 33 && i <= LP_END[LowBlockOf(i)]
  {
  }

  /** In a partition a bit has no other block than the one found. */
  lemma OnlyBlock(t: Table, last: nat, i: nat, k: nat, b: nat)
    requires Partition(t, last) && i <= last && k < |t.start| && t.start[k] <= i <= t.end[k]
    ensures InBlock(t, b, i) <==> b == k
  {
    var d := BlockOfBit(t, last, i, |t.start| - 1);
  }

  /** Which block each bit of the high-priority register is reported as. */
  lemma HighBlockIs(i: nat, b: nat)
    requires i <= 116
    ensures InBlock(HIGH_PRIO, b, i) <==> b == HighBlockOf(i)
  {
    hide HighBlockOf, Partition, InBlock;
    HighPartition();
    HighStarts(i);
    HighEndsAt(i);
    OnlyBlock(HIGH_PRIO, 116, i, HighBlockOf(i), b);
  }

  /** And each bit of the low-priority register. */
  lemma LowBlockIs(i: nat, b: nat)
    requires i <= 83
    ensures InBlock(LOW_PRIO, b, i) <==> b == LowBlockOf(i)
  {
    hide LowBlockOf, Partition, InBlock;
    LowPartition();
    LowStarts(i);
    LowEndsAt(i);
    OnlyBlock(LOW_PRIO, 83, i, LowBlockOf(i), b);
  }

  /** Every bit up to the last lies in one block and no other. */
  lemma {:induction false} BlockOfBit(t: Table, last: nat, i: nat, n: nat) returns (b: nat)
    requires Partition(t, last) && n < |t.start| && i <= t.end[n]
    ensures b <= n && t.start[b] <= i <= t.end[b]
    ensures forall d :: 0 <= d < |t.start| && t.start[d] <= i <= t.end[d] ==> d == b
    decreases n
  {
    if t.start[n] <= i {
      b := n;
    } else {
      assert t.start[n - 1 + 1] == t.end[n - 1] + 1;
      b := BlockOfBit(t, last, i, n - 1);
    }
    forall d | 0 <= d < |t.start| && t.start[d] <= i <= t.end[d]
      ensures d == b
    {
      if d < b {
        Ordered(t, last, d, b);
      } else if b < d {
        Ordered(t, last, b, d);
      }
    }
  }

  lemma Neighbours(t: Table, last: nat, b: nat)
    requires Partition(t, last) && 0 < b < |t.start|
    ensures |t.end| == |t.start| && t.start[b - 1] <= t.end[b - 1] < t.start[b]
  {
    assert t.start[b - 1 + 1] == t.end[b - 1] + 1;
  }

  lemma {:induction false} Ordered(t: Table, last: nat, a: nat, b: nat)
    requires Partition(t, last) && a < b < |t.start| == |t.end|
    ensures t.end[a] < t.start[b]
    decreases b
  {
    hide Partition;
    Neighbours(t, last, b);
    if a < b - 1 {
      Ordered(t, last, a, b - 1);
    }
  }

  ghost predicate EndsBelow(t: Table, bits: nat) {
    && |t.start| == |t.end| == |t.width|
    && forall b :: 0 <= b < |t.start| ==> t.start[b] <= t.end[b] < bits && t.width[b] <= 32
  }

  lemma PartitionEnds(t: Table, last: nat)
    requires Partition(t, last)
    ensures EndsBelow(t, last + 1)
  {
    forall b | 0 <= b < |t.start|
      ensures t.end[b] <= last
    {
      if b < |t.start| - 1 {
        Ordered(t, last, b, |t.start| - 1);
      }
    }
  }

  /** The blocks below `n` whose field is nonzero, in increasing order. */
  function Active(t: Table, reg: seq<nat>, n: nat): seq<nat>
    requires EndsBelow(t, 32 * |reg|) && n <= |t.start|
  {
    if n == 0 then []
    else if BlockNumberGet(reg, t.start[n - 1], t.end[n - 1], t.width[n - 1]) != 0
    then Active(t, reg, n - 1) + [n - 1]
    else Active(t, reg, n - 1)
  }

  /** Some bit of block `b` is set. */
  ghost predicate BlockSet(t: Table, reg: seq<nat>, b: nat)
    requires b < |t.start| && b < |t.end|
  {
    AnyBit(Value(reg), t.start[b], t.end[b])
  }

  ghost predicate Increasing(s: seq<nat>) {
    forall i, j :: 0 <= i < j < |s| ==> s[i] < s[j]
  }

  lemma {:induction false} ActiveIncreasing(t: Table, reg: seq<nat>, n: nat)
    requires EndsBelow(t, 32 * |reg|) && n <= |t.start|
    ensures Increasing(Active(t, reg, n)) && forall i :: 0 <= i < |Active(t, reg, n)| ==> Active(t, reg, n)[i] < n
    decreases n
  {
    hide BlockNumberGet;
    if n > 0 {
      ActiveIncreasing(t, reg, n - 1);
    }
  }

  lemma BlockSetIffField(t: Table, last: nat, reg: seq<nat>, b: nat)
    requires Partition(t, last) && Words32(reg) && last < 32 * |reg| <= 8192 && b < |t.start|
    ensures EndsBelow(t, 32 * |reg|)
    ensures BlockNumberGet(reg, t.start[b], t.end[b], t.width[b]) != 0 <==> BlockSet(t, reg, b)
  {
    hide BlockNumberGet, AnyBit;
    PartitionEnds(t, last);
    assert t.end[b] == t.start[b] + t.width[b] - 1 && t.end[b] < 32 * |reg|;
    FieldSetIffBit(reg, t.start[b], t.width[b]);
  }

  /** The reported blocks are, in increasing order and once each, exactly those with a set bit. */
  lemma {:induction false} ActiveExact(t: Table, last: nat, reg: seq<nat>, n: nat, b: nat)
    requires Partition(t, last) && Words32(reg) && last < 32 * |reg| <= 8192 && n <= |t.start|
    ensures EndsBelow(t, 32 * |reg|)
    ensures Increasing(Active(t, reg, n))
    ensures b in Active(t, reg, n) <==> b < n && BlockSet(t, reg, b)
    decreases n
  {
    hide BlockNumberGet, BlockSet, Increasing, Words32, Partition;
    PartitionEnds(t, last);
    ActiveIncreasing(t, reg, n);
    if n > 0 {
      var most := Active(t, reg, n - 1);
      ActiveExact(t, last, reg, n - 1, b);
      BlockSetIffField(t, last, reg, n - 1);
      assert b in most + [n - 1] <==> b in most || b == n - 1;
    }
  }

  // -------------------------------------------------------------------- handlers

  datatype Report = Report(high: bool, block: nat)

  function Reports(high: bool, blocks: seq<nat>): seq<Report> {
    seq(|blocks|, i requires 0 <= i < |blocks| => Report(high, blocks[i]))
  }

  /**
   xp_irq_handler with room for `budget` work items before an allocation fails. It queues the
   active blocks in increasing order, or as many as fit and reports the failure.
   */
  method IrqHandler(t: Table, blocks: nat, reg: seq<nat>, budget: nat) returns (failed: bool, queued: seq<Report>)
    requires blocks == |t.start| && EndsBelow(t, 32 * |reg|)
    ensures var all := Reports(blocks == NUM_HP_BLOCKS, Active(t, reg, blocks));
            && failed == (|all| > budget)
            && queued == if failed then all[..budget] else all
  {
    hide BlockNumberGet;
    queued := [];
    ghost var high := blocks == NUM_HP_BLOCKS;
    for b := 0 to blocks
      invariant queued == Reports(high, Active(t, reg, b)) && |queued| <= budget
    {
      if BlockNumberGet(reg, t.start[b], t.end[b], t.width[b]) != 0 {
        if |queued| == budget {
          ActiveGrows(t, reg, b + 1, blocks);
          ghost var all := Active(t, reg, blocks);
          assert Active(t, reg, b) == all[..budget];
          assert queued == Reports(high, all)[..budget];
          return true, queued;
        }
        queued := queued + [Report(blocks == NUM_HP_BLOCKS, b)];
      }
    }
    failed := false;
  }

  lemma {:induction false} ActiveGrows(t: Table, reg: seq<nat>, m: nat, n: nat)
    requires EndsBelow(t, 32 * |reg|) && m <= n <= |t.start|
    ensures Active(t, reg, m) <= Active(t, reg, n)
    decreases n
  {
    hide BlockNumberGet;
    if m < n {
      ActiveGrows(t, reg, m, n - 1);
    }
  }

  /** A mask of one bit tests that bit. */
  lemma AndOneBit(x: nat, k: nat)
    ensures And(x, Shl(1, k)) != 0 <==> Bit(x, k)
  {
    AndHigh(x, 1, k);
    ShlIsMul(And(Shr(x, k), 1), k);
    AndMask(Shr(x, k), 1);
    var y := Shr(x, k);
    assert Low(y, 1) == y % 2 by { assert Low(y / 2, 0) == 0; }
    assert Pow2(1) - 1 == 1;
  }

  datatype Handled = Mgmt | Blocks(failed: bool, queued: seq<Report>)

  /** What a handler leaves behind for the blocks of `t` with room for `budget` work items. */
  ghost predicate Served(t: Table, high: bool, reg: seq<nat>, budget: nat, r: Handled) {
    && r.Blocks? && EndsBelow(t, 32 * |reg|)
    && (var all := Reports(high, Active(t, reg, |t.start|));
        r.failed == (|all| > budget) && r.queued == if r.failed then all[..budget] else all)
  }

  lemma {:induction false} NothingActive(t: Table, reg: seq<nat>, n: nat)
    requires EndsBelow(t, 32 * |reg|) && n <= |t.start| && forall i :: 0 <= i < |reg| ==> reg[i] == 0
    ensures Active(t, reg, n) == []
    decreases n
  {
    hide BlockNumberGet;
    if n > 0 {
      NothingActive(t, reg, n - 1);
      ZeroField(reg, t.start[n - 1], t.end[n - 1], t.width[n - 1]);
    }
  }

  lemma ZeroField(reg: seq<nat>, startBit: nat, endBit: nat, width: nat)
    requires startBit <= endBit && endBit / 32 < |reg| && width <= 32 && forall i :: 0 <= i < |reg| ==> reg[i] == 0
    ensures BlockNumberGet(reg, startBit, endBit, width) == 0
  {
    hide Shr, Shl, Low;
    LowZero(startBit % 32);
    LowZero(32 - startBit % 32);
    LowZero(32);
  }

  /** The common end of both handlers: skip an all-zero register, else scan the blocks. */
  method Serve(t: Table, blocks: nat, reg: seq<nat>, budget: nat) returns (r: Handled)
    requires |reg| == 4 && blocks == |t.start| && EndsBelow(t, 128)
    ensures Served(t, blocks == NUM_HP_BLOCKS, reg, budget, r)
  {
    hide Active;
    if reg[0] == 0 && reg[1] == 0 && reg[2] == 0 && reg[3] == 0 {
      NothingActive(t, reg, blocks);
      return Blocks(false, []);
    }
    var failed, queued := IrqHandler(t, blocks, reg, budget);
    r := Blocks(failed, queued);
  }

  /**
   xp_msi_irq_handler_high. With the management bit 116 set only that is served; otherwise the
   queued reports are exactly the blocks with a set bit.
   */
  method MsiHigh(reg: seq<nat>, budget: nat) returns (r: Handled)
    requires |reg| == 4 && Words32(reg)
    ensures r.Mgmt? <==> Bit(Value(reg), 116)
    ensures !r.Mgmt? ==> Served(HIGH_PRIO, true, reg, budget, r)
  {
    hide Active, And, Bit, Value, Shl;
    MgmtBit(reg, 3, 20, 0x100000);
    if And(reg[3], 0x100000) != 0 {
      return Mgmt;
    }
    HighEnds();
    r := Serve(HIGH_PRIO, NUM_HP_BLOCKS, reg, budget);
  }

  lemma HighEnds()
    ensures EndsBelow(HIGH_PRIO, 128) && |HIGH_PRIO.start| == NUM_HP_BLOCKS
  {
    HighPartition();
    PartitionEnds(HIGH_PRIO, 116);
  }

  lemma LowEnds()
    ensures EndsBelow(LOW_PRIO, 96) && |LOW_PRIO.start| == NUM_LP_BLOCKS
  {
    LowPartition();
    PartitionEnds(LOW_PRIO, 83);
  }

  /** The management bit as the handlers test it, by a mask on one word. */
  lemma MgmtBit(reg: seq<nat>, word: nat, k: nat, mask: nat)
    requires Words32(reg) && word < |reg| && k < 32
    requires (mask == 0x100000 && k == 20) || (mask == 0x80000 && k == 19)
    ensures And(reg[word], mask) != 0 <==> Bit(Value(reg), 32 * word + k)
  {
    hide And, Bit, Value;
    BitOfWord(reg, 32 * word + k);
    AndOneBit(reg[word], k);
    MaskLiterals();
  }

  lemma MaskLiterals()
    ensures Shl(1, 20) == 0x100000 && Shl(1, 19) == 0x80000
  {
    ShlShl(1, 5, 5);
    ShlShl(1, 10, 5);
    ShlShl(1, 15, 5);
  }

  /**
   xp_msi_irq_handler_low loads three words and leaves `stale` in the fourth. What it queues is
   determined by the three loaded words.
   */
  method MsiLow(loaded: seq<nat>, stale: nat, budget: nat) returns (r: Handled)
    requires |loaded| == 3 && Words32(loaded)
    ensures r.Mgmt? <==> Bit(Value(loaded), 83)
    ensures !r.Mgmt? ==> Served(LOW_PRIO, false, loaded, budget, r)
  {
    hide And, Bit, Value, Shl, Active;
    var reg := loaded + [stale];
    MgmtBit(loaded, 2, 19, 0x80000);
    if And(reg[2], 0x80000) != 0 {
      return Mgmt;
    }
    LowEnds();
    StaleIgnored(LOW_PRIO, loaded, stale, NUM_LP_BLOCKS);
    r := Serve(LOW_PRIO, NUM_LP_BLOCKS, reg, budget);
  }

  lemma {:induction false} StaleIgnored(t: Table, loaded: seq<nat>, stale: nat, n: nat)
    requires EndsBelow(t, 32 * |loaded|) && n <= |t.start|
    ensures EndsBelow(t, 32 * |loaded + [stale]|)
    ensures Active(t, loaded + [stale], n) == Active(t, loaded, n)
    decreases n
  {
    hide And, Or, Shr, Shl, Low;
    if n > 0 {
      StaleIgnored(t, loaded, stale, n - 1);
    }
  }

  /**
   Put together: with the management bit clear and no failed allocation, the high-priority handler
   queues block `b` if and only if one of its bits is set.
   */
  lemma HighFanOut(reg: seq<nat>, budget: nat, r: Handled, b: nat)
    requires |reg| == 4 && Words32(reg) && Served(HIGH_PRIO, true, reg, budget, r)
    ensures !r.failed ==> (Report(true, b) in r.queued <==> b < NUM_HP_BLOCKS && BlockSet(HIGH_PRIO, reg, b))
    ensures budget >= NUM_HP_BLOCKS ==> !r.failed
  {
    hide Active, BlockSet;
    HighPartition();
    ActiveExact(HIGH_PRIO, 116, reg, NUM_HP_BLOCKS, b);
    ActiveCount(HIGH_PRIO, reg, NUM_HP_BLOCKS);
    ReportsIn(true, Active(HIGH_PRIO, reg, NUM_HP_BLOCKS), b);
  }

  /** No set bit up to 116 goes unreported, and it is reported as one block. */
  lemma SetBitReported(reg: seq<nat>, budget: nat, r: Handled, i: nat) returns (b: nat)
    requires |reg| == 4 && Words32(reg) && Served(HIGH_PRIO, true, reg, budget, r) && !r.failed
    requires i <= 116 && Bit(Value(reg), i)
    ensures b == HighBlockOf(i) < 35 && Report(true, b) in r.queued
    ensures forall d: nat :: d < NUM_HP_BLOCKS ==> (InBlock(HIGH_PRIO, d, i) <==> d == b)
  {
    hide Active, Value, Bit, BlockSet, HighBlockOf;
    HighPartition();
    HighBlockIs(i, HighBlockOf(i));
    b := OwningBlock(HIGH_PRIO, 116, reg, i);
    HighFanOut(reg, budget, r, b);
  }

  predicate InBlock(t: Table, b: nat, i: nat) {
    b < |t.start| && b < |t.end| && t.start[b] <= i <= t.end[b]
  }

  lemma OwningBlock(t: Table, last: nat, reg: seq<nat>, i: nat) returns (b: nat)
    requires Partition(t, last) && i <= last && Bit(Value(reg), i)
    ensures b < |t.start| && BlockSet(t, reg, b)
    ensures forall d: nat :: d < |t.start| ==> (InBlock(t, d, i) <==> d == b)
  {
    b := BlockOfBit(t, last, i, |t.start| - 1);
  }

  lemma LowFanOut(loaded: seq<nat>, budget: nat, r: Handled, b: nat)
    requires |loaded| == 3 && Words32(loaded) && Served(LOW_PRIO, false, loaded, budget, r)
    ensures !r.failed ==> (Report(false, b) in r.queued <==> b < NUM_LP_BLOCKS && BlockSet(LOW_PRIO, loaded, b))
    ensures budget >= NUM_LP_BLOCKS ==> !r.failed
  {
    hide Active, BlockSet;
    LowPartition();
    ActiveExact(LOW_PRIO, 83, loaded, NUM_LP_BLOCKS, b);
    ActiveCount(LOW_PRIO, loaded, NUM_LP_BLOCKS);
    ReportsIn(false, Active(LOW_PRIO, loaded, NUM_LP_BLOCKS), b);
  }

  lemma {:induction false} ActiveCount(t: Table, reg: seq<nat>, n: nat)
    requires EndsBelow(t, 32 * |reg|) && n <= |t.start|
    ensures |Active(t, reg, n)| <= n
    decreases n
  {
    hide BlockNumberGet;
    if n > 0 {
      ActiveCount(t, reg, n - 1);
    }
  }

  lemma ReportsIn(high: bool, blocks: seq<nat>, b: nat)
    ensures Report(high, b) in Reports(high, blocks) <==> b in blocks
  {
    if b in blocks {
      var i :| 0 <= i < |blocks| && blocks[i] == b;
      assert Reports(high, blocks)[i] == Report(high, b);
    }
  }
}
