/** xp_irq_mgmt_handler: one DMA queue interrupt per call, found and acknowledged. */
module MgmtIrq {

  import opened Bits

  const SRC_WORDS: nat := 5        // HIGH_INTR_SRC_REG_SIZE
  const SRC_BITS: nat := 160
  const QUEUES: nat := 64          // TOTAL_RX_QUEUE, TOTAL_TX_QUEUE

  /** DMA0_INTR_START_BIT_POS: 8 on A0 devices, 9 on the others. */
  function StartPos(a0Mode: bool): nat { if a0Mode then 8 else 9 }

  datatype QueueType = Rx | Tx
  datatype Report = Report(qtype: QueueType, qnum: nat)

  /** The queue a bit position is reported as. */
  function Decode(start: nat, bit: nat): Report {
    if start <= bit < start + QUEUES then Report(Rx, bit - start)
    else if start + QUEUES <= bit < start + 2 * QUEUES then Report(Tx, bit - (start + QUEUES))
    else Report(Tx, 0)
  }

  function Encode(start: nat, r: Report): nat {
    if r.qtype.Rx? then start + r.qnum else start + QUEUES + r.qnum
  }

  /** On the 128 queue bits the decoding is a bijection onto 2 x 64 queues. */
  lemma DecodeBijective(start: nat, bit: nat, r: Report)
    ensures start <= bit < start + 2 * QUEUES ==> Decode(start, bit).qnum < QUEUES && Encode(start, Decode(start, bit)) == bit
    ensures r.qnum < QUEUES ==> start <= Encode(start, r) < start + 2 * QUEUES && Decode(start, Encode(start, r)) == r
  {
  }

  /** The first 64 bits from the start position on are the receive queues, the next 64 the transmit queues. */
  lemma DecodeTable(start: nat, i: nat)
    ensures i < 64 ==> Decode(start, start + i) == Report(Rx, i) && Decode(start, start + 64 + i) == Report(Tx, i)
    ensures Decode(start, start + 128 + i) == Report(Tx, 0)
  {
  }

  /** And only there: any higher bit is reported as transmit queue 0. */
  lemma DecodeFaithfulIff(start: nat, bit: nat)
    requires start <= bit
    ensures Encode(start, Decode(start, bit)) == bit <==> bit < start + 2 * QUEUES
  {
  }

  ghost predicate Source(src: seq<nat>) {
    |src| == SRC_WORDS && forall i :: 0 <= i < SRC_WORDS ==> src[i] < Pow2(32)
  }

  predicate Pending(src: seq<nat>, b: nat)
    requires |src| == SRC_WORDS
  {
    b < SRC_BITS && Bit(src[b / 32], b % 32)
  }

  /** A write-1-to-clear register after `value` is written to it. */
  function WriteOneToClear(word: nat, value: nat): int { word - And(word, value) }

  /** Clearing one set bit clears that bit and no other. */
  lemma {:induction false} ClearBit(x: nat, j: nat, k: nat)
    requires Bit(x, j)
    ensures And(x, Shl(1, j)) == Shl(1, j) <= x
    ensures Bit(x - Shl(1, j), k) <==> Bit(x, k) && k != j
    decreases j
  {
    if j == 0 {
      assert Shl(1, 0) == 1 && x % 2 == 1;
      assert And(x / 2, 0) == 0;
      if k > 0 {
        assert (x - 1) / 2 == x / 2;
      }
    } else {
      var y := Shl(1, j - 1);
      ClearBit(x / 2, j - 1, if k > 0 then k - 1 else 0);
      assert Shl(1, j) == 2 * y && (x - 2 * y) / 2 == x / 2 - y && (x - 2 * y) % 2 == x % 2;
      ShlIsMul(1, j - 1);
    }
  }

  /** Setting a clear bit sets that bit and no other. */
  lemma {:induction false} SetBit(x: nat, j: nat, k: nat, w: nat)
    requires !Bit(x, j) && j < w && x < Pow2(w)
    ensures Bit(x + Shl(1, j), k) <==> Bit(x, k) || k == j
    ensures x + Shl(1, j) < Pow2(w)
    decreases j
  {
    if j == 0 {
      assert Shl(1, 0) == 1 && x % 2 == 0;
      if k > 0 {
        assert (x + 1) / 2 == x / 2;
      }
    } else {
      var y := Shl(1, j - 1);
      SetBit(x / 2, j - 1, if k > 0 then k - 1 else 0, w - 1);
      assert Shl(1, j) == 2 * y && (x + 2 * y) / 2 == x / 2 + y && (x + 2 * y) % 2 == x % 2;
    }
  }

  /** Lowest pending bit from `from` on; SRC_BITS if there is none. */
  function Lowest(src: seq<nat>, from: nat): (b: nat)
    requires |src| == SRC_WORDS && from <= SRC_BITS
    ensures from <= b <= SRC_BITS
    ensures b < SRC_BITS ==> Pending(src, b)
    ensures forall d :: from <= d < b ==> !Pending(src, d)
    decreases SRC_BITS - from
  {
    if from == SRC_BITS || Pending(src, from) then from else Lowest(src, from + 1)
  }

  /** The two nested loops of the search. */
  method FindPending(src: seq<nat>, start: nat) returns (found: bool, i: nat, j: nat)
    requires Source(src) && start < 32
    ensures found ==> i < SRC_WORDS && j < 32 && 32 * i + j == Lowest(src, start) < SRC_BITS
    ensures !found ==> Lowest(src, start) == SRC_BITS
  {
    hide Bit;
    found, i, j := false, 0, 0;
    while i < SRC_WORDS
      invariant i <= SRC_WORDS
      invariant forall d :: start <= d < 32 * i ==> !Pending(src, d)
    {
      if src[i] != 0 {
        j := if i == 0 then start else 0;
        while j < 32
          invariant j <= 32
          invariant forall d :: start <= d < 32 * i + j ==> !Pending(src, d)
        {
          assert (32 * i + j) / 32 == i && (32 * i + j) % 32 == j;
          if Bit(src[i], j) {
            assert Pending(src, 32 * i + j);
            return true, i, j;
          }
          j := j + 1;
        }
      } else {
        ZeroWord(src, i);
      }
      i := i + 1;
    }
  }

  lemma ZeroWord(src: seq<nat>, i: nat)
    requires |src| == SRC_WORDS && i < SRC_WORDS && src[i] == 0
    ensures forall d :: 32 * i <= d < 32 * i + 32 ==> !Pending(src, d)
  {
    forall d | 32 * i <= d < 32 * i + 32
      ensures !Pending(src, d)
    {
      LowZero(d % 32);
    }
  }

  // ------------------------------------------------------------------- many calls

  /** The pending bits the handler can see. */
  ghost function Visible(src: seq<nat>, start: nat): set<nat>
    requires |src| == SRC_WORDS
  {
    set b | start <= b < SRC_BITS && Pending(src, b)
  }

  /** What may happen to the register: the hardware raises a bit, or the handler is called. */
  datatype Event = Raise(bit: nat) | Call(alloc: bool)

  function First(pending: set<nat>, from: nat): (b: nat)
    requires from <= SRC_BITS
    ensures from <= b <= SRC_BITS
    ensures b < SRC_BITS ==> b in pending
    ensures forall d :: from <= d < b ==> d !in pending
    decreases SRC_BITS - from
  {
    if from == SRC_BITS || from in pending then from else First(pending, from + 1)
  }

  lemma FirstIsLowest(src: seq<nat>, start: nat)
    requires |src| == SRC_WORDS && start < 32
    ensures First(Visible(src, start), start) == Lowest(src, start)
  {
    var b := Lowest(src, start);
    FirstUnique(Visible(src, start), start, b);
  }

  datatype Line = Line(pending: set<nat>, reported: seq<nat>)

  /** One event; reported bits are recorded by position. */
  function After(start: nat, s: Line, e: Event): Line
    requires start <= SRC_BITS
  {
    match e
    case Raise(bit) => if start <= bit < SRC_BITS then s.(pending := s.pending + {bit}) else s
    case Call(alloc) =>
      var b := First(s.pending, start);
      if b < SRC_BITS && alloc then Line(s.pending - {b}, s.reported + [b]) else s
  }

  function Run(start: nat, s: Line, es: seq<Event>): Line
    requires start <= SRC_BITS
    decreases |es|
  {
    if es == [] then s else After(start, Run(start, s, es[..|es| - 1]), es[|es| - 1])
  }

  function Count(s: seq<nat>, b: nat): nat {
    if s == [] then 0 else Count(s[..|s| - 1], b) + (if s[|s| - 1] == b then 1 else 0)
  }

  /** How often bit `b` was raised while it was not pending. */
  function Raised(start: nat, s: Line, es: seq<Event>, b: nat): nat
    requires start <= SRC_BITS
    decreases |es|
  {
    if es == [] then 0
    else
      var most := es[..|es| - 1];
      Raised(start, s, most, b)
      + (if es[|es| - 1] == Raise(b) && b !in Run(start, s, most).pending then 1 else 0)
  }

  function Holds(s: set<nat>, b: nat): nat { if b in s then 1 else 0 }

  /**
   Conservation, over every interleaving of interrupts, calls and allocation failures: a visible bit
   has been reported exactly as often as it was raised, except for the one it still is pending for.
   */
  lemma {:induction false} EveryInterruptReportedOnce(start: nat, s: Line, es: seq<Event>, b: nat)
    requires start <= b < SRC_BITS && s.reported == []
    ensures var t := Run(start, s, es);
            Count(t.reported, b) + Holds(t.pending, b) == Holds(s.pending, b) + Raised(start, s, es, b)
    decreases |es|
  {
    if es != [] {
      var most := es[..|es| - 1];
      EveryInterruptReportedOnce(start, s, most, b);
      var m := Run(start, s, most);
      match es[|es| - 1]
      case Raise(_) =>
      case Call(alloc) =>
        var f := First(m.pending, start);
        if f < SRC_BITS && alloc {
          assert (m.reported + [f])[..|m.reported|] == m.reported;
        }
    }
  }

  function Calls(n: nat): seq<Event> { seq(n, _ => Call(true)) }

  /** The visible bits in ascending order. */
  function Ascending(pending: set<nat>, from: nat): seq<nat>
    requires from <= SRC_BITS
    decreases SRC_BITS - from
  {
    var b := First(pending, from);
    if b == SRC_BITS then [] else [b] + Ascending(pending, b + 1)
  }

  /** It lists every pending bit from `from` on, once, in ascending order, and nothing else. */
  lemma {:induction false} AscendingLists(pending: set<nat>, from: nat)
    requires from <= SRC_BITS
    ensures var r := Ascending(pending, from);
            && (forall i :: 0 <= i < |r| ==> from <= r[i] < 160 && r[i] in pending)
            && (forall i, j :: 0 <= i < j < |r| ==> r[i] < r[j])
            && (forall b :: from <= b < 160 && b in pending ==> b in r)
    decreases SRC_BITS - from
  {
    var b := First(pending, from);
    if b < SRC_BITS {
      AscendingLists(pending, b + 1);
    }
  }

  lemma FirstUnique(pending: set<nat>, from: nat, b: nat)
    requires from <= b <= SRC_BITS && (b < SRC_BITS ==> b in pending) && forall d :: from <= d < b ==> d !in pending
    ensures First(pending, from) == b
  {
  }

  /** Taking out the first bit takes out the head of the list. */
  lemma WithoutFirst(pending: set<nat>, start: nat, b: nat)
    requires start <= SRC_BITS && b == First(pending, start) < SRC_BITS
    ensures Ascending(pending - {b}, start) == Ascending(pending, b + 1)
    ensures Ascending(pending, start) == [b] + Ascending(pending, b + 1)
  {
    var f := First(pending, b + 1);
    FirstUnique(pending - {b}, start, f);
    if f < SRC_BITS {
      SameFrom(pending - {b}, pending, f + 1);
    }
  }

  lemma {:induction false} SameFrom(a: set<nat>, b: set<nat>, from: nat)
    requires from <= SRC_BITS && forall d :: from <= d < SRC_BITS ==> (d in a <==> d in b)
    ensures Ascending(a, from) == Ascending(b, from)
    decreases SRC_BITS - from
  {
    var f := First(a, from);
    FirstUnique(b, from, f);
    if f < SRC_BITS {
      SameFrom(a, b, f + 1);
    }
  }

  /**
   Draining: as many calls as there are pending bits report each of them once, in ascending order,
   and leave none; the number of pending bits is what each call decreases.
   */
  lemma {:induction false} Drain(start: nat, s: Line, n: nat)
    requires start <= SRC_BITS && n <= |Ascending(s.pending, start)|
    ensures var all := Ascending(s.pending, start);
            var t := Run(start, s, Calls(n));
            && t.reported == s.reported + all[..n]
            && Ascending(t.pending, start) == all[n..]
    decreases n
  {
    hide Ascending, First;
    var all := Ascending(s.pending, start);
    if n == 0 {
      assert Calls(0) == [];
    } else {
      Drain(start, s, n - 1);
      assert Calls(n)[..n - 1] == Calls(n - 1);
      DrainOne(start, Run(start, s, Calls(n - 1)), all[n - 1..]);
      assert all[n - 1..][1..] == all[n..];
      assert all[..n] == all[..n - 1] + [all[n - 1]];
    }
  }

  lemma DrainOne(start: nat, m: Line, rest: seq<nat>)
    requires start <= SRC_BITS && rest == Ascending(m.pending, start) && rest != []
    ensures var t := After(start, m, Call(true));
            t.reported == m.reported + [rest[0]] && Ascending(t.pending, start) == rest[1..]
  {
    WithoutFirst(m.pending, start, First(m.pending, start));
  }

  /** The register of a device behaves as the abstract line does. */
  lemma RegisterRefinesLine(start: nat, was: seq<nat>, src: seq<nat>, b: nat)
    requires |was| == |src| == SRC_WORDS && start < 32 && b == Lowest(was, start) < SRC_BITS
    requires forall k :: Pending(src, k) <==> Pending(was, k) && k != b
    ensures b == First(Visible(was, start), start)
    ensures Visible(src, start) == Visible(was, start) - {b}
  {
    FirstIsLowest(was, start);
  }

  // -------------------------------------------------------------------- the device

  /** The reports for a sequence of bit positions. */
  function Decoded(start: nat, bits: seq<nat>): seq<Report> {
    seq(|bits|, i requires 0 <= i < |bits| => Decode(start, bits[i]))
  }

  /**
   The interrupt source register of a device, cleared by writing ones, and the reports queued so far.
   Valid() says that register and reports are what the recorded events make of the abstract line.
   */
  class SourceRegister {
    const start: nat
    var src: seq<nat>
    var queued: seq<Report>

    ghost const src0: seq<nat>
    ghost var events: seq<Event>
    ghost var bits: seq<nat>

    ghost predicate Valid()
      reads this
    {
      && Source(src) && Source(src0) && (start == StartPos(true) || start == StartPos(false))
      && Line(Visible(src, start), bits) == Run(start, Line(Visible(src0, start), []), events)
      && queued == Decoded(start, bits)
    }

    constructor (src: seq<nat>, a0Mode: bool)
      requires Source(src)
      ensures Valid() && this.src == src && src0 == src && start == (if a0Mode then 8 else 9) && events == [] && queued == []
    {
      this.src, start, queued := src, StartPos(a0Mode), [];
      src0, events, bits := src, [], [];
    }

    /** The hardware raises a bit. */
    method RaiseBit(b: nat)
      requires Valid() && b < SRC_BITS
      modifies this`src, this`events
      ensures Valid() && events == old(events) + [Raise(b)]
      ensures forall k :: Pending(src, k) <==> Pending(old(src), k) || k == b
    {
      hide Pending, Run;
      SetInRegister(b);
      RunOne(start, Line(Visible(src0, start), []), events, Raise(b));
      events := events + [Raise(b)];
    }

    method SetInRegister(b: nat)
      requires Source(src) && b < SRC_BITS
      modifies this`src
      ensures Source(src) && forall k :: Pending(src, k) <==> Pending(old(src), k) || k == b
    {
      hide Bit, Shl;
      ghost var was := src;
      var i, j := b / 32, b % 32;
      if !Bit(src[i], j) {
        SetBit(src[i], j, j, 32);
        src := src[i := src[i] + Shl(1, j)];
      }
      forall k: nat
        ensures Pending(src, k) <==> Pending(was, k) || k == b
      {
        if k / 32 == i && !Bit(was[i], j) {
          SetBit(was[i], j, k % 32, 32);
        }
      }
    }

    /**
     xp_irq_mgmt_handler. If a bit from the start position on is pending, the lowest one is reported
     and it alone is cleared; if no work item can be allocated nothing is reported or cleared.
     */
    method MgmtHandler(alloc: bool) returns (failed: bool, report: seq<Report>)
      requires Valid()
      modifies this
      ensures Valid() && events == old(events) + [Call(alloc)] && queued == old(queued) + report
      ensures var b := Lowest(old(src), start);
              && failed == (b < SRC_BITS && !alloc)
              && (b < SRC_BITS && alloc ==>
                    report == [Decode(start, b)] && forall k :: Pending(src, k) <==> Pending(old(src), k) && k != b)
              && (b == SRC_BITS || !alloc ==> report == [] && src == old(src))
    {
      hide And, Shl, Bit, Run;
      FirstIsLowest(src, start);
      RunOne(start, Line(Visible(src0, start), []), events, Call(alloc));
      events := events + [Call(alloc)];
      var found, i, j := FindPending(src, start);
      if !found {
        return false, [];
      }
      if !alloc {
        return true, [];
      }
      failed, report := false, [Decode(start, 32 * i + j)];
      Acknowledge(i, j);
      RegisterRefinesLine(start, old(src), src, 32 * i + j);
      bits := bits + [32 * i + j];
      queued := queued + report;
    }

    /** Write the one that clears bit `j` of word `i`. */
    method Acknowledge(i: nat, j: nat)
      requires Source(src) && i < SRC_WORDS && j < 32 && Pending(src, 32 * i + j)
      modifies this`src
      ensures Source(src) && forall k :: Pending(src, k) <==> Pending(old(src), k) && k != 32 * i + j
    {
      hide And, Shl, Bit;
      ghost var was := src;
      ghost var b := 32 * i + j;
      assert b / 32 == i && b % 32 == j;
      ClearBit(src[i], j, j);
      src := src[i := WriteOneToClear(src[i], Shl(1, j))];
      forall k: nat
        ensures Pending(src, k) <==> Pending(was, k) && k != b
      {
        if k / 32 == i {
          ClearBit(was[i], j, k % 32);
        }
      }
    }

    /**
     Call the handler until it has nothing to report: every pending queue is reported once, in
     ascending order of its bit, and none is left pending.
     */
    method DrainAll() returns (out: seq<Report>)
      requires Valid()
      modifies this
      ensures Valid() && queued == old(queued) + out
      ensures out == Decoded(start, Ascending(old(Visible(src, start)), start)) && Visible(src, start) == {}
    {
      hide Run, Pending, Ascending;
      ghost var all := Ascending(Visible(src, start), start);
      ghost var n := 0;
      out := [];
      var more := true;
      while more
        invariant Valid() && n <= |all| && Ascending(Visible(src, start), start) == all[n..]
        invariant out == Decoded(start, all[..n]) && queued == old(queued) + out
        invariant !more ==> n == |all|
        decreases |all| - n, more
      {
        FirstIsLowest(src, start);
        AscendingHead(Visible(src, start), start);
        ghost var was := src;
        var failed, report := MgmtHandler(true);
        if report == [] {
          more := false;
        } else {
          ghost var b := Lowest(was, start);
          RegisterRefinesLine(start, was, src, b);
          WithoutFirst(Visible(was, start), start, b);
          assert all[n] == all[n..][0] == b && all[n + 1..] == all[n..][1..];
          assert all[..n + 1] == all[..n] + [b];
          assert Decoded(start, all[..n + 1]) == Decoded(start, all[..n]) + [Decode(start, b)];
          out := out + report;
          n := n + 1;
        }
      }
      assert all[..n] == all;
      NothingLeft(src, start);
    }
  }

  lemma RunOne(start: nat, s: Line, es: seq<Event>, e: Event)
    requires start <= SRC_BITS
    ensures Run(start, s, es + [e]) == After(start, Run(start, s, es), e)
  {
    assert (es + [e])[..|es|] == es;
  }

  lemma AscendingHead(pending: set<nat>, start: nat)
    requires start <= SRC_BITS
    ensures Ascending(pending, start) == [] <==> First(pending, start) == SRC_BITS
  {
  }

  lemma NothingLeft(src: seq<nat>, start: nat)
    requires |src| == SRC_WORDS && start <= SRC_BITS && Ascending(Visible(src, start), start) == []
    ensures Visible(src, start) == {}
  {
    AscendingLists(Visible(src, start), start);
  }

  // ------------------------------------------------------- conservation, on the device

  function CountReports(s: seq<Report>, r: Report): nat {
    if s == [] then 0 else CountReports(s[..|s| - 1], r) + (if s[|s| - 1] == r then 1 else 0)
  }

  /** Only the 128 queue bits are ever raised. */
  ghost predicate Confined(start: nat, pending: set<nat>, es: seq<Event>) {
    && (forall b :: b in pending ==> start <= b < start + 2 * QUEUES)
    && (forall i :: 0 <= i < |es| && es[i].Raise? ==> es[i].bit < start + 2 * QUEUES)
  }

  ghost predicate OnQueues(start: nat, s: Line) {
    && (forall b :: b in s.pending ==> start <= b < start + 2 * QUEUES)
    && (forall i :: 0 <= i < |s.reported| ==> start <= s.reported[i] < start + 2 * QUEUES)
  }

  lemma OneConfined(start: nat, m: Line, e: Event)
    requires start < 32 && (e.Raise? ==> e.bit < start + 2 * QUEUES) && OnQueues(start, m)
    ensures OnQueues(start, After(start, m, e))
  {
    hide First;
    var t := After(start, m, e);
    if e.Call? && e.alloc && First(m.pending, start) < SRC_BITS {
      assert First(m.pending, start) in m.pending;
      assert forall b :: b in t.pending ==> b in m.pending;
    }
  }

  lemma {:induction false} ConfinedRun(start: nat, s: Line, es: seq<Event>)
    requires start < 32 && s.reported == [] && Confined(start, s.pending, es)
    ensures OnQueues(start, Run(start, s, es))
    decreases |es|
  {
    if es != [] {
      ConfinedRun(start, s, es[..|es| - 1]);
      OneConfined(start, Run(start, s, es[..|es| - 1]), es[|es| - 1]);
    }
  }

  /** On those bits counting reports is counting positions. */
  lemma {:induction false} CountDecoded(start: nat, bits: seq<nat>, r: Report)
    requires r.qnum < QUEUES && forall i :: 0 <= i < |bits| ==> start <= bits[i] < start + 2 * QUEUES
    ensures CountReports(Decoded(start, bits), r) == Count(bits, Encode(start, r))
    decreases |bits|
  {
    if bits != [] {
      var n := |bits| - 1;
      CountDecoded(start, bits[..n], r);
      assert Decoded(start, bits)[..n] == Decoded(start, bits[..n]);
      DecodeBijective(start, bits[n], r);
    }
  }

  /**
   Conservation on the device, over every interleaving of interrupts, calls and allocation failures on
   the 128 queue bits: each queue has been reported exactly as often as its bit was raised, less the
   one time it is still pending for.
   */
  lemma QueueReportedOnce(d: SourceRegister, r: Report)
    requires d.Valid() && r.qnum < QUEUES && Confined(d.start, Visible(d.src0, d.start), d.events)
    ensures var b := Encode(d.start, r);
            var s := Line(Visible(d.src0, d.start), []);
            CountReports(d.queued, r) + Holds(Visible(d.src, d.start), b)
            == Holds(Visible(d.src0, d.start), b) + Raised(d.start, s, d.events, b)
  {
    hide Run, Raised, Visible;
    var s := Line(Visible(d.src0, d.start), []);
    DecodeBijective(d.start, Encode(d.start, r), r);
    ConfinedRun(d.start, s, d.events);
    assert Run(d.start, s, d.events).reported == d.bits;
    CountDecoded(d.start, d.bits, r);
    EveryInterruptReportedOnce(d.start, s, d.events, Encode(d.start, r));
  }
}
