/** What the transmit queue guarantees without the A0 flag, over every run. */
module TxGuarantees {

  import opened Descriptors
  import opened Shards
  import opened TxMachine
  import opened TxChain
  import Bits
  import Ring
  import TxReturns
  import Q = TxQueue

  /** Every slot has a number in the current lap. */
  lemma NumberOf(n: nat, lo: nat, i: nat) returns (a: nat)
    requires i < n
    ensures lo <= a < lo + n && Ring.Wrap(a, n) == i
  {
    var w := Ring.Wrap(lo, n);
    var d := if w <= i then i - w else i + n - w;
    a := lo + d;
    Ring.WrapAdd(lo, d, n);
  }

  /**
   Between calls every device-owned descriptor lies strictly between head and tail, the busy
   count is the number of descriptors published and not taken back, and busy and free
   descriptors add up to n - 1.
   */
  lemma OwnedBetweenHeadAndTail(c: Config, buf: seq<seq<Byte>>, steps: seq<Step>, i: nat)
    requires Allocated(c, buf) && !c.a0 && i < c.n
    ensures var s := After(c, buf, steps);
            var busy := Ring.BusyDesc(c.n, s.head, s.tail);
            s.pc.Idle? ==>
              && busy == |s.log| - s.reclaimed
              && busy + Ring.FreeDesc(c.n, s.head, s.tail) == c.n - 1
              && (Own(s.desc[i]) ==> 1 <= Ring.Distance(c.n, s.head, i) <= busy)
  {
    hide After, Wire, Ring.Wrap;
    Reachable(c, buf, steps);
    var s := After(c, buf, steps);
    if s.pc.Idle? {
      Ring.BusyCount(c.n, s.reclaimed, Base(s));
      if Own(s.desc[i]) {
        var a := NumberOf(c.n, s.reclaimed, i);
        assert SlotOk(c, s, a);
        LapEnd(c.n, s.reclaimed, a);
        Ring.DistanceOfStep(c.n, s.reclaimed + c.n - 1, a + 1 - s.reclaimed);
      }
    }
  }

  lemma LapEnd(n: nat, lo: nat, a: nat)
    requires n > 0 && lo <= a
    ensures Ring.Wrap(lo + n - 1 + (a + 1 - lo), n) == Ring.Wrap(a, n)
  {
    assert lo + n - 1 + (a + 1 - lo) == a + n;
  }

  /** The slot a driver step writes, if any: it belongs to the packet being enqueued. */
  function Touched(s: State): (k: nat)
    requires PcOk(s)
  {
    if s.pc.Fill? || s.pc.Write? then s.pc.k
    else if s.pc.MarkEop? then NumShards(|s.pc.pkt|) - 1
    else 0
  }

  lemma DriverTouches(c: Config, s: State, i: nat)
    requires Globals(c, s) && i < c.n
    requires (s.pc.Fill? || s.pc.Write? || s.pc.MarkEop? || s.pc.Publish?) && Touched(s) < NumShards(|s.pc.pkt|) ==>
               i != Ring.Wrap(Base(s) + Touched(s), c.n)
    ensures DriverStep(c, s).desc[i] == s.desc[i] && DriverStep(c, s).buf[i] == s.buf[i]
  {
    hide ShardBuffer, Own, Err, Progress, History;
    SlotNumber(c, s, Touched(s));
    if s.pc.MarkEop? {
      SlotNumber(c, s, Touched(s) + c.n);
      assert Ring.Wrap(Base(s) + Touched(s) + c.n, c.n) == Ring.Wrap(Base(s) + Touched(s), c.n);
    }
  }

  /** The ownership bit of a slot is set only for a descriptor in flight or a staged later shard. */
  lemma OwnedRole(c: Config, s: State, a: nat)
    requires Shape(c, s) && SlotOk(c, s, a) && Own(s.desc[Ring.Wrap(a, c.n)])
    ensures var r := RoleOf(s, a); r.InFlight? || (r.Staging? && r.m >= 1 && r.words >= 3)
  {
    hide Final, Holds, Bits.Bit;
    Bits.FlagBits();
  }

  /**
   In every run no driver step writes a buffer the device owns, and the only word of an owned
   descriptor it writes is the EOP mark on the last shard of the packet being enqueued, which is not
   yet published.
   */
  lemma DriverLeavesOwnedAlone(c: Config, buf: seq<seq<Byte>>, steps: seq<Step>, i: nat)
    requires Allocated(c, buf) && !c.a0 && i < c.n
    ensures var s := After(c, buf, steps);
            var t := DriverStep(c, s);
            Own(s.desc[i]) ==>
              && t.buf[i] == s.buf[i]
              && (t.desc[i] != s.desc[i] ==>
                    && s.pc.MarkEop? && NumShards(|s.pc.pkt|) >= 2 && i == Slot(c, s, NumShards(|s.pc.pkt|) - 1)
                    && t.desc[i] == s.desc[i].(w0 := Bits.Or(s.desc[i].w0, EOP)))
  {
    hide After, DriverStep, Own, Ring.Wrap, Progress, History, SlotOk, Slot;
    Reachable(c, buf, steps);
    var s := After(c, buf, steps);
    if Own(s.desc[i]) {
      var a := NumberOf(c.n, s.reclaimed, i);
      OwnedRole(c, s, a);
      var x := Base(s) + Touched(s);
      if s.pc.MarkEop? && a == x {
        MarkedOwned(c, s, s.pc.pkt, a);
      } else {
        if (s.pc.Fill? || s.pc.Write? || s.pc.MarkEop? || s.pc.Publish?) && Touched(s) < NumShards(|s.pc.pkt|) {
          TouchedRole(c, s);
          Ring.Apart(c.n, s.reclaimed, x, a);
        }
        DriverTouches(c, s, i);
      }
    }
  }

  /** The descriptor a step other than the EOP mark writes is not one of those. */
  lemma TouchedRole(c: Config, s: State)
    requires Shape(c, s) && Counters(c, s) && PcOk(s) && (s.pc.Fill? || s.pc.Write? || s.pc.Publish? || s.pc.MarkEop?)
    requires Touched(s) < NumShards(|s.pc.pkt|)
    ensures var r := RoleOf(s, Base(s) + Touched(s)); r.Staging? && (!s.pc.MarkEop? ==> r.m == 0 || r.words < 3)
    ensures s.reclaimed <= Base(s) + Touched(s) < s.reclaimed + c.n
  {
    hide NumShards;
  }

  lemma MarkedOwned(c: Config, s: State, p: seq<Byte>, a: nat)
    requires Shape(c, s) && Counters(c, s) && PcOk(s) && s.pc == MarkEop(p) && a == Base(s) + NumShards(|p|) - 1
    requires SlotOk(c, s, a) && Own(s.desc[Ring.Wrap(a, c.n)])
    ensures NumShards(|p|) >= 2 && Ring.Wrap(a, c.n) == Slot(c, s, NumShards(|p|) - 1)
    ensures var i := Ring.Wrap(a, c.n);
            var t := DriverStep(c, s);
            t.buf == s.buf && t.desc[i] == s.desc[i].(w0 := Bits.Or(s.desc[i].w0, EOP))
  {
    SomeShard(p);
    hide NumShards, Own, Bits.Or, Ring.Wrap, SlotOk, Slot;
    LastSlot(c, s, p);
    SlotNumber(c, s, NumShards(|p|) - 1);
    OwnedRole(c, s, a);
    assert RoleOf(s, a) == Staging(p, NumShards(|p|) - 1, true, 3, false);
  }

  /** In particular nothing of a published descriptor that the device has not sent yet is written. */
  lemma DriverLeavesInFlightAlone(c: Config, buf: seq<seq<Byte>>, steps: seq<Step>, a: nat)
    requires Allocated(c, buf) && !c.a0
    ensures var s := After(c, buf, steps);
            var i := Ring.Wrap(a, c.n);
            |s.wire| <= a < |s.log| ==>
              Own(s.desc[i]) && DriverStep(c, s).desc[i] == s.desc[i] && DriverStep(c, s).buf[i] == s.buf[i]
  {
    hide After, DriverStep, Wire, Bits.Bit, Ring.Wrap, Progress, History;
    Reachable(c, buf, steps);
    var s := After(c, buf, steps);
    if |s.wire| <= a < |s.log| {
      assert SlotOk(c, s, a);
      FlagBits(s.log[a]);
      if Touched(s) < Reserved(s.pc) && !s.pc.Advance? {
        Ring.Apart(c.n, s.reclaimed, Base(s) + Touched(s), a);
      }
      DriverTouches(c, s, Ring.Wrap(a, c.n));
    }
  }

  /** Number of the first descriptor of the j-th packet. */
  function FirstFrame(pkts: seq<seq<Byte>>, j: nat): nat
    requires j <= |pkts|
  {
    |AllFrames(pkts[..j])|
  }

  lemma {:induction false} FrameIndex(pkts: seq<seq<Byte>>, j: nat, k: nat)
    requires j < |pkts| && k < NumShards(|pkts[j]|)
    ensures FirstFrame(pkts, j) + k < |AllFrames(pkts)|
    ensures AllFrames(pkts)[FirstFrame(pkts, j) + k] == FrameAt(pkts[j], k)
    decreases |pkts|
  {
    hide FrameAt;
    var most := pkts[..|pkts| - 1];
    if j < |pkts| - 1 {
      FrameIndex(most, j, k);
      assert most[..j] == pkts[..j];
    }
  }

  /**
   Publication order. While a packet is being enqueued its first descriptor is not the
   device's; and as long as the first descriptor of a published packet is the device's, every
   descriptor of that packet has its final address, length, flags and data, with SOP on the
   first only and EOP on the last only. Device steps fall between any two writes.
   */
  lemma PublicationOrder(c: Config, buf: seq<seq<Byte>>, steps: seq<Step>, j: nat, k: nat)
    requires Allocated(c, buf) && !c.a0
    ensures var s := After(c, buf, steps);
            && (s.pc.Fill? || s.pc.Check? || s.pc.Write? || s.pc.MarkEop? || s.pc.Publish? ==> !Own(s.desc[s.tail]))
            && (j < |s.accepted| && |s.wire| <= FirstFrame(s.accepted, j) && k < NumShards(|s.accepted[j]|) ==>
                  var i := Ring.Wrap(FirstFrame(s.accepted, j) + k, c.n);
                  Own(s.desc[i]) && Final(c, i, s.desc[i], s.buf[i], FrameAt(s.accepted[j], k)))
  {
    hide After, Final, FrameAt, AllFrames, FirstFrame, Bits.Bit, Counters, Progress;
    Reachable(c, buf, steps);
    var s := After(c, buf, steps);
    FirstNotOwned(c, s);
    if j < |s.accepted| && |s.wire| <= FirstFrame(s.accepted, j) && k < NumShards(|s.accepted[j]|) {
      FrameIndex(s.accepted, j, k);
      InFlightFinal(c, s, FirstFrame(s.accepted, j) + k);
    }
  }

  lemma InFlightFinal(c: Config, s: State, a: nat)
    requires Inv(c, s) && |s.wire| <= a < |s.log|
    ensures var i := Ring.Wrap(a, c.n); Own(s.desc[i]) && Final(c, i, s.desc[i], s.buf[i], s.log[a])
  {
    hide Wire, Bits.Bit;
    assert SlotOk(c, s, a);
    FlagBits(s.log[a]);
  }

  lemma FirstNotOwned(c: Config, s: State)
    requires Inv(c, s)
    ensures s.pc.Fill? || s.pc.Check? || s.pc.Write? || s.pc.MarkEop? || s.pc.Publish? ==> !Own(s.desc[s.tail])
  {
    hide Wire, FrameData, ShardLen, Bits.Bit;
    if s.pc.Fill? || s.pc.Check? || s.pc.Write? || s.pc.MarkEop? || s.pc.Publish? {
      assert SlotOk(c, s, Base(s));
      Bits.FlagBits();
    }
  }

  /**
   End to end: what the device has sent is a prefix of the frames of the accepted packets, so a
   receiver that collects from SOP to EOP gets a prefix of the accepted packets, in order,
   unchanged but for the zero padding of short ones.
   */
  lemma WireCarriesAcceptedPackets(c: Config, buf: seq<seq<Byte>>, steps: seq<Step>)
    requires Allocated(c, buf) && !c.a0
    ensures var s := After(c, buf, steps);
            && s.wire <= AllFrames(s.accepted)
            && Deframe([], s.wire) <= PaddedAll(s.accepted)
            && (|s.wire| == |s.log| ==> Deframe([], s.wire) == PaddedAll(s.accepted))
  {
    hide After, SlotOk, Deframe;
    Reachable(c, buf, steps);
    var s := After(c, buf, steps);
    DeframePrefix(s.accepted, |s.wire|);
    DeframeAll(s.accepted);
    assert s.log[..|s.log|] == s.log;
  }

  /**
   The same byte by byte: when frame `k` of the j-th accepted packet is on the wire, at the position the
   packets before it leave it, it carries the packet's bytes; a short packet is padded to 128 bytes.
   */
  lemma WireBytes(c: Config, buf: seq<seq<Byte>>, steps: seq<Step>, j: nat, k: nat)
    requires Allocated(c, buf) && !c.a0
    ensures var s := After(c, buf, steps);
            j < |s.accepted| ==>
              && 0 < |s.accepted[j]|
              && FirstFrame(s.accepted, j) + NumShards(|s.accepted[j]|) == FirstFrame(s.accepted, j + 1)
              && (4096 * k < |s.accepted[j]| && FirstFrame(s.accepted, j) + k < |s.wire| ==>
                    Carries(s.wire[FirstFrame(s.accepted, j) + k], s.accepted[j], k))
  {
    hide After, SlotOk, FrameAt, AllFrames, Carries;
    Reachable(c, buf, steps);
    var s := After(c, buf, steps);
    if j < |s.accepted| {
      NextFirst(s.accepted, j);
      FrameCarries(s.accepted[j], k);
      if 4096 * k < |s.accepted[j]| {
        FrameIndex(s.accepted, j, k);
      }
    }
  }

  lemma NextFirst(pkts: seq<seq<Byte>>, j: nat)
    requires j < |pkts|
    ensures FirstFrame(pkts, j) + NumShards(|pkts[j]|) == FirstFrame(pkts, j + 1)
  {
    hide NumShards, Frames;
    assert pkts[..j + 1] == pkts[..j] + [pkts[j]];
    AllFramesAppend(pkts[..j], pkts[j]);
    FramesCount(pkts[j]);
  }

  /**
   The words of a published descriptor the device has not got to: ownership, SOP on the first and EOP on
   the last, the number of bytes (128 for a short packet), and the address of its own buffer.
   */
  lemma DescriptorWords(c: Config, buf: seq<seq<Byte>>, steps: seq<Step>, j: nat, k: nat)
    requires Allocated(c, buf) && !c.a0
    ensures var s := After(c, buf, steps);
            j < |s.accepted| && |s.wire| <= FirstFrame(s.accepted, j) && 4096 * k < |s.accepted[j]| ==>
              var p := s.accepted[j];
              var i := Ring.Wrap(FirstFrame(s.accepted, j) + k, c.n);
              && s.desc[i].w0 == 16 + (if k == 0 then 8 else 0) + (if |p| <= 4096 * k + 4096 then 4 else 0)
              && s.desc[i].w1 == (if |p| < 128 then 128 else if |p| <= 4096 * k + 4096 then |p| - 4096 * k else 4096)
              && s.desc[i].w2 == c.dma[i]
  {
    hide After, FrameData, AllFrames, FirstFrame, Wire;
    Reachable(c, buf, steps);
    PublicationOrder(c, buf, steps, j, k);
    var s := After(c, buf, steps);
    if j < |s.accepted| && 4096 * k < |s.accepted[j]| {
      FrameCarries(s.accepted[j], k);
    }
  }

  /**
   The chain set up once ends in a null pointer and is never rewound without the A0 flag: in
   every run the device sends at most n descriptors, the queue accepts at most 2n - 1 shards,
   and once n descriptors have been sent no device step has any effect.
   */
  lemma ChainRunsOut(c: Config, buf: seq<seq<Byte>>, steps: seq<Step>, slot: nat, page: nat, w0: nat)
    requires Allocated(c, buf) && !c.a0
    ensures var s := After(c, buf, steps);
            && |s.wire| <= c.n && |AllFrames(s.accepted)| <= 2 * c.n - 1
            && (|s.wire| == c.n ==> DeviceStep(c, s, slot, page, w0) == s)
  {
    hide After, SlotOk, Wire;
    Reachable(c, buf, steps);
  }

  /** The device can send the oldest unsent descriptor, if the chain has not run out. */
  lemma DeviceCanSend(c: Config, s: State)
    requires Inv(c, s) && |s.wire| < |s.log| && |s.wire| < c.n
    ensures var x := |s.wire|;
            && CanComplete(c, s, x, x, 0) && |DeviceStep(c, s, x, x, 0).wire| == x + 1
            && DeviceStep(c, s, x, x, 0).log == s.log
  {
    hide Wire, Bits.Bit;
    var x := |s.wire|;
    assert SlotOk(c, s, x) && Ring.Wrap(x, c.n) == x;
    FlagBits(s.log[x]);
    Bits.FlagBits();
  }

  lemma {:induction false} SendUpTo(c: Config, s: State, a: nat) returns (more: seq<Step>)
    requires Inv(c, s) && a < |s.log| && a < c.n
    ensures a < |Exec(c, s, more).wire|
    decreases a + 1 - |s.wire|
  {
    hide SlotOk, CanComplete, DeviceStep;
    if a < |s.wire| {
      more := [];
    } else {
      var x := |s.wire|;
      var step := Step.Device(x, x, 0);
      DeviceCanSend(c, s);
      StepInv(c, s, step);
      var rest := SendUpTo(c, Apply(c, s, step), a);
      more := [step] + rest;
      TxReturns.ExecFirst(c, s, step, rest);
    }
  }

  /**
   Which published descriptors are ever sent: number `a` is, in some continuation of the run, if and
   only if it is one of the first n. All later ones are stranded.
   */
  lemma SentIff(c: Config, buf: seq<seq<Byte>>, steps: seq<Step>, a: nat)
    requires Allocated(c, buf) && !c.a0
    ensures var s := After(c, buf, steps);
            a < |s.log| ==> ((exists more :: a < |Exec(c, s, more).wire|) <==> a < c.n)
  {
    hide After, SlotOk, Apply, History, PcOk;
    Reachable(c, buf, steps);
    var s := After(c, buf, steps);
    if a < |s.log| && a < c.n {
      var more := SendUpTo(c, s, a);
      assert a < |Exec(c, s, more).wire|;
    }
    forall more | a < |Exec(c, s, more).wire|
      ensures a < c.n
    {
      RunInv(c, s, more);
    }
  }

  /** What holds of every run holds of the queue object. */
  lemma QueueKeepsInvariant(q: Q.Queue)
    requires q.Valid() && !q.c.a0
    ensures Inv(q.c, q.Abs())
  {
    hide Inv;
    Reachable(q.c, q.buf0, q.trace);
  }
}
