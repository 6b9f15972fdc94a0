/** What the transmit queue does and does not guarantee under the A0 flag, over every run. */
module TxA0Guarantees {

  import opened Descriptors
  import opened Shards
  import opened TxMachine
  import opened TxA0
  import TxChain
  import Bits
  import Ring
  import Q = TxQueue

  /** Every call starts from the same place: head n - 1, tail 0, all n - 1 descriptors free. */
  lemma EveryCallStartsFresh(c: Config, buf: seq<seq<Byte>>, steps: seq<Step>)
    requires Allocated(c, buf) && c.a0
    ensures var s := After(c, buf, steps);
            s.pc.Idle? ==> s.head == c.n - 1 && s.tail == 0 && Ring.FreeDesc(c.n, s.head, s.tail) == c.n - 1
  {
    hide After, SlotOk, PcOk;
    Reachable(c, buf, steps);
  }

  /**
   The only word of an owned descriptor a driver step ever writes is the EOP mark on the last shard of
   the packet being enqueued, which is not yet published.
   */
  lemma OwnedWordsKept(c: Config, buf: seq<seq<Byte>>, steps: seq<Step>, i: nat)
    requires Allocated(c, buf) && c.a0 && i < c.n
    ensures var s := After(c, buf, steps);
            var t := DriverStep(c, s);
            Own(s.desc[i]) && t.desc[i] != s.desc[i] ==>
              && s.pc.MarkEop? && 1 <= i == NumShards(|s.pc.pkt|) - 1
              && t.desc[i] == s.desc[i].(w0 := Bits.Or(s.desc[i].w0, EOP))
  {
    hide After, TxChain.Final, TxChain.Holds, FrameAt, MaxShards, Bits.Bit, Bits.Or;
    Reachable(c, buf, steps);
    var s := After(c, buf, steps);
    assert SlotOk(c, s, i);
    Bits.FlagBits();
    if Writing(s.pc) {
      var k := if s.pc.Write? then s.pc.k else if s.pc.MarkEop? then NumShards(|s.pc.pkt|) - 1 else 0;
      if k < NumShards(|s.pc.pkt|) {
        HomeSlot(c, s, k);
      }
    }
  }

  /** The steps of the device in a run. */
  function DeviceOnly(steps: seq<Step>): seq<Step>
    decreases |steps|
  {
    if steps == [] then []
    else
      var rest := DeviceOnly(steps[..|steps| - 1]);
      if steps[|steps| - 1].Device? then rest + [steps[|steps| - 1]] else rest
  }

  /** Descriptor words and device pointer, all a device step depends on but the sent bytes. */
  predicate SameWords(s: State, t: State) {
    s.desc == t.desc && s.cdp == t.cdp
  }

  lemma DeviceSameWords(c: Config, s: State, t: State, slot: nat, page: nat, w0: nat)
    requires Shape(c, s) && Shape(c, t) && SameWords(s, t)
    ensures SameWords(DeviceStep(c, s, slot, page, w0), DeviceStep(c, t, slot, page, w0))
    ensures DeviceStep(c, s, slot, page, w0).pc == s.pc
  {
    hide Own, Wire;
  }

  /** A transmit that has not written a descriptor, or gave up without doing so. */
  predicate Early(pc: Pc) { pc.Fill? || pc.Check? || pc == Idle(Busy) }

  /** A transmit that has got past the space check. */
  predicate Committed(pc: Pc) {
    || Writing(pc) || pc.SetCdp? || pc.Advance?
    || (Completing(pc) && pc.out == Sent) || pc == Idle(Sent)
  }

  lemma DriverSameWords(c: Config, s: State)
    requires Shape(c, s) && (Early(s.pc) || Committed(s.pc))
    ensures var t := DriverStep(c, s);
            && (Early(t.pc) || Committed(t.pc)) && !(Early(t.pc) && Committed(t.pc))
            && (Early(t.pc) ==> Early(s.pc) && SameWords(s, t))
  {
    if Early(s.pc) {
      hide Own, Err, ShardBuffer, Ring.Wrap, WriteStep, MarkEopStep, PublishStep, AdvanceStep;
    } else {
      hide Own, Err, Ring.Wrap, FillStep, CheckStep, Frames, Bits.Or, Ring.BusyDesc, Ring.AddAndWrap;
    }
  }

  /**
   Enqueue is all or nothing, with or without the A0 flag: as long as a transmit has not begun to
   write descriptors, and so also when it ends BUSY, the descriptor words are those the device
   steps alone would have left.
   */
  lemma {:induction false} BusyWritesNothing(c: Config, s: State, steps: seq<Step>)
    requires Shape(c, s) && s.pc.Fill?
    requires forall i :: 0 <= i < |steps| ==> steps[i].Drive? || steps[i].Device?
    ensures var t := Exec(c, s, steps);
            && (Early(t.pc) || Committed(t.pc))
            && (Early(t.pc) ==> SameWords(t, Exec(c, s, DeviceOnly(steps))))
    decreases |steps|
  {
    hide DriverStep, DeviceStep, Committed;
    if steps == [] {
      assert DeviceOnly(steps) == [];
    } else {
      var most, last := steps[..|steps| - 1], steps[|steps| - 1];
      BusyWritesNothing(c, s, most);
      var m, d := Exec(c, s, most), Exec(c, s, DeviceOnly(most));
      if last.Device? {
        ExecOne(c, s, DeviceOnly(most), last);
        if Early(m.pc) {
          DeviceSameWords(c, m, d, last.slot, last.page, last.w0);
        } else {
          DeviceSameWords(c, m, m, last.slot, last.page, last.w0);
        }
      } else {
        DriverSameWords(c, m);
      }
    }
  }

  /**
   The buffers are another matter: they are filled before the per-shard check. A transmit that
   passed the guards overwrites the buffer of a descriptor the device owns exactly when the packet
   needs more than one shard and an earlier accepted packet did.
   */
  lemma FillTouchesOwnedBuffer(c: Config, buf: seq<seq<Byte>>, steps: seq<Step>)
    requires Allocated(c, buf) && c.a0
    ensures var s := After(c, buf, steps);
            s.pc.Fill? ==>
              ((exists i :: 0 <= i < NumShards(|s.pc.pkt|) && i < c.n && Own(s.desc[i]))
               <==> NumShards(|s.pc.pkt|) >= 2 && MaxShards(s.accepted) >= 2)
    ensures var s := After(c, buf, steps);
            s.pc.Fill? && s.pc.k < NumShards(|s.pc.pkt|) && s.pc.k < c.n ==>
              DriverStep(c, s).buf == s.buf[s.pc.k := ShardBuffer(s.buf[s.pc.k], s.pc.pkt, s.pc.k, c.swap)]
  {
    hide After, TxChain.Final, TxChain.Holds, FrameAt, MaxShards, Own, ShardBuffer;
    Reachable(c, buf, steps);
    var s := After(c, buf, steps);
    if s.pc.Fill? {
      if NumShards(|s.pc.pkt|) >= 2 && MaxShards(s.accepted) >= 2 {
        assert SlotOk(c, s, 1);
        assert Own(s.desc[1]);
      }
      forall i | 0 <= i < NumShards(|s.pc.pkt|) && i < c.n && Own(s.desc[i])
        ensures NumShards(|s.pc.pkt|) >= 2 && MaxShards(s.accepted) >= 2
      {
        assert SlotOk(c, s, i);
      }
      if s.pc.k < NumShards(|s.pc.pkt|) {
        HomeSlot(c, s, s.pc.k);
      }
    }
  }

  /** Two packets of more than one shard. */
  lemma {:induction false} MaxShardsMember(pkts: seq<seq<Byte>>, j: nat)
    requires j < |pkts|
    ensures NumShards(|pkts[j]|) <= MaxShards(pkts)
    decreases |pkts|
  {
    if j < |pkts| - 1 {
      MaxShardsMember(pkts[..|pkts| - 1], j);
    }
  }

  ghost predicate OneMultiShard(pkts: seq<seq<Byte>>) {
    forall i, j :: 0 <= i < j < |pkts| ==> NumShards(|pkts[i]|) < 2 || NumShards(|pkts[j]|) < 2
  }

  lemma OneMultiShardStep(c: Config, s: State, step: Step)
    requires Inv(c, s) && OneMultiShard(s.accepted)
    ensures OneMultiShard(Apply(c, s, step).accepted)
  {
    hide SlotOk, NumShards, Own, Err, ShardBuffer, CanComplete, Frames, MaxShards;
    var t := Apply(c, s, step);
    if step.Drive? && s.pc.Publish? {
      forall i, j | 0 <= i < j < |t.accepted|
        ensures NumShards(|t.accepted[i]|) < 2 || NumShards(|t.accepted[j]|) < 2
      {
        MaxShardsMember(s.accepted, i);
      }
    } else {
      assert t.accepted == s.accepted;
    }
  }

  /**
   Consequence: unchained descriptors past slot 0 never come back, so in every run at most one
   packet of more than one shard is ever accepted.
   */
  lemma {:induction false} AtMostOneMultiShardPacket(c: Config, buf: seq<seq<Byte>>, steps: seq<Step>)
    requires Allocated(c, buf) && c.a0
    ensures OneMultiShard(After(c, buf, steps).accepted)
    decreases |steps|
  {
    hide Inv, Apply;
    if steps == [] {
      assert After(c, buf, steps).accepted == [];
    } else {
      var most := steps[..|steps| - 1];
      AtMostOneMultiShardPacket(c, buf, most);
      Reachable(c, buf, most);
      OneMultiShardStep(c, After(c, buf, most), steps[|steps| - 1]);
    }
  }

  /**
   What is sent: the first shard of each accepted packet, in order and once each. So when every
   accepted packet fits one shard, a receiver gets exactly the accepted packets, the last one
   possibly still outstanding.
   */
  lemma WireCarriesFirstShards(c: Config, buf: seq<seq<Byte>>, steps: seq<Step>)
    requires Allocated(c, buf) && c.a0
    ensures var s := After(c, buf, steps);
            && |s.accepted| - 1 <= |s.wire| <= |s.accepted|
            && (forall j :: 0 <= j < |s.wire| ==>
                  |s.accepted[j]| > 0 && s.wire[j] == FrameAt(s.accepted[j], 0) && Carries(s.wire[j], s.accepted[j], 0))
            && (MaxShards(s.accepted) <= 1 ==> Deframe([], s.wire) == PaddedAll(s.accepted[..|s.wire|]))
  {
    hide After, SlotOk, PcOk, MaxShards, Deframe, FrameAt, NumShards, Carries;
    Reachable(c, buf, steps);
    var s := After(c, buf, steps);
    forall j | 0 <= j < |s.wire|
      ensures NumShards(|s.accepted[j]|) <= MaxShards(s.accepted) && Carries(s.wire[j], s.accepted[j], 0)
    {
      MaxShardsMember(s.accepted, j);
      FrameCarries(s.accepted[j], 0);
    }
    if MaxShards(s.accepted) <= 1 {
      SingleShards(s.accepted[..|s.wire|], s.wire);
      DeframeAll(s.accepted[..|s.wire|]);
    }
  }

  lemma {:induction false} SingleShards(pkts: seq<seq<Byte>>, wire: seq<Frame>)
    requires |wire| == |pkts|
    requires forall j :: 0 <= j < |pkts| ==> 0 < |pkts[j]| && NumShards(|pkts[j]|) <= 1
    requires forall j :: 0 <= j < |pkts| ==> wire[j] == FrameAt(pkts[j], 0)
    ensures AllFrames(pkts) == wire
    decreases |pkts|
  {
    hide FrameAt;
    if pkts != [] {
      var n := |pkts| - 1;
      SingleShards(pkts[..n], wire[..n]);
      assert Frames(pkts[n]) == [wire[n]];
      assert wire == wire[..n] + [wire[n]];
    }
  }

  /** An outstanding packet's first shard can be sent, at the latest after the device has been pointed at it. */
  lemma OutstandingCanGo(c: Config, s: State)
    requires Inv(c, s) && Outstanding(s) && !s.pc.SetCdp?
    ensures CanComplete(c, s, 0, 0, 0) && |DeviceStep(c, s, 0, 0, 0).wire| == |s.accepted|
    ensures DeviceStep(c, s, 0, 0, 0).accepted == s.accepted
  {
    hide FrameData, ShardLen, Wire, Bits.Bit, MaxShards;
    assert SlotOk(c, s, 0);
    Bits.FlagBits();
  }

  lemma PointedAt(c: Config, s: State)
    requires Inv(c, s) && s.pc.SetCdp?
    ensures var t := Apply(c, s, Drive);
            Inv(c, t) && !t.pc.SetCdp? && t.accepted == s.accepted && t.wire == s.wire
  {
    StepInv(c, s, Drive);
  }

  lemma SendLast(c: Config, s: State) returns (more: seq<Step>)
    requires Inv(c, s)
    ensures var t := Exec(c, s, more); |t.wire| == |s.accepted| && t.accepted == s.accepted
  {
    hide SlotOk, PcOk, DeviceStep, DriverStep, CanComplete;
    more := [];
    if Outstanding(s) {
      var t := s;
      if s.pc.SetCdp? {
        PointedAt(c, s);
        ExecOne(c, s, more, Drive);
        more := more + [Drive];
        t := Apply(c, s, Drive);
      }
      OutstandingCanGo(c, t);
      ExecOne(c, s, more, Device(0, 0, 0));
      more := more + [Device(0, 0, 0)];
    }
  }

  /** Only first shards are ever on the wire. */
  lemma WireHasSops(c: Config, s: State, f: Frame)
    requires Inv(c, s) && f in s.wire
    ensures f.sop
  {
    hide SlotOk, PcOk, FrameData;
  }

  /**
   Which accepted packets get through whole: all shards of the j-th are on the wire, in some continuation
   of the run, if and only if it has only one.
   */
  lemma SentWholeIff(c: Config, buf: seq<seq<Byte>>, steps: seq<Step>, j: nat)
    requires Allocated(c, buf) && c.a0
    ensures var s := After(c, buf, steps);
            j < |s.accepted| ==>
              var p := s.accepted[j];
              ((exists more :: forall k :: 0 <= k < NumShards(|p|) ==> FrameAt(p, k) in Exec(c, s, more).wire)
               <==> NumShards(|p|) == 1)
  {
    hide After, SlotOk, PcOk, FrameData;
    Reachable(c, buf, steps);
    var s := After(c, buf, steps);
    if j < |s.accepted| {
      var p := s.accepted[j];
      assert NumShards(|p|) >= 1;
      hide NumShards;
      if NumShards(|p|) == 1 {
        var more := SendLast(c, s);
        RunInv(c, s, more);
        assert Exec(c, s, more).wire[j] == FrameAt(p, 0);
        assert forall k :: 0 <= k < NumShards(|p|) ==> FrameAt(p, k) in Exec(c, s, more).wire;
      } else {
        forall more
          ensures FrameAt(p, 1) !in Exec(c, s, more).wire
        {
          RunInv(c, s, more);
          if FrameAt(p, 1) in Exec(c, s, more).wire {
            WireHasSops(c, Exec(c, s, more), FrameAt(p, 1));
          }
        }
      }
    }
  }

  /**
   Publication order under the A0 flag: slot 0 is not the device's while a packet is being
   enqueued, and while it is the device's every shard of the packet is complete.
   */
  lemma PublicationOrder(c: Config, buf: seq<seq<Byte>>, steps: seq<Step>, m: nat)
    requires Allocated(c, buf) && c.a0
    ensures var s := After(c, buf, steps);
            && (Enqueuing(s.pc) ==> !Own(s.desc[0]))
            && (Own(s.desc[0]) ==> |s.accepted| > 0)
            && (Own(s.desc[0]) && m < NumShards(|s.accepted[|s.accepted| - 1]|) && m < c.n ==>
                  TxChain.Final(c, m, s.desc[m], s.buf[m], FrameAt(s.accepted[|s.accepted| - 1], m)))
  {
    hide After, TxChain.Final, TxChain.Holds, FrameAt, MaxShards, Bits.Bit;
    Reachable(c, buf, steps);
    var s := After(c, buf, steps);
    assert SlotOk(c, s, 0);
    Bits.FlagBits();
    if m < c.n {
      assert SlotOk(c, s, m);
    }
  }

  /** The words of the last accepted packet's descriptors while the device owns slot 0. */
  lemma DescriptorWords(c: Config, buf: seq<seq<Byte>>, steps: seq<Step>, k: nat)
    requires Allocated(c, buf) && c.a0 && k < c.n
    ensures var s := After(c, buf, steps);
            && (Own(s.desc[0]) ==> |s.accepted| > 0)
            && (Own(s.desc[0]) && 4096 * k < |s.accepted[|s.accepted| - 1]| ==>
                  var p := s.accepted[|s.accepted| - 1];
                  && s.desc[k].w0 == 16 + (if k == 0 then 8 else 0) + (if |p| <= 4096 * k + 4096 then 4 else 0)
                  && s.desc[k].w1 == (if |p| < 128 then 128 else if |p| <= 4096 * k + 4096 then |p| - 4096 * k else 4096)
                  && s.desc[k].w2 == c.dma[k])
  {
    hide After, FrameData, Wire, Own;
    PublicationOrder(c, buf, steps, k);
    var s := After(c, buf, steps);
    if Own(s.desc[0]) && 4096 * k < |s.accepted[|s.accepted| - 1]| {
      FrameCarries(s.accepted[|s.accepted| - 1], k);
    }
  }

  /** What holds of every run holds of the queue object. */
  lemma QueueKeepsInvariant(q: Q.Queue)
    requires q.Valid() && q.c.a0
    ensures Inv(q.c, q.Abs())
  {
    hide Inv;
    Reachable(q.c, q.buf0, q.trace);
  }
}
