/**
 Transmit under the A0 flag, the mode xp_netdev_init selects: descriptors are not chained,
 every packet is enqueued at slot 0, and the device is pointed there for each packet.
 */
module TxA0 {

  import opened Descriptors
  import opened Shards
  import opened TxMachine
  import TxChain
  import Bits
  import Ring

  /** The largest number of shards of any packet accepted so far. */
  function MaxShards(pkts: seq<seq<Byte>>): nat {
    if pkts == [] then 0
    else
      var m := MaxShards(pkts[..|pkts| - 1]);
      var k := NumShards(|pkts[|pkts| - 1]|);
      if m < k then k else m
  }

  predicate Writing(pc: Pc) { pc.Write? || pc.MarkEop? || pc.Publish? }

  predicate Enqueuing(pc: Pc) { pc.Fill? || pc.Check? || Writing(pc) }

  /** The completion loop, in which head and tail are away from their home. */
  predicate Completing(pc: Pc) {
    pc.Complete? || pc.Scan? || pc.Spin? || pc.Settle? || pc.Finish?
  }

  function Filled(pc: Pc): nat {
    if pc.Fill? then pc.k else if Enqueuing(pc) then NumShards(|pc.pkt|) else 0
  }

  /** The packet published and not yet sent, if any. */
  predicate Outstanding(s: State) { |s.wire| < |s.accepted| }

  ghost predicate PcOk(c: Config, s: State) {
    && (Enqueuing(s.pc) ==>
          0 < |s.pc.pkt| && NumShards(|s.pc.pkt|) <= c.n - 1 && !Outstanding(s))
    && (s.pc.Fill? ==> s.pc.k <= NumShards(|s.pc.pkt|))
    && (s.pc.Check? ==> s.pc.k <= NumShards(|s.pc.pkt|) && (s.pc.k >= 2 ==> MaxShards(s.accepted) <= 1))
    && (Writing(s.pc) ==> NumShards(|s.pc.pkt|) == 1 || MaxShards(s.accepted) <= 1)
    && (s.pc.Write? ==> s.pc.k <= NumShards(|s.pc.pkt|) && s.pc.word <= 2
                        && (s.pc.k == NumShards(|s.pc.pkt|) ==> s.pc.word == 2))
    && (s.pc.SetCdp? || s.pc.Advance? ==> |s.accepted| > 0)
  }

  ghost predicate Globals(c: Config, s: State) {
    && Shape(c, s) && c.a0 && PcOk(c, s)
    && (!Completing(s.pc) ==> s.head == c.n - 1 && s.tail == 0)
    && (s.cdp == 0 || s.cdp == DescAddr(c, 0))
    && (Outstanding(s) && !s.pc.SetCdp? ==> s.cdp == DescAddr(c, 0))
    && (forall i :: 0 <= i < c.n ==> s.desc[i].w3 == 0)
    && (forall j :: 0 <= j < |s.accepted| ==> |s.accepted[j]| > 0)
    && |s.accepted| - 1 <= |s.wire| <= |s.accepted|
    && (forall j :: 0 <= j < |s.wire| ==> s.wire[j] == FrameAt(s.accepted[j], 0))
  }

  /** Who owns slot `i` when it is not being written. */
  predicate Expected(s: State, i: nat) {
    if i == 0 then Outstanding(s) else i < MaxShards(s.accepted)
  }

  ghost predicate SlotOk(c: Config, s: State, i: nat)
    requires Shape(c, s) && i < c.n
  {
    if Writing(s.pc) && i < NumShards(|s.pc.pkt|) then
      TxChain.Fits(c, i, s.desc[i], s.buf[i], s.blen[i], TxChain.Stage(s.pc, i))
    else
      && (Own(s.desc[i]) <==> Expected(s, i))
      && (i < Filled(s.pc) && i < NumShards(|s.pc.pkt|) ==> TxChain.Holds(c, s.buf[i], s.blen[i], s.pc.pkt, i))
      && (Outstanding(s) && i < NumShards(|s.accepted[|s.accepted| - 1]|) ==>
            TxChain.Final(c, i, s.desc[i], s.buf[i], FrameAt(s.accepted[|s.accepted| - 1], i)))
  }

  ghost predicate Inv(c: Config, s: State) {
    Globals(c, s) && forall i :: 0 <= i < c.n ==> SlotOk(c, s, i)
  }

  // ----------------------------------------------------- the invariant, step by step

  lemma InitInv(c: Config, buf: seq<seq<Byte>>)
    requires Allocated(c, buf) && c.a0
    ensures Inv(c, Init(c, buf))
  {
    Bits.FlagBits();
  }

  lemma HomeSlot(c: Config, s: State, k: nat)
    requires Shape(c, s) && s.tail == 0 && k < c.n
    ensures Slot(c, s, k) == k && Slot(c, s, k + c.n) == k
  {
    assert Ring.Wrap(k + c.n, c.n) == Ring.Wrap(k, c.n);
  }

  lemma BeginInv(c: Config, s: State, skb: Skb)
    requires Inv(c, s) && s.pc.Idle?
    ensures Inv(c, Begin(c, s, skb))
  {
    hide TxChain.Fits, TxChain.Final, TxChain.Holds, Bits.Bit, MaxShards;
    var t := Begin(c, s, skb);
    assert SlotOk(c, s, 0);
    forall i | 0 <= i < c.n
      ensures SlotOk(c, t, i)
    {
      assert SlotOk(c, s, i);
    }
  }

  lemma FillInv(c: Config, s: State, p: seq<Byte>, k: nat)
    requires Inv(c, s) && s.pc == Fill(p, k)
    ensures Inv(c, FillStep(c, s, p, k))
  {
    hide TxChain.Fits, TxChain.Final, Wire, FrameData, ShardLen, ShardBuffer, Own, MaxShards, FrameAt;
    var t := FillStep(c, s, p, k);
    if k < NumShards(|p|) {
      HomeSlot(c, s, k);
      WireOfShard(s.buf[k], p, k, c.swap);
    }
    forall i | 0 <= i < c.n
      ensures SlotOk(c, t, i)
    {
      assert SlotOk(c, s, i);
    }
  }

  lemma CheckInv(c: Config, s: State, p: seq<Byte>, k: nat)
    requires Inv(c, s) && s.pc == Check(p, k)
    ensures Inv(c, CheckStep(c, s, p, k))
  {
    hide TxChain.Final, TxChain.Holds, Own, MaxShards, FrameAt;
    var t := CheckStep(c, s, p, k);
    if k < NumShards(|p|) {
      HomeSlot(c, s, k);
      assert SlotOk(c, s, k);
    }
    forall i | 0 <= i < c.n
      ensures SlotOk(c, t, i)
    {
      assert SlotOk(c, s, i);
    }
  }

  lemma WriteInv(c: Config, s: State, p: seq<Byte>, k: nat, word: nat)
    requires Inv(c, s) && s.pc == Write(p, k, word)
    ensures Inv(c, WriteStep(c, s, p, k, word))
  {
    hide TxChain.Final, TxChain.Holds, Bits.Bit, MaxShards, FrameAt, NumShards;
    var t := WriteStep(c, s, p, k, word);
    if k < NumShards(|p|) {
      HomeSlot(c, s, k);
    }
    forall i | 0 <= i < c.n
      ensures SlotOk(c, t, i)
    {
      assert SlotOk(c, s, i);
    }
  }

  lemma MarkEopInv(c: Config, s: State, p: seq<Byte>)
    requires Inv(c, s) && s.pc == MarkEop(p)
    ensures Inv(c, MarkEopStep(c, s, p))
  {
    hide TxChain.Final, TxChain.Holds, Bits.Bit, MaxShards, FrameAt;
    var t := MarkEopStep(c, s, p);
    HomeSlot(c, s, NumShards(|p|) - 1);
    Bits.FlagWords();
    forall i | 0 <= i < c.n
      ensures SlotOk(c, t, i)
    {
      assert SlotOk(c, s, i);
    }
  }

  lemma MaxShardsAppend(pkts: seq<seq<Byte>>, p: seq<Byte>)
    ensures MaxShards(pkts + [p]) == if MaxShards(pkts) < NumShards(|p|) then NumShards(|p|) else MaxShards(pkts)
  {
    assert (pkts + [p])[..|pkts|] == pkts;
  }

  lemma PublishSlot(c: Config, s: State, p: seq<Byte>, i: nat)
    requires Inv(c, s) && s.pc == Publish(p) && i < c.n
    ensures SlotOk(c, PublishStep(c, s, p), i)
  {
    hide Wire, FrameData, ShardLen, Bits.Bit, MaxShards, Frames;
    MaxShardsAppend(s.accepted, p);
    Bits.FlagWords();
    Bits.FlagBits();
    assert SlotOk(c, s, i);
    var t := PublishStep(c, s, p);
    assert t.accepted[|t.accepted| - 1] == p;
  }

  lemma PublishInv(c: Config, s: State, p: seq<Byte>)
    requires Inv(c, s) && s.pc == Publish(p)
    ensures Inv(c, PublishStep(c, s, p))
  {
    hide SlotOk, MaxShards, Frames, FrameAt;
    var t := PublishStep(c, s, p);
    forall i | 0 <= i < c.n
      ensures SlotOk(c, t, i)
    {
      PublishSlot(c, s, p, i);
    }
  }

  /** Outside the enqueue only indices, the device's pointer and the program counter change. */
  lemma QuietSlot(c: Config, s: State, t: State, i: nat)
    requires Shape(c, s) && Shape(c, t) && i < c.n && SlotOk(c, s, i) && !Enqueuing(s.pc) && !Enqueuing(t.pc)
    requires t.desc == s.desc && t.buf == s.buf && t.accepted == s.accepted && t.wire == s.wire
    ensures SlotOk(c, t, i)
  {
    hide TxChain.Final, Own, MaxShards, FrameAt;
  }

  lemma CompletingGlobals(c: Config, s: State)
    requires Globals(c, s) && Completing(s.pc)
    ensures var t := DriverStep(c, s);
            && Globals(c, t) && !Enqueuing(t.pc)
            && t.desc == s.desc && t.buf == s.buf && t.accepted == s.accepted && t.wire == s.wire
  {
    hide Own, Err, MaxShards, FrameAt, NumShards, Ring.Wrap;
  }

  lemma RestGlobals(c: Config, s: State)
    requires Globals(c, s) && !Enqueuing(s.pc)
    ensures var t := DriverStep(c, s);
            && Globals(c, t) && !Enqueuing(t.pc)
            && t.desc == s.desc && t.buf == s.buf && t.accepted == s.accepted && t.wire == s.wire
  {
    hide Own, Err, MaxShards, FrameAt, NumShards, Ring.Wrap, ScanStep, SpinStep, SettleStep, FinishStep;
    if Completing(s.pc) {
      CompletingGlobals(c, s);
    }
  }

  lemma RestInv(c: Config, s: State)
    requires Inv(c, s) && !Enqueuing(s.pc)
    ensures Inv(c, DriverStep(c, s))
  {
    hide SlotOk, DriverStep, PcOk;
    RestGlobals(c, s);
    var t := DriverStep(c, s);
    forall i | 0 <= i < c.n
      ensures SlotOk(c, t, i)
    {
      QuietSlot(c, s, t, i);
    }
  }

  /** The device only ever completes slot 0, and only an outstanding packet's. */
  lemma DeviceTarget(c: Config, s: State, slot: nat, page: nat, w0: nat)
    requires Inv(c, s) && CanComplete(c, s, slot, page, w0)
    ensures slot == page == 0 && Outstanding(s) && !Enqueuing(s.pc)
    ensures TxChain.Final(c, 0, s.desc[0], s.buf[0], FrameAt(s.accepted[|s.accepted| - 1], 0))
  {
    hide Wire, FrameData, ShardLen, Bits.Bit, MaxShards;
    assert slot == 0;
    assert SlotOk(c, s, 0);
    Bits.FlagBits();
  }

  lemma DeviceInv(c: Config, s: State, slot: nat, page: nat, w0: nat)
    requires Inv(c, s)
    ensures Inv(c, DeviceStep(c, s, slot, page, w0))
  {
    hide TxChain.Fits, TxChain.Holds, FrameData, ShardLen, Bits.Bit, MaxShards;
    if CanComplete(c, s, slot, page, w0) {
      DeviceTarget(c, s, slot, page, w0);
      var f := FrameAt(s.accepted[|s.accepted| - 1], 0);
      TxChain.FlagBits(f);
      var t := DeviceStep(c, s, slot, page, w0);
      forall i | 0 <= i < c.n
        ensures SlotOk(c, t, i)
      {
        assert SlotOk(c, s, i);
      }
    }
  }

  lemma StepInv(c: Config, s: State, step: Step)
    requires Inv(c, s)
    ensures Inv(c, Apply(c, s, step))
  {
    hide SlotOk, Begin, DeviceStep, FillStep, CheckStep, WriteStep, MarkEopStep, PublishStep, PcOk;
    match step
    case Xmit(skb) => if s.pc.Idle? { BeginInv(c, s, skb); }
    case Device(slot, page, w0) => DeviceInv(c, s, slot, page, w0);
    case Drive =>
      if !Enqueuing(s.pc) {
        RestInv(c, s);
      } else {
        match s.pc
        case Fill(p, k) => FillInv(c, s, p, k);
        case Check(p, k) => CheckInv(c, s, p, k);
        case Write(p, k, word) => WriteInv(c, s, p, k, word);
        case MarkEop(p) => MarkEopInv(c, s, p);
        case Publish(p) => PublishInv(c, s, p);
      }
  }

  lemma {:induction false} RunInv(c: Config, s: State, steps: seq<Step>)
    requires Inv(c, s)
    ensures Inv(c, Exec(c, s, steps))
    decreases |steps|
  {
    hide Apply, SlotOk, PcOk;
    if steps != [] {
      RunInv(c, s, steps[..|steps| - 1]);
      StepInv(c, Exec(c, s, steps[..|steps| - 1]), steps[|steps| - 1]);
    }
  }

  lemma Reachable(c: Config, buf: seq<seq<Byte>>, steps: seq<Step>)
    requires Allocated(c, buf) && c.a0
    ensures Inv(c, After(c, buf, steps))
  {
    hide Inv;
    InitInv(c, buf);
    RunInv(c, Init(c, buf), steps);
  }
}
