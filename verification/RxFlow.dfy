/**
 What holds of the receive queue after every run: either packets flow through it in order, or
 the driver has met a completion it cannot hand up and never delivers again.
 */
module RxFlow {

  import opened Descriptors
  import opened Shards
  import opened RxMachine
  import Bits
  import Ring

  /** The driver holds a packet it has copied and not yet handed up. */
  predicate InHand(pc: Pc) {
    pc.Relength? || pc.Republish? || pc.Bump? || pc.Rewind? || pc.HandUp?
  }

  /** Completions the driver has copied out. */
  function Taken(s: State): nat {
    |s.delivered| + if InHand(s.pc) then 1 else 0
  }

  /** The next slot to copy from. */
  function NextSlot(c: Config, s: State): nat {
    if s.pc.Relength? || s.pc.Republish? || s.pc.Bump? then s.tail + 1
    else if s.pc.Rewind? then c.n
    else s.tail
  }

  /** The device is at a slot of the ring or past its end. */
  ghost predicate DeviceAt(c: Config, s: State, p: nat) {
    p <= c.n && s.cdp == (if p < c.n then DescAddr(c, p) else 0)
  }

  /** Completion `j` may be handed up: with an error word only if it slipped in between the two reads. */
  predicate Takeable(c: Config, s: State, j: nat)
    requires j < |s.written| == |s.late|
  {
    Sized(c, s.written[j]) && (s.written[j].w0 == 1 ==> s.late[j])
  }

  /** The packets handed up so far are those of the first completions, all of them takeable. */
  ghost predicate InOrder(c: Config, s: State)
    requires Shape(c, s)
  {
    && Taken(s) <= |s.written|
    && (forall j :: 0 <= j < |s.delivered| ==> Takeable(c, s, j) && s.delivered[j] == Payload(c, s.written[j]))
    && (InHand(s.pc) ==> Takeable(c, s, Taken(s) - 1) && s.pc.skb == Payload(c, s.written[Taken(s) - 1]))
  }

  /** Slot `i` holds completion `k`, not yet copied out. */
  predicate Has(s: State, i: nat, k: Completion)
    requires i < |s.desc| && i < |s.buf|
  {
    !Own(s.desc[i]) && s.desc[i].w0 == k.w0 && s.desc[i].w1 == k.w1 && s.buf[i] == k.data
  }

  /** Slot `i` while packets flow, with the device at `p`. */
  ghost predicate SlotOk(c: Config, s: State, p: nat, i: nat)
    requires Shape(c, s) && i < c.n
  {
    var t := NextSlot(c, s);
    && s.desc[i].w2 == c.dma[i] && s.desc[i].w3 == Linked(c, i)
    && (if t <= i < p then
          var j := Taken(s) + (i - t); j < |s.written| && Has(s, i, s.written[j])
        else if i == s.tail && (s.pc.Relength? || s.pc.Republish?) then
          !Own(s.desc[i]) && (s.pc.Republish? ==> s.desc[i].w1 == MAX_PACKET)
        else s.desc[i].w0 == OWNERSHIP && s.desc[i].w1 == MAX_PACKET)
  }

  ghost predicate FlowGlobals(c: Config, s: State, p: nat) {
    && Shape(c, s) && DeviceAt(c, s, p) && InOrder(c, s)
    && !s.pc.Reset? && !s.pc.Hung?
    && NextSlot(c, s) <= p && Taken(s) + (p - NextSlot(c, s)) == |s.written|
    && (s.pc.Rewind? ==> s.tail == 0)
    && (s.pc.Look? ==> s.pc.left > 0)
    && (s.pc.Look? && s.tail < p && s.written[Taken(s)].w0 == 1 ==> s.late[Taken(s)])
    && (s.pc.Copy? ==> s.tail < p && Takeable(c, s, Taken(s)) && s.pc.size == PktSize(c, s.written[Taken(s)].w1))
  }

  /** Packets flow. */
  ghost predicate Flow(c: Config, s: State, p: nat) {
    FlowGlobals(c, s, p) && forall i :: 0 <= i < c.n ==> SlotOk(c, s, p, i)
  }

  /** The driver stands before a completion it cannot hand up, and the device has gone past it. */
  ghost predicate Stuck(c: Config, s: State, p: nat) {
    && Shape(c, s) && DeviceAt(c, s, p) && InOrder(c, s)
    && s.tail < p && |s.delivered| < |s.written| && !Good(c, s.written[|s.delivered|])
    && (s.pc.Idle? || s.pc.Poll? || s.pc.Look? || s.pc.Reset? || s.pc.Hung?)
    && (s.pc.Idle? || s.pc.Poll? || s.pc.Look? || (s.pc.Reset? && s.pc.stage >= 4) ==> s.desc[s.tail].w0 == OWNERSHIP)
    && (forall i :: p <= i < c.n ==> s.desc[i].w2 == c.dma[i] && s.desc[i].w3 == Linked(c, i))
  }

  // ----------------------------------------------------- flow, step by step

  lemma InitFlow(c: Config, buf: seq<seq<Byte>>)
    requires Allocated(c, buf)
    ensures Flow(c, Init(c, buf), 0)
  {
  }

  lemma PollFlow(c: Config, s: State, p: nat, left: nat)
    requires Flow(c, s, p) && s.pc == Poll(left)
    ensures var t := PollStep(c, s, left); Flow(c, t, p) || Stuck(c, t, p)
  {
    hide Payload, PktSize, Sized, Own;
    var t := PollStep(c, s, left);
    assert SlotOk(c, s, p, s.tail);
    SlotsKept(c, s, t, p);
  }

  lemma LookFlow(c: Config, s: State, p: nat, left: nat, alloc: bool)
    requires Flow(c, s, p) && s.pc == Look(left)
    ensures var t := LookStep(c, s, left, alloc); Flow(c, t, p) || Stuck(c, t, p)
  {
    hide Payload, PktSize, Bits.Bit;
    var t := LookStep(c, s, left, alloc);
    assert SlotOk(c, s, p, s.tail);
    Bits.FlagBits();
    SlotsKept(c, s, t, p);
  }

  /** A step of the polling driver leaves every slot as it is. */
  lemma SlotsKept(c: Config, s: State, t: State, p: nat)
    requires Flow(c, s, p) && (s.pc.Poll? || s.pc.Look?) && Shape(c, t) && t == s.(pc := t.pc)
    requires t.pc.Idle? || t.pc.Look? || t.pc.Copy? || t.pc.Reset? || t.pc.Hung?
    ensures forall i :: 0 <= i < c.n ==> SlotOk(c, t, p, i)
    ensures forall i :: p <= i < c.n ==> t.desc[i].w2 == c.dma[i] && t.desc[i].w3 == Linked(c, i)
  {
    hide Payload, PktSize, Sized, Own, InOrder;
    forall i | 0 <= i < c.n
      ensures SlotOk(c, t, p, i)
    {
      assert SlotOk(c, s, p, i);
    }
    forall i | p <= i < c.n
      ensures t.desc[i].w2 == c.dma[i] && t.desc[i].w3 == Linked(c, i)
    {
      assert SlotOk(c, s, p, i);
    }
  }

  lemma CopyFlow(c: Config, s: State, p: nat, left: nat, size: nat)
    requires Flow(c, s, p) && s.pc == Copy(left, size)
    ensures Flow(c, CopyStep(c, s, left, size), p)
  {
    hide Unswapped, PktSize, Bits.Bit;
    var t := CopyStep(c, s, left, size);
    assert SlotOk(c, s, p, s.tail);
    forall i | 0 <= i < c.n
      ensures SlotOk(c, t, p, i)
    {
      assert SlotOk(c, s, p, i);
    }
  }

  lemma PutBackFlow(c: Config, s: State, p: nat, alloc: bool)
    requires Flow(c, s, p) && (s.pc.Relength? || s.pc.Republish?)
    ensures Flow(c, DriverStep(c, s, alloc), p)
  {
    hide Payload, PktSize, Bits.Bit, Sized;
    var t := DriverStep(c, s, alloc);
    forall i | 0 <= i < c.n
      ensures SlotOk(c, t, p, i)
    {
      assert SlotOk(c, s, p, i);
    }
  }

  lemma BumpGlobals(c: Config, s: State, p: nat, alloc: bool)
    requires FlowGlobals(c, s, p) && s.pc.Bump?
    ensures var t := DriverStep(c, s, alloc);
            FlowGlobals(c, t, p) && NextSlot(c, t) == NextSlot(c, s) && Taken(t) == Taken(s)
  {
    hide Payload, Sized;
    assert Ring.Wrap(s.tail + 1, c.n) == if s.tail + 1 < c.n then s.tail + 1 else 0;
  }

  lemma BumpSlot(c: Config, s: State, t: State, p: nat, i: nat)
    requires Shape(c, s) && Shape(c, t) && i < c.n && SlotOk(c, s, p, i) && s.pc.Bump?
    requires t.desc == s.desc && t.buf == s.buf && t.written == s.written && (t.pc.Rewind? || t.pc.HandUp?)
    requires NextSlot(c, t) == NextSlot(c, s) && Taken(t) == Taken(s)
    ensures SlotOk(c, t, p, i)
  {
    hide Own, NextSlot, Taken, Linked;
  }

  lemma BumpFlow(c: Config, s: State, p: nat, alloc: bool)
    requires Flow(c, s, p) && s.pc.Bump?
    ensures Flow(c, DriverStep(c, s, alloc), p)
  {
    hide SlotOk, NextSlot, Taken, InOrder, Ring.Wrap;
    var t := DriverStep(c, s, alloc);
    BumpGlobals(c, s, p, alloc);
    forall i | 0 <= i < c.n
      ensures SlotOk(c, t, p, i)
    {
      BumpSlot(c, s, t, p, i);
    }
  }

  /** The chain is rewound only when the device has used it up and every slot is the device's again. */
  lemma RewindFlow(c: Config, s: State, p: nat, alloc: bool)
    requires Flow(c, s, p) && s.pc.Rewind?
    ensures p == c.n && s.cdp == 0 && Flow(c, DriverStep(c, s, alloc), 0)
    ensures forall i :: 0 <= i < c.n ==> s.desc[i] == Desc(OWNERSHIP, MAX_PACKET, c.dma[i], Linked(c, i))
  {
    hide Payload, PktSize, Bits.Bit, Sized;
    var t := DriverStep(c, s, alloc);
    forall i | 0 <= i < c.n
      ensures SlotOk(c, t, 0, i) && s.desc[i] == Desc(OWNERSHIP, MAX_PACKET, c.dma[i], Linked(c, i))
    {
      assert SlotOk(c, s, p, i);
    }
  }

  lemma HandUpFlow(c: Config, s: State, p: nat, alloc: bool)
    requires Flow(c, s, p) && (s.pc.HandUp? || s.pc.Idle?)
    ensures Flow(c, DriverStep(c, s, alloc), p)
  {
    hide Payload, PktSize, Bits.Bit, Sized;
    var t := DriverStep(c, s, alloc);
    forall i | 0 <= i < c.n
      ensures SlotOk(c, t, p, i)
    {
      assert SlotOk(c, s, p, i);
    }
  }

  lemma DeviceFlow(c: Config, s: State, p: nat, slot: nat, page: nat, k: Completion)
    requires Flow(c, s, p)
    ensures var t := DeviceStep(c, s, slot, page, k);
            Flow(c, t, if CanReceive(c, s, slot, page, k) then p + 1 else p)
  {
    hide Payload, PktSize, Bits.Bit, Sized;
    if CanReceive(c, s, slot, page, k) {
      var t := DeviceStep(c, s, slot, page, k);
      assert slot == p;
      assert SlotOk(c, s, p, p);
      assert page == slot;
      var p' := p + 1;
      forall i | 0 <= i < c.n
        ensures SlotOk(c, t, p', i)
      {
        assert SlotOk(c, s, p, i);
      }
    }
  }

  // ---------------------------------------------------------------------- stuck

  lemma StuckDriver(c: Config, s: State, p: nat, alloc: bool)
    requires Stuck(c, s, p)
    ensures Stuck(c, DriverStep(c, s, alloc), p) && DriverStep(c, s, alloc).delivered == s.delivered
  {
    hide Payload, PktSize, Sized, Bits.Bit;
    Bits.FlagBits();
    EnableKeepsOwnership();
  }

  lemma EnableKeepsOwnership()
    ensures Bits.Or(Bits.And(OWNERSHIP, 0x1f), OWNERSHIP) == OWNERSHIP
  {
    assert Bits.And(16, 31) == 16;
    assert Bits.Or(16, 16) == 16;
  }

  lemma StuckDevice(c: Config, s: State, p: nat, slot: nat, page: nat, k: Completion)
    requires Stuck(c, s, p)
    ensures var t := DeviceStep(c, s, slot, page, k);
            && Stuck(c, t, if CanReceive(c, s, slot, page, k) then p + 1 else p)
            && t.delivered == s.delivered
  {
    hide Payload, PktSize, Sized, Bits.Bit;
    if CanReceive(c, s, slot, page, k) {
      assert slot == p;
    }
  }

  // ----------------------------------------------------------------------- runs

  ghost predicate Inv(c: Config, s: State) {
    exists p: nat :: Flow(c, s, p) || Stuck(c, s, p)
  }

  lemma FlowStep(c: Config, s: State, p: nat, step: Step)
    requires Flow(c, s, p)
    ensures Inv(c, Apply(c, s, step))
  {
    hide SlotOk, InOrder, PollStep, LookStep, CopyStep, DeviceStep, CanReceive;
    match step
    case Process(max) =>
      if s.pc.Idle? {
        StartFlow(c, s, p, max);
      } else {
        assert Flow(c, Apply(c, s, step), p);
      }
    case Device(slot, page, k) =>
      DeviceFlow(c, s, p, slot, page, k);
    case Drive(alloc) =>
      if s.pc.Poll? {
        PollFlow(c, s, p, s.pc.left);
      } else if s.pc.Look? {
        LookFlow(c, s, p, s.pc.left, alloc);
      } else if s.pc.Copy? {
        CopyFlow(c, s, p, s.pc.left, s.pc.size);
      } else if s.pc.Rewind? {
        RewindFlow(c, s, p, alloc);
      } else if s.pc.HandUp? || s.pc.Idle? {
        HandUpFlow(c, s, p, alloc);
      } else if s.pc.Bump? {
        BumpFlow(c, s, p, alloc);
      } else {
        PutBackFlow(c, s, p, alloc);
      }
  }

  lemma StartFlow(c: Config, s: State, p: nat, max: nat)
    requires Flow(c, s, p) && s.pc.Idle?
    ensures Flow(c, s.(pc := Poll(max)), p)
  {
    hide Payload, PktSize, Bits.Bit, Sized;
    var t := s.(pc := Poll(max));
    forall i | 0 <= i < c.n
      ensures SlotOk(c, t, p, i)
    {
      assert SlotOk(c, s, p, i);
    }
  }

  lemma StuckStep(c: Config, s: State, p: nat, step: Step)
    requires Stuck(c, s, p)
    ensures Apply(c, s, step).delivered == s.delivered
    ensures exists q: nat :: Stuck(c, Apply(c, s, step), q)
  {
    hide InOrder, DriverStep, DeviceStep, CanReceive, Good;
    match step
    case Process(max) =>
      if s.pc.Idle? {
        StuckStart(c, s, p, max);
      } else {
        assert Stuck(c, Apply(c, s, step), p);
      }
    case Device(slot, page, k) => StuckDevice(c, s, p, slot, page, k);
    case Drive(alloc) => StuckDriver(c, s, p, alloc);
  }

  lemma StuckStart(c: Config, s: State, p: nat, max: nat)
    requires Stuck(c, s, p) && s.pc.Idle?
    ensures Stuck(c, s.(pc := Poll(max)), p)
  {
    hide Payload, PktSize, Sized;
  }

  lemma {:induction false} RunInv(c: Config, s: State, steps: seq<Step>)
    requires Shape(c, s) && Inv(c, s)
    ensures Inv(c, Exec(c, s, steps))
    decreases |steps|
  {
    hide Apply, Flow, Stuck;
    if steps != [] {
      RunInv(c, s, steps[..|steps| - 1]);
      var t := Exec(c, s, steps[..|steps| - 1]);
      var p: nat :| Flow(c, t, p) || Stuck(c, t, p);
      if Flow(c, t, p) {
        FlowStep(c, t, p, steps[|steps| - 1]);
      } else {
        StuckStep(c, t, p, steps[|steps| - 1]);
      }
    }
  }

  lemma Reachable(c: Config, buf: seq<seq<Byte>>, steps: seq<Step>)
    requires Allocated(c, buf)
    ensures Inv(c, After(c, buf, steps))
  {
    hide Flow, Stuck;
    InitFlow(c, buf);
    assert Inv(c, Init(c, buf));
    RunInv(c, Init(c, buf), steps);
  }
}
