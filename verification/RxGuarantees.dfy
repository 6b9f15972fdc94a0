/** What the receive queue guarantees, over every interleaving of driver and device. */
module RxGuarantees {

  import opened Descriptors
  import opened Shards
  import opened RxMachine
  import opened RxFlow
  import Bits
  import Ring
  import Q = RxQueue

  ghost predicate AllGood(c: Config, ks: seq<Completion>) {
    forall j :: 0 <= j < |ks| ==> Good(c, ks[j])
  }

  /** The completions not yet handed up. */
  function Pending(s: State): seq<Completion>
    requires |s.delivered| <= |s.written|
  {
    s.written[|s.delivered|..]
  }

  /**
   In every run, with errors and allocation failures at will, the packets handed up are those of
   the first completions the device wrote: in order, none twice, none skipped, none altered. One that
   carries the error word is among them only if it landed between the two reads of the flag word.
   */
  lemma DeliveredIsPrefix(c: Config, buf: seq<seq<Byte>>, steps: seq<Step>)
    requires Allocated(c, buf)
    ensures var s := After(c, buf, steps);
            && |s.delivered| <= |s.written| == |s.late|
            && (forall j :: 0 <= j < |s.delivered| ==>
                  && Sized(c, s.written[j]) && s.delivered[j] == Payload(c, s.written[j])
                  && (s.written[j].w0 == 1 ==> s.late[j]))
  {
    hide After, Sized, Payload, SlotOk;
    Reachable(c, buf, steps);
    var s := After(c, buf, steps);
    var p: nat :| Flow(c, s, p) || Stuck(c, s, p);
  }

  /** The run that slips an error completion through: it lands between the two reads. */
  lemma ErrorSlipsThrough(c: Config, buf: seq<seq<Byte>>, k: Completion) returns (steps: seq<Step>)
    requires Allocated(c, buf) && k.w0 == 1 && Sized(c, k) && |k.data| == MAX_PACKET
    ensures var s := After(c, buf, steps); s.written == [k] && s.delivered == [Payload(c, k)]
  {
    hide Exec, SlotOk, InOrder, Sized, Payload, DriverStep, DeviceStep;
    var s0 := Init(c, buf);
    var s1 := s0.(pc := Poll(1));
    var s2 := s1.(pc := Look(1));
    var s3 := DeviceStep(c, s2, 0, 0, k);
    ErrorNotOwned();
    FirstLook(c, buf, k);
    InitFlow(c, buf);
    StartFlow(c, s0, 0, 1);
    PollFlow(c, s1, 0, 1);
    DeviceFlow(c, s2, 0, 0, 0, k);
    LookFlow(c, s3, 1, 1, true);
    var s4 := DriverStep(c, s3, true);
    var rest, q := FinishPacket(c, s4, 1);
    var first := [Process(1), Drive(true), Device(0, 0, k), Drive(true)];
    FourSteps(c, s0, first);
    ExecConcat(c, s0, first, rest);
    steps := first + rest;
    DeliveredIsPrefix(c, buf, steps);
  }

  lemma FirstLook(c: Config, buf: seq<seq<Byte>>, k: Completion)
    requires Allocated(c, buf) && Sized(c, k) && |k.data| == MAX_PACKET && !Bits.Bit(k.w0, 4)
    ensures var s := Init(c, buf).(pc := Look(1));
            && DriverStep(c, s.(pc := Poll(1)), true) == PollStep(c, s.(pc := Poll(1)), 1) == s
            && DriverStep(c, DeviceStep(c, s, 0, 0, k), true) == LookStep(c, DeviceStep(c, s, 0, 0, k), 1, true)
            && CanReceive(c, s, 0, 0, k) && DeviceStep(c, s, 0, 0, k).written == [k] && DeviceStep(c, s, 0, 0, k).pc == Look(1)
            && DriverStep(c, DeviceStep(c, s, 0, 0, k), true) == DeviceStep(c, s, 0, 0, k).(pc := Copy(1, PktSize(c, k.w1)))
  {
    hide PktSize;
    Bits.FlagBits();
  }

  lemma NoSteps(c: Config, s: State)
    requires Shape(c, s)
    ensures Exec(c, s, []) == s
  {
  }

  lemma FourSteps(c: Config, s: State, steps: seq<Step>)
    requires Shape(c, s) && |steps| == 4
    ensures Exec(c, s, steps) == Apply(c, Apply(c, Apply(c, Apply(c, s, steps[0]), steps[1]), steps[2]), steps[3])
  {
    hide Apply, Exec;
    ExecOne(c, s, [], steps[0]);
    ExecOne(c, s, [steps[0]], steps[1]);
    ExecOne(c, s, [steps[0], steps[1]], steps[2]);
    ExecOne(c, s, [steps[0], steps[1], steps[2]], steps[3]);
    NoSteps(c, s);
    assert [] + [steps[0]] == [steps[0]] && [steps[0]] + [steps[1]] == [steps[0], steps[1]];
    assert [steps[0], steps[1]] + [steps[2]] == [steps[0], steps[1], steps[2]];
    assert [steps[0], steps[1], steps[2]] + [steps[3]] == steps;
  }

  /**
   Nothing is lost: as long as every completion still to be handed up is one that can be, those sit
   between two driver iterations, in order and unchanged, in the slots from the tail on.
   */
  lemma PendingSitsInRing(c: Config, buf: seq<seq<Byte>>, steps: seq<Step>, i: nat)
    requires Allocated(c, buf)
    ensures var s := After(c, buf, steps);
            && |s.delivered| <= |s.written|
            && (AllGood(c, Pending(s)) && (s.pc.Idle? || s.pc.Poll? || s.pc.Look?) ==>
                  && s.tail + |Pending(s)| <= c.n
                  && (i < |Pending(s)| ==> Has(s, s.tail + i, Pending(s)[i])))
  {
    hide After, Good, Payload, Own;
    Reachable(c, buf, steps);
    var s := After(c, buf, steps);
    var p: nat :| Flow(c, s, p) || Stuck(c, s, p);
    if AllGood(c, Pending(s)) && (s.pc.Idle? || s.pc.Poll? || s.pc.Look?) {
      NotStuck(c, s, p);
      if i < |Pending(s)| {
        assert SlotOk(c, s, p, s.tail + i);
      }
    }
  }

  lemma NotStuck(c: Config, s: State, p: nat)
    requires Flow(c, s, p) || Stuck(c, s, p)
    requires |s.delivered| <= |s.written| && AllGood(c, Pending(s))
    ensures Flow(c, s, p)
  {
    hide Good, SlotOk, InOrder, FlowGlobals;
  }

  /**
   The device's pointer is rewound only when it is off the chain and owns every descriptor again, each as
   set-up left it.
   */
  lemma RewoundOnlyWhenUsedUp(c: Config, buf: seq<seq<Byte>>, steps: seq<Step>, i: nat)
    requires Allocated(c, buf)
    ensures var s := After(c, buf, steps);
            s.pc.Rewind? ==>
              && s.cdp == 0 && s.tail == 0
              && (i < c.n ==> s.desc[i] == Desc(16, 16384, c.dma[i], if i + 1 < c.n then c.base + 32 * (i + 1) else 0))
  {
    hide After, Sized, Payload, SlotOk;
    Reachable(c, buf, steps);
    var s := After(c, buf, steps);
    var p: nat :| Flow(c, s, p) || Stuck(c, s, p);
    if s.pc.Rewind? {
      RewindFlow(c, s, p, true);
    }
  }

  lemma {:induction false} ExecConcat(c: Config, s: State, a: seq<Step>, b: seq<Step>)
    requires Shape(c, s)
    ensures Exec(c, s, a + b) == Exec(c, Exec(c, s, a), b)
    decreases |b|
  {
    hide Apply;
    if b == [] {
      assert a + b == a;
    } else {
      var n := |b| - 1;
      ExecConcat(c, s, a, b[..n]);
      assert (a + b)[..|a| + n] == a + b[..n];
    }
  }

  lemma {:induction false} StuckForever(c: Config, s: State, p: nat, more: seq<Step>)
    requires Stuck(c, s, p)
    ensures Exec(c, s, more).delivered == s.delivered
    ensures exists q: nat :: Stuck(c, Exec(c, s, more), q)
    decreases |more|
  {
    if more == [] {
      assert Stuck(c, Exec(c, s, more), p);
    } else {
      StuckForever(c, s, p, more[..|more| - 1]);
      var t := Exec(c, s, more[..|more| - 1]);
      var q: nat :| Stuck(c, t, q);
      Freeze(c, t, q, more[|more| - 1]);
    }
  }

  lemma Freeze(c: Config, t: State, q: nat, step: Step)
    requires Stuck(c, t, q)
    ensures Apply(c, t, step).delivered == t.delivered
    ensures exists r: nat :: Stuck(c, Apply(c, t, step), r)
  {
    hide Apply, Stuck;
    StuckStep(c, t, q, step);
  }

  /**
   One completion that the driver finds with the error word, an oversize length or (in the swapped mode)
   no payload stops the queue for good: the tail stays, the device has gone on, and nothing is ever
   handed up again.
   */
  lemma BadCompletionStopsDelivery(c: Config, buf: seq<seq<Byte>>, steps: seq<Step>, more: seq<Step>)
    requires Allocated(c, buf)
    ensures var s := After(c, buf, steps);
            s.pc.Reset? || s.pc.Hung? ==> After(c, buf, steps + more).delivered == s.delivered
  {
    hide Exec, Init, SlotOk, Good;
    Reachable(c, buf, steps);
    var s := After(c, buf, steps);
    var p: nat :| Flow(c, s, p) || Stuck(c, s, p);
    if s.pc.Reset? || s.pc.Hung? {
      ExecConcat(c, Init(c, buf), steps, more);
      StuckForever(c, s, p, more);
    }
  }

  // ------------------------------------------------------------ draining the ring

  predicate DriverOnly(steps: seq<Step>) {
    forall i :: 0 <= i < |steps| ==> steps[i].Process? || steps[i].Drive?
  }

  /** Driver steps for which there is always an skb to be had. */
  predicate AllDrives(steps: seq<Step>) {
    forall i :: 0 <= i < |steps| ==> steps[i] == Drive(true)
  }

  function Phase(pc: Pc): nat {
    match pc
    case Copy(_, _) => 6 case Relength(_, _) => 5 case Republish(_, _) => 4
    case Bump(_, _) => 3 case Rewind(_, _) => 2 case HandUp(_, _) => 1
    case _ => 0
  }

  /** A driver step that finishes with the packet being processed. */
  lemma CarryStep(c: Config, s: State, p: nat) returns (q: nat)
    requires Flow(c, s, p) && Phase(s.pc) > 0 && s.pc.left > 0
    ensures var t := DriverStep(c, s, true);
            && Flow(c, t, q) && Phase(t.pc) < Phase(s.pc) && t.written == s.written
            && (if Phase(t.pc) > 0 then
                  t.pc.left == s.pc.left && |t.delivered| == |s.delivered|
                else
                  t.pc == Poll(s.pc.left - 1) && |t.delivered| == |s.delivered| + 1)
  {
    hide Flow, Unswapped;
    q := if s.pc.Rewind? then 0 else p;
    if s.pc.Copy? {
      CopyFlow(c, s, p, s.pc.left, s.pc.size);
    } else if s.pc.Rewind? {
      RewindFlow(c, s, p, true);
    } else if s.pc.HandUp? {
      HandUpFlow(c, s, p, true);
    } else if s.pc.Bump? {
      BumpFlow(c, s, p, true);
    } else {
      PutBackFlow(c, s, p, true);
    }
  }

  lemma {:induction false} FinishPacket(c: Config, s: State, p: nat) returns (steps: seq<Step>, q: nat)
    requires Flow(c, s, p) && Phase(s.pc) > 0 && s.pc.left > 0
    ensures DriverOnly(steps) && AllDrives(steps) && Flow(c, Exec(c, s, steps), q)
    ensures var t := Exec(c, s, steps);
            t.pc == Poll(s.pc.left - 1) && t.written == s.written && |t.delivered| == |s.delivered| + 1
    decreases Phase(s.pc)
  {
    hide DriverStep, SlotOk, InOrder;
    var t := DriverStep(c, s, true);
    q := CarryStep(c, s, p);
    steps := [Drive(true)];
    ExecOne(c, s, [], Drive(true));
    assert [] + [Drive(true)] == [Drive(true)];
    assert Exec(c, s, steps) == t;
    if Phase(t.pc) > 0 {
      var rest, r := FinishPacket(c, t, q);
      ExecConcat(c, s, steps, rest);
      steps, q := steps + rest, r;
    }
  }

  /** The poll of a pending good packet looks again. */
  lemma PollGood(c: Config, s: State, p: nat)
    requires Flow(c, s, p) && s.pc.Poll? && s.pc.left > 0
    requires |s.delivered| < |s.written| && Good(c, s.written[|s.delivered|])
    ensures var t := DriverStep(c, s, true);
            Flow(c, t, p) && t.pc == Look(s.pc.left) && t.written == s.written && t.delivered == s.delivered
  {
    hide PktSize, Payload, Own;
    assert SlotOk(c, s, p, s.tail);
    PollFlow(c, s, p, s.pc.left);
  }

  /** The second look goes on to copy what it finds, if its length is one the driver can deal with. */
  lemma LookTakes(c: Config, s: State, p: nat)
    requires Flow(c, s, p) && s.pc.Look?
    requires |s.delivered| < |s.written| && Sized(c, s.written[|s.delivered|])
    ensures var t := DriverStep(c, s, true);
            Flow(c, t, p) && t.pc.Copy? && t.pc.left == s.pc.left && t.written == s.written && t.delivered == s.delivered
  {
    hide PktSize, Payload, Own;
    assert SlotOk(c, s, p, s.tail);
    LookFlow(c, s, p, s.pc.left, true);
  }

  /** One turn of the loop on a good packet. */
  lemma HandUpOne(c: Config, s: State, p: nat) returns (steps: seq<Step>, q: nat)
    requires Flow(c, s, p) && s.pc.Poll? && s.pc.left > 0
    requires |s.delivered| < |s.written| && Good(c, s.written[|s.delivered|])
    ensures DriverOnly(steps) && AllDrives(steps) && Flow(c, Exec(c, s, steps), q)
    ensures var t := Exec(c, s, steps);
            t.pc == Poll(s.pc.left - 1) && t.written == s.written && |t.delivered| == |s.delivered| + 1
  {
    assert Shape(c, s);
    hide DriverStep, Exec, Flow, Sized, DriverOnly;
    PollGood(c, s, p);
    var t := DriverStep(c, s, true);
    LookTakes(c, t, p);
    var two := [Drive(true), Drive(true)];
    TwoDrives(c, s);
    var rest, r := FinishPacket(c, DriverStep(c, t, true), p);
    ExecConcat(c, s, two, rest);
    DriversJoin(two, rest);
    steps, q := two + rest, r;
  }

  lemma TwoDrives(c: Config, s: State)
    requires Shape(c, s)
    ensures Exec(c, s, [Drive(true), Drive(true)]) == DriverStep(c, DriverStep(c, s, true), true)
    ensures DriverOnly([Drive(true), Drive(true)]) && AllDrives([Drive(true), Drive(true)])
  {
    hide DriverStep, Exec;
    NoSteps(c, s);
    ExecOne(c, s, [], Drive(true));
    ExecOne(c, s, [Drive(true)], Drive(true));
    assert [] + [Drive(true)] == [Drive(true)];
    assert [Drive(true)] + [Drive(true)] == [Drive(true), Drive(true)];
  }

  lemma DriversJoin(a: seq<Step>, b: seq<Step>)
    requires DriverOnly(a) && DriverOnly(b)
    ensures DriverOnly(a + b)
  {
  }

  lemma {:induction false} Drain(c: Config, s: State, p: nat) returns (steps: seq<Step>)
    requires Flow(c, s, p) && s.pc.Poll? && s.pc.left >= |s.written| - |s.delivered| >= 0
    requires forall j :: |s.delivered| <= j < |s.written| ==> Good(c, s.written[j])
    ensures DriverOnly(steps) && |Exec(c, s, steps).delivered| == |s.written|
    decreases |s.written| - |s.delivered|
  {
    hide DriverStep, SlotOk, InOrder, Good;
    if |s.written| == |s.delivered| {
      steps := [];
    } else {
      var one, q := HandUpOne(c, s, p);
      var rest := Drain(c, Exec(c, s, one), q);
      ExecConcat(c, s, one, rest);
      steps := one + rest;
    }
  }

  lemma {:induction false} DriverOnlyKeepsWritten(c: Config, s: State, steps: seq<Step>)
    requires Shape(c, s) && DriverOnly(steps)
    ensures Exec(c, s, steps).written == s.written
    decreases |steps|
  {
    hide Own, Good, PktSize, Unswapped, Shape, ValidConfig;
    if steps != [] {
      DriverOnlyKeepsWritten(c, s, steps[..|steps| - 1]);
    }
  }

  /**
   An idle driver can hand up everything the device has written if and only if every completion still
   pending is good: then some run of the driver alone does, and otherwise none does.
   */
  lemma DrainsIffAllGood(c: Config, buf: seq<seq<Byte>>, before: seq<Step>)
    requires Allocated(c, buf) && After(c, buf, before).pc.Idle?
    ensures var s := After(c, buf, before);
            && |s.delivered| <= |s.written|
            && ((exists steps :: DriverOnly(steps) && |Exec(c, s, steps).delivered| == |s.written|) <==> AllGood(c, Pending(s)))
  {
    hide After, SlotOk, InOrder, Good, DriverOnly, Apply, AllGood;
    DeliveredIsPrefix(c, buf, before);
    var s := After(c, buf, before);
    if AllGood(c, Pending(s)) {
      var steps := DrainAll(c, buf, before);
      assert DriverOnly(steps);
    }
    if exists steps :: DriverOnly(steps) && |Exec(c, s, steps).delivered| == |s.written| {
      var steps :| DriverOnly(steps) && |Exec(c, s, steps).delivered| == |s.written|;
      OnlyGoodDelivered(c, buf, before, steps);
    }
  }

  lemma PendingGood(c: Config, s: State)
    requires |s.delivered| <= |s.written| && AllGood(c, Pending(s))
    ensures forall j :: |s.delivered| <= j < |s.written| ==> Good(c, s.written[j])
  {
    hide Good;
    forall j | |s.delivered| <= j < |s.written|
      ensures Good(c, s.written[j])
    {
      assert s.written[j] == Pending(s)[j - |s.delivered|];
    }
  }

  lemma DrainAll(c: Config, buf: seq<seq<Byte>>, before: seq<Step>) returns (steps: seq<Step>)
    requires Allocated(c, buf) && After(c, buf, before).pc.Idle?
    requires var s := After(c, buf, before); |s.delivered| <= |s.written| && AllGood(c, Pending(s))
    ensures var s := After(c, buf, before);
            DriverOnly(steps) && |Exec(c, s, steps).delivered| == |s.written|
  {
    hide After, SlotOk, Good, DriverStep, AllGood, InOrder;
    Reachable(c, buf, before);
    var s := After(c, buf, before);
    var p: nat :| Flow(c, s, p) || Stuck(c, s, p);
    NotStuck(c, s, p);
    var max := |s.written| - |s.delivered|;
    StartFlow(c, s, p, max);
    var one := [Process(max)];
    ExecOne(c, s, [], Process(max));
    assert [] + one == one;
    var t := s.(pc := Poll(max));
    assert Exec(c, s, one) == t;
    PendingGood(c, s);
    var rest := Drain(c, t, p);
    ExecConcat(c, s, one, rest);
    steps := one + rest;
  }

  // ---------------------------------------------- without the device only good ones go up

  /** Completions the driver has decided to take. */
  function Claimed(s: State): nat {
    Taken(s) + if s.pc.Copy? then 1 else 0
  }

  /** Since state `s` the driver alone has taken only good completions, and takes no other next. */
  ghost predicate Sifted(c: Config, s: State, t: State)
    requires Shape(c, t)
  {
    && t.written == s.written && |s.delivered| <= |t.delivered| && Claimed(t) <= |s.written|
    && (forall j :: |s.delivered| <= j < Claimed(t) ==> Good(c, s.written[j]))
    && (t.pc.Look? ==> t.desc[t.tail].w0 != 1)
  }

  lemma LookSifted(c: Config, s: State, t: State, p: nat, alloc: bool)
    requires Shape(c, t) && (Flow(c, t, p) || Stuck(c, t, p)) && Sifted(c, s, t) && t.pc.Look?
    ensures Sifted(c, s, DriverStep(c, t, alloc))
  {
    hide Payload, PktSize, Bits.Bit, Unswapped;
    Bits.FlagBits();
    if Flow(c, t, p) {
      assert SlotOk(c, t, p, t.tail);
    }
  }

  lemma ResetKeeps(c: Config, t: State, stage: nat)
    requires Shape(c, t)
    ensures var u := ResetStep(c, t, stage);
            u.written == t.written && u.delivered == t.delivered && (u.pc.Reset? || u.pc.Idle?)
  {
  }

  lemma StepSifted(c: Config, s: State, t: State, step: Step)
    requires Shape(c, t) && Inv(c, t) && Sifted(c, s, t) && (step.Process? || step.Drive?)
    ensures Sifted(c, s, Apply(c, t, step))
  {
    hide SlotOk, Good, Payload, PktSize, Own, Unswapped, LookStep, Ring.Wrap, ResetStep;
    var p: nat :| Flow(c, t, p) || Stuck(c, t, p);
    if step.Drive? && t.pc.Look? {
      LookSifted(c, s, t, p, step.alloc);
    } else if step.Drive? && t.pc.Reset? {
      ResetKeeps(c, t, t.pc.stage);
    }
  }

  lemma {:induction false} AloneSifts(c: Config, s: State, steps: seq<Step>)
    requires Shape(c, s) && Inv(c, s) && s.pc.Idle? && |s.delivered| <= |s.written| && DriverOnly(steps)
    ensures Sifted(c, s, Exec(c, s, steps))
    decreases |steps|
  {
    hide Inv, Apply, Good;
    if steps != [] {
      var most := steps[..|steps| - 1];
      AloneSifts(c, s, most);
      RunInv(c, s, most);
      StepSifted(c, s, Exec(c, s, most), steps[|steps| - 1]);
    }
  }

  lemma OnlyGoodDelivered(c: Config, buf: seq<seq<Byte>>, before: seq<Step>, steps: seq<Step>)
    requires Allocated(c, buf) && After(c, buf, before).pc.Idle? && DriverOnly(steps)
    requires var s := After(c, buf, before);
             |s.delivered| <= |s.written| && |Exec(c, s, steps).delivered| == |s.written|
    ensures AllGood(c, Pending(After(c, buf, before)))
  {
    hide After, Good, Inv, DriverOnly, Apply;
    Reachable(c, buf, before);
    AloneSifts(c, After(c, buf, before), steps);
  }

  // -------------------------------------------------- when the completion at the tail goes up

  /** The driver is at the top of its loop, or before it, and the descriptor at the tail is completed. */
  ghost predicate Waiting(s: State)
    requires s.tail < |s.desc|
  {
    (s.pc.Idle? || s.pc.Poll? || s.pc.Look?) && !Own(s.desc[s.tail])
  }

  /** What the next driver steps make of completion `k`: an error word passes only the second look. */
  predicate GoesUp(c: Config, pc: Pc, k: Completion) {
    Sized(c, k) && (k.w0 == 1 ==> pc.Look?)
  }

  lemma WaitingFlows(c: Config, s: State, p: nat)
    requires Shape(c, s) && (Flow(c, s, p) || Stuck(c, s, p)) && Waiting(s)
    ensures Flow(c, s, p) && s.tail < p && |s.delivered| < |s.written|
    ensures s.desc[s.tail].w0 == s.written[|s.delivered|].w0
  {
    hide Payload, Sized, Bits.Bit, InOrder;
    Bits.FlagBits();
    if Flow(c, s, p) {
      assert SlotOk(c, s, p, s.tail);
    }
  }

  /** The driver steps that hand up the completion at the tail, from any of the three places. */
  lemma {:induction false} BringUp(c: Config, s: State, p: nat) returns (steps: seq<Step>)
    requires Flow(c, s, p) && Waiting(s) && |s.delivered| < |s.written| && GoesUp(c, s.pc, s.written[|s.delivered|])
    ensures |Exec(c, s, steps).delivered| > |s.delivered|
    decreases if s.pc.Look? then 0 else if s.pc.Poll? && s.pc.left > 0 then 1 else if s.pc.Idle? then 2 else 3
  {
    assert Shape(c, s);
    hide Exec, Flow, Sized, DriverStep, Own;
    if s.pc.Look? {
      LookTakes(c, s, p);
      LookLeft(c, s, p);
      var rest, q := FinishPacket(c, DriverStep(c, s, true), p);
      steps := [Drive(true)] + rest;
      ExecFirst(c, s, Drive(true), rest);
    } else {
      var step := if s.pc.Idle? then Process(1) else Drive(true);
      TowardsLook(c, s, p, step);
      var rest := BringUp(c, Apply(c, s, step), p);
      steps := [step] + rest;
      ExecFirst(c, s, step, rest);
    }
  }

  lemma LookLeft(c: Config, s: State, p: nat)
    requires Flow(c, s, p) && s.pc.Look?
    ensures s.pc.left > 0
  {
    hide SlotOk, InOrder;
  }

  lemma TowardsLook(c: Config, s: State, p: nat, step: Step)
    requires Flow(c, s, p) && Waiting(s) && !s.pc.Look? && |s.delivered| < |s.written| && s.written[|s.delivered|].w0 != 1
    requires step == if s.pc.Idle? then Process(1) else Drive(true)
    ensures var t := Apply(c, s, step);
            && Flow(c, t, p) && Waiting(t) && t.written == s.written && t.delivered == s.delivered
            && t.pc == (if s.pc.Idle? then Poll(1) else if s.pc.left > 0 then Look(s.pc.left) else Idle)
  {
    hide SlotOk, InOrder, Own;
    WaitingFlows(c, s, p);
    if s.pc.Idle? {
      StartFlow(c, s, p, 1);
    } else {
      PollFlow(c, s, p, s.pc.left);
      WaitingFlows(c, Apply(c, s, step), p);
    }
  }

  lemma ExecFirst(c: Config, s: State, step: Step, rest: seq<Step>)
    requires Shape(c, s)
    ensures Exec(c, s, [step] + rest) == Exec(c, Apply(c, s, step), rest)
  {
    hide Apply, Exec;
    ExecConcat(c, s, [step], rest);
    ExecOne(c, s, [], step);
    NoSteps(c, s);
    assert [] + [step] == [step];
  }

  /** The completion at the tail is one that never goes up: the driver waits before it or is stuck. */
  ghost predicate Barred(c: Config, s: State, n: nat) {
    && Shape(c, s) && |s.delivered| == n < |s.written| && !Good(c, s.written[n])
    && ((exists p: nat :: Stuck(c, s, p))
        || (Waiting(s) && !GoesUp(c, s.pc, s.written[n]) && exists p: nat :: Flow(c, s, p)))
  }

  lemma BarredDriver(c: Config, s: State, n: nat, p: nat, alloc: bool)
    requires Flow(c, s, p) && Waiting(s) && |s.delivered| == n < |s.written| && !GoesUp(c, s.pc, s.written[n]) && !Good(c, s.written[n])
    ensures Barred(c, DriverStep(c, s, alloc), n)
  {
    hide PktSize, Payload, Own, InOrder;
    WaitingFlows(c, s, p);
    assert SlotOk(c, s, p, s.tail);
    if s.pc.Poll? {
      PollFlow(c, s, p, s.pc.left);
    } else if s.pc.Look? {
      LookFlow(c, s, p, s.pc.left, alloc);
    }
  }

  lemma BarredDevice(c: Config, s: State, n: nat, p: nat, slot: nat, page: nat, k: Completion)
    requires Flow(c, s, p) && Waiting(s) && |s.delivered| == n < |s.written| && !GoesUp(c, s.pc, s.written[n]) && !Good(c, s.written[n])
    ensures Barred(c, DeviceStep(c, s, slot, page, k), n)
  {
    hide Sized, Flow, Stuck;
    assert Shape(c, s) by { FlowShape(c, s, p); }
    DeviceFlow(c, s, p, slot, page, k);
    DeviceSparesUnowned(c, s, slot, page, k, s.tail);
  }

  lemma FlowShape(c: Config, s: State, p: nat)
    requires Flow(c, s, p)
    ensures Shape(c, s)
  {
    hide SlotOk, InOrder;
  }

  lemma BarredStep(c: Config, s: State, n: nat, step: Step)
    requires Barred(c, s, n)
    ensures Barred(c, Apply(c, s, step), n)
  {
    hide Flow, Stuck, Good, GoesUp, DriverStep, DeviceStep, Own;
    if p: nat :| Stuck(c, s, p) {
      StuckStep(c, s, p, step);
      StuckGrows(c, s, step);
    } else {
      var p: nat :| Flow(c, s, p);
      match step
      case Drive(alloc) => BarredDriver(c, s, n, p, alloc);
      case Device(slot, page, k) => BarredDevice(c, s, n, p, slot, page, k);
      case Process(max) =>
        if s.pc.Idle? {
          StartFlow(c, s, p, max);
          NotLook(c, s.pc, Poll(max), s.written[n]);
        }
    }
  }

  lemma NotLook(c: Config, a: Pc, b: Pc, k: Completion)
    requires !GoesUp(c, a, k) && !b.Look? && !a.Look?
    ensures !GoesUp(c, b, k)
  {
  }

  /** Completions are only ever added. */
  lemma StuckGrows(c: Config, s: State, step: Step)
    requires Shape(c, s)
    ensures s.written <= Apply(c, s, step).written
  {
    hide Own, PktSize, Unswapped, CanReceive, Ring.Wrap, Bits.Or, Bits.And;
  }

  lemma {:induction false} BarredForever(c: Config, s: State, n: nat, more: seq<Step>)
    requires Barred(c, s, n)
    ensures Barred(c, Exec(c, s, more), n)
    decreases |more|
  {
    hide Apply, Stuck, Flow, Good;
    if more != [] {
      BarredForever(c, s, n, more[..|more| - 1]);
      BarredStep(c, Exec(c, s, more[..|more| - 1]), n, more[|more| - 1]);
    }
  }

  /**
   When a completion is handed up. In every reachable state in which the driver is at the top of its loop
   and the descriptor at the tail is completed, some continuation of the run, the device running freely,
   hands its packet up if and only if its length is one the driver can deal with and it carries the error
   word only if the driver is between the two reads of the flag word.
   */
  lemma HandedUpIff(c: Config, buf: seq<seq<Byte>>, steps: seq<Step>)
    requires Allocated(c, buf)
    ensures var s := After(c, buf, steps);
            Waiting(s) ==>
              && |s.delivered| < |s.written|
              && ((exists more :: |Exec(c, s, more).delivered| > |s.delivered|)
                  <==> GoesUp(c, s.pc, s.written[|s.delivered|]))
  {
    hide After, Flow, Stuck, GoesUp, Good, Own;
    Reachable(c, buf, steps);
    var s := After(c, buf, steps);
    var p: nat :| Flow(c, s, p) || Stuck(c, s, p);
    if Waiting(s) {
      WaitingFlows(c, s, p);
      var n := |s.delivered|;
      if GoesUp(c, s.pc, s.written[n]) {
        var more := BringUp(c, s, p);
        assert |Exec(c, s, more).delivered| > |s.delivered|;
      } else {
        NotGood(c, s, n);
        forall more
          ensures |Exec(c, s, more).delivered| == n
        {
          BarredForever(c, s, n, more);
        }
      }
    }
  }

  /** What does not go up now is not good. */
  lemma NotGood(c: Config, s: State, n: nat)
    requires n < |s.written| && !GoesUp(c, s.pc, s.written[n])
    ensures !Good(c, s.written[n])
  {
  }

  /** What holds of every run holds of the queue object: it hands up the device's packets in order. */
  lemma QueueDeliversInOrder(q: Q.Queue)
    requires q.Valid()
    ensures |q.delivered| <= |q.written| == |q.late|
    ensures forall j :: 0 <= j < |q.delivered| ==>
      && Sized(q.c, q.written[j]) && |q.written[j].data| == MAX_PACKET && q.delivered[j] == Payload(q.c, q.written[j])
      && (q.written[j].w0 == 1 ==> q.late[j])
  {
    hide Sized, Payload;
    DeliveredIsPrefix(q.c, q.buf0, q.trace);
    assert Shape(q.c, q.Abs());
  }

  /** Runs that meet a bad completion exist: one with the error word or an oversize length, seen by a later poll. */
  lemma ResetHappens(c: Config, buf: seq<seq<Byte>>, k: Completion) returns (steps: seq<Step>)
    requires Allocated(c, buf) && |k.data| == MAX_PACKET && !Bits.Bit(k.w0, 4)
    requires k.w0 == 1 || PktSize(c, k.w1) > MAX_PACKET
    ensures After(c, buf, steps).pc == Reset(0)
  {
    hide Exec, Apply, Init;
    BadFirst(c, buf, k);
    if k.w0 == 1 {
      steps := [Device(0, 0, k), Drive(true), Process(1), Drive(true)];
      FourSteps(c, Init(c, buf), steps);
    } else {
      steps := [Device(0, 0, k), Process(1), Drive(true), Drive(true)];
      FourSteps(c, Init(c, buf), steps);
    }
  }

  lemma BadFirst(c: Config, buf: seq<seq<Byte>>, k: Completion)
    requires Allocated(c, buf) && |k.data| == MAX_PACKET && !Bits.Bit(k.w0, 4)
    requires k.w0 == 1 || PktSize(c, k.w1) > MAX_PACKET
    ensures var s := Apply(c, Init(c, buf), Device(0, 0, k));
            var t := Apply(c, s, Process(1));
            && s.pc.Idle? && Apply(c, s, Drive(true)) == s
            && (if k.w0 == 1 then Apply(c, t, Drive(true)).pc == Reset(0)
                else Apply(c, Apply(c, t, Drive(true)), Drive(true)).pc == Reset(0))
  {
    hide PktSize;
    Bits.FlagBits();
  }

  lemma ErrorNotOwned()
    ensures !Bits.Bit(1, 4)
  {
    assert Bits.Shr(1, 4) == 0;
  }
}
