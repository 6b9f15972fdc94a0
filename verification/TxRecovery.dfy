/** When a transmit queue still gets descriptors back and still accepts packets, and when it is dead. */
module TxRecovery {

  import opened Descriptors
  import opened Shards
  import opened TxMachine
  import opened TxReturns
  import opened TxCalls
  import opened TxOutcome
  import opened TxRuns
  import Chain = TxChain
  import Sending = TxGuarantees
  import A0 = TxA0
  import A0Sending = TxA0Guarantees
  import Bits
  import Ring

  lemma ActiveStep(c: Config, s: State, step: Step)
    requires Shape(c, s)
    ensures Apply(c, s, step).active == s.active
  {
    hide DriverStep, Begin, DeviceStep, NoErrors;
    match step
    case Xmit(skb) => BeginKeeps(c, s, skb);
    case Drive => DriverKeeps(c, s);
    case Device(slot, page, w0) => DeviceKeeps(c, s, slot, page, w0);
  }

  lemma {:induction false} StaysActive(c: Config, buf: seq<seq<Byte>>, steps: seq<Step>)
    requires Allocated(c, buf)
    ensures After(c, buf, steps).active
    decreases |steps|
  {
    hide Apply;
    if steps != [] {
      var n := |steps| - 1;
      StaysActive(c, buf, steps[..n]);
      ActiveStep(c, After(c, buf, steps[..n]), steps[n]);
    }
  }

  // ----------------------------------------------------------- chained: taking back

  ghost predicate NoNull(steps: seq<Step>) {
    forall i :: 0 <= i < |steps| ==> !(steps[i].Xmit? && steps[i].skb.NullSkb?)
  }

  /** The slot of the oldest descriptor not taken back. */
  function Oldest(c: Config, s: State): (i: nat)
    requires c.n > 0
    ensures i < c.n
  {
    Ring.Wrap(s.reclaimed, c.n)
  }

  /**
   The ring is not full, the oldest descriptor lies on the chain, and if it has been sent it carries no
   error.
   */
  predicate Recovers(c: Config, s: State)
    requires Shape(c, s)
  {
    Free(c, s) > 0 && s.reclaimed < c.n && (s.reclaimed < |s.wire| ==> !Err(s.desc[Oldest(c, s)]))
  }

  lemma SentNotOwned(c: Config, s: State)
    requires Chain.Inv(c, s) && s.reclaimed < |s.wire|
    ensures !Own(s.desc[Oldest(c, s)])
  {
    hide Chain.Final, Chain.Holds, Own;
    assert Chain.SlotOk(c, s, s.reclaimed);
  }

  /** An empty packet is dropped, and completion then takes back what has been sent. */
  lemma CompletesNow(c: Config, s: State) returns (steps: seq<Step>)
    requires Chain.Inv(c, s) && s.pc.Idle? && s.active && Free(c, s) > 0
    requires s.reclaimed < |s.wire| && !Err(s.desc[Oldest(c, s)])
    ensures NoNull(steps) && Exec(c, s, steps).reclaimed > s.reclaimed
  {
    var skb := Skb([], false);
    var b := Begin(c, s, skb);
    assert b == s.(pc := Complete(Dropped));
    hide Chain.Inv, Exec, Begin, Own, Err, Loops;
    TakesOne(c, s, b);
    LoopsBegin(c, s, skb);
    var m := CompletionTakesBackReleased(c, b);
    steps := [Xmit(skb)] + Drives(m);
    ExecFirst(c, s, Xmit(skb), Drives(m));
  }

  lemma TakesOne(c: Config, s: State, b: State)
    requires Chain.Inv(c, s) && s.pc.Idle? && s.reclaimed < |s.wire| && !Err(s.desc[Oldest(c, s)])
    requires b == s.(pc := Complete(Dropped)) && Shape(c, b)
    ensures ToTake(c, b) >= 1
  {
    hide Chain.SlotOk, Own, Err, Chain.Progress, Chain.History;
    SentNotOwned(c, s);
    Ring.BusyCount(c.n, s.reclaimed, |s.log|);
    Chain.NextNumber(c, s);
  }

  lemma TakesBack(c: Config, s: State) returns (steps: seq<Step>)
    requires Chain.Inv(c, s) && s.pc.Idle? && s.active && s.reclaimed < |s.log| && Recovers(c, s)
    ensures NoNull(steps) && Exec(c, s, steps).reclaimed > s.reclaimed
  {
    hide Chain.SlotOk, Chain.History, Chain.PcOk, Exec, DeviceStep, CanComplete, Err;
    if s.reclaimed < |s.wire| {
      steps := CompletesNow(c, s);
    } else {
      var x := |s.wire|;
      var step := Step.Device(x, x, 0);
      Sending.DeviceCanSend(c, s);
      Chain.StepInv(c, s, step);
      SentFine(c, s, x);
      var rest := CompletesNow(c, Apply(c, s, step));
      steps := [step] + rest;
      ExecFirst(c, s, step, rest);
    }
  }

  lemma SentFine(c: Config, s: State, x: nat)
    requires Shape(c, s) && x < c.n && CanComplete(c, s, x, x, 0) && s.reclaimed == x
    ensures var t := DeviceStep(c, s, x, x, 0);
            && !Err(t.desc[Oldest(c, t)]) && t.pc == s.pc && t.active == s.active
            && t.reclaimed == x && Free(c, t) == Free(c, s)
  {
    hide Wire;
    FlagsNoError(0);
    WrapSmall(x, c.n);
  }

  /** The oldest descriptor has been sent with an error: completion breaks off at it every time. */
  ghost predicate Blocks(c: Config, s: State, r: nat) {
    && Chain.Inv(c, s) && s.reclaimed == r < |s.wire| && Err(s.desc[Oldest(c, s)])
    && !s.pc.Spin? && !s.pc.Settle?
  }

  lemma BlocksDriver(c: Config, s: State, r: nat)
    requires Blocks(c, s, r)
    ensures Blocks(c, DriverStep(c, s), r)
  {
    hide Chain.SlotOk, Chain.Progress, Chain.History, Own, Err, Bits.Or, ShardBuffer, ShardLen, Frames, Ring.BusyDesc, NumShards, Ring.Wrap;
    Chain.StepInv(c, s, Drive);
    Chain.NextNumber(c, s);
    if Sending.Touched(s) < Chain.Reserved(s.pc) && !s.pc.Advance? {
      Ring.Apart(c.n, s.reclaimed, Chain.Base(s) + Sending.Touched(s), s.reclaimed);
    }
    Sending.DriverTouches(c, s, Oldest(c, s));
  }

  lemma BlocksDevice(c: Config, s: State, r: nat, slot: nat, page: nat, w0: nat)
    requires Blocks(c, s, r)
    ensures Blocks(c, DeviceStep(c, s, slot, page, w0), r)
  {
    hide Chain.SlotOk, Own, Err, Wire, Ring.Wrap;
    Chain.StepInv(c, s, Device(slot, page, w0));
    SentNotOwned(c, s);
    DeviceSparesUnowned(c, s, slot, page, w0, Oldest(c, s));
  }

  lemma BlocksBegin(c: Config, s: State, r: nat, skb: Skb)
    requires Blocks(c, s, r) && s.pc.Idle?
    ensures Blocks(c, Begin(c, s, skb), r)
  {
    hide Chain.Inv, Own, Err, Ring.Wrap, Ring.FreeDesc;
    Chain.StepInv(c, s, Xmit(skb));
  }

  lemma {:induction false} BlocksForever(c: Config, s: State, r: nat, more: seq<Step>)
    requires Blocks(c, s, r)
    ensures Blocks(c, Exec(c, s, more), r)
    decreases |more|
  {
    assert Shape(c, s);
    hide Blocks, Begin, DriverStep, DeviceStep;
    if more != [] {
      BlocksForever(c, s, r, more[..|more| - 1]);
      var t := Exec(c, s, more[..|more| - 1]);
      match more[|more| - 1]
      case Xmit(skb) => if t.pc.Idle? { BlocksBegin(c, t, r, skb); }
      case Drive => BlocksDriver(c, t, r);
      case Device(slot, page, w0) => BlocksDevice(c, t, r, slot, page, w0);
    }
  }

  /**
   When descriptors are still taken back without the A0 flag: at an idle queue with a published descriptor
   outstanding, some continuation of the run takes one back if and only if the ring is not full, the
   oldest one lies on the chain and, if already sent, carries no error.
   */
  lemma TakenBackIff(c: Config, buf: seq<seq<Byte>>, steps: seq<Step>)
    requires Allocated(c, buf) && !c.a0
    ensures var s := After(c, buf, steps);
            s.pc.Idle? && s.reclaimed < |s.log| ==>
              ((exists more :: NoNull(more) && Exec(c, s, more).reclaimed > s.reclaimed) <==> Recovers(c, s))
  {
    hide After, Chain.Inv, Recovers, NoNull, Apply;
    Chain.Reachable(c, buf, steps);
    StaysActive(c, buf, steps);
    var s := After(c, buf, steps);
    if s.pc.Idle? && s.reclaimed < |s.log| {
      if Recovers(c, s) {
        var more := TakesBack(c, s);
        assert NoNull(more) && Exec(c, s, more).reclaimed > s.reclaimed;
      } else {
        forall more | NoNull(more)
          ensures Exec(c, s, more).reclaimed <= s.reclaimed
        {
          NotTakenBack(c, s, more);
        }
      }
    }
  }

  lemma NotTakenBack(c: Config, s: State, more: seq<Step>)
    requires Chain.Inv(c, s) && s.pc.Idle? && s.active && !Recovers(c, s) && NoNull(more)
    ensures Exec(c, s, more).reclaimed <= s.reclaimed
  {
    hide Chain.SlotOk, Chain.History, Chain.PcOk, Chain.Progress, Exec, Err;
    if Free(c, s) == 0 {
      FullStaysBusy(c, s, more);
    } else if s.reclaimed >= c.n {
      Chain.RunInv(c, s, more);
    } else {
      BlocksForever(c, s, s.reclaimed, more);
    }
  }

  // ------------------------------------------------------------ A0: still accepting

  /** Slot 0 came back with an error: every packet is refused or dropped. */
  ghost predicate Dead(c: Config, s: State, accepted: seq<seq<Byte>>) {
    && A0.Inv(c, s) && (s.pc.Idle? || A0.Completing(s.pc)) && s.accepted == accepted
    && !Own(s.desc[0]) && Err(s.desc[0])
  }

  lemma DeadStep(c: Config, s: State, accepted: seq<seq<Byte>>, step: Step)
    requires Dead(c, s, accepted)
    ensures Shape(c, s) && Dead(c, Apply(c, s, step), accepted)
  {
    hide A0.SlotOk, A0.PcOk, Own, Err, NumShards, CanComplete, Ring.Wrap, Ring.BusyDesc;
    A0.StepInv(c, s, step);
    if step.Device? {
      DeviceSparesUnowned(c, s, step.slot, step.page, step.w0, 0);
    }
  }

  lemma {:induction false} DeadForever(c: Config, s: State, accepted: seq<seq<Byte>>, more: seq<Step>)
    requires Dead(c, s, accepted)
    ensures Shape(c, s) && Dead(c, Exec(c, s, more), accepted)
    decreases |more|
  {
    assert Shape(c, s);
    hide Dead, Apply;
    if more != [] {
      DeadForever(c, s, accepted, more[..|more| - 1]);
      DeadStep(c, Exec(c, s, more[..|more| - 1]), accepted, more[|more| - 1]);
    }
  }

  lemma ZeroClear(c: Config, s: State)
    requires A0.Inv(c, s) && s.pc.Idle? && s.active && !Own(s.desc[0]) && !Err(s.desc[0])
    ensures OutcomeOf(c, s, Skb([0], false)) == Sent
  {
    hide A0.SlotOk, A0.PcOk, Own, Err;
    assert !Blocked(c, s, 0);
  }

  lemma AcceptsOne(c: Config, s: State) returns (steps: seq<Step>)
    requires A0.Inv(c, s) && c.a0 && s.pc.Idle? && s.active && (Own(s.desc[0]) || !Err(s.desc[0]))
    ensures |Exec(c, s, steps).accepted| > |s.accepted|
  {
    assert Shape(c, s);
    hide A0.Inv, Exec, DeviceStep, OutcomeOf, Own, Err, NoErrors, CanComplete;
    steps := [];
    var t := s;
    if Own(s.desc[0]) {
      OwnedGoes(c, s);
      var step := Step.Device(0, 0, 0);
      A0.StepInv(c, s, step);
      t := Apply(c, s, step);
      steps := [step];
    }
    ZeroClear(c, t);
    var call := CallAlone(c, t, Skb([0], false));
    if steps == [] {
      steps := call;
    } else {
      ExecFirst(c, s, steps[0], call);
      steps := steps + call;
    }
  }

  lemma OwnedGoes(c: Config, s: State)
    requires A0.Inv(c, s) && s.pc.Idle? && Own(s.desc[0])
    ensures var t := DeviceStep(c, s, 0, 0, 0);
            !Own(t.desc[0]) && !Err(t.desc[0]) && t.pc == s.pc && t.active == s.active && t.accepted == s.accepted
  {
    hide Wire, FrameAt, A0.MaxShards;
    assert A0.SlotOk(c, s, 0);
    A0Sending.OutstandingCanGo(c, s);
    FlagsNoError(0);
    Bits.FlagBits();
  }

  /**
   When a queue under the A0 flag still accepts packets: at an idle queue some continuation of the run
   accepts another packet if and only if slot 0 is still the device's or came back without an error. One
   send with the error bit ends transmission for good.
   */
  lemma AcceptsIff(c: Config, buf: seq<seq<Byte>>, steps: seq<Step>)
    requires Allocated(c, buf) && c.a0
    ensures var s := After(c, buf, steps);
            s.pc.Idle? ==>
              ((exists more :: |Exec(c, s, more).accepted| > |s.accepted|) <==> Own(s.desc[0]) || !Err(s.desc[0]))
  {
    hide After, A0.Inv, Apply, Own, Err;
    A0.Reachable(c, buf, steps);
    StaysActive(c, buf, steps);
    var s := After(c, buf, steps);
    if s.pc.Idle? {
      if Own(s.desc[0]) || !Err(s.desc[0]) {
        var more := AcceptsOne(c, s);
        assert |Exec(c, s, more).accepted| > |s.accepted|;
      } else {
        forall more
          ensures |Exec(c, s, more).accepted| == |s.accepted|
        {
          DeadForever(c, s, s.accepted, more);
        }
      }
    }
  }

  // --------------------------------------------------------------- the error happens

  lemma FirstCanGo(c: Config, s: State, p: seq<Byte>)
    requires Inv(c, s) && Shape(c, s) && s.pc.Idle? && s.accepted == [p] && s.wire == [] && 0 < |p|
    ensures CanComplete(c, s, 0, 0, 0)
  {
    hide A0.Inv, Chain.SlotOk, CanComplete, Frames;
    if c.a0 {
      SlotZeroOut(c, s, p);
    } else {
      Chain.FramesCount(p);
      assert [p][..0] == [] && AllFrames([p]) == Frames(p);
      Sending.DeviceCanSend(c, s);
    }
  }

  lemma BackWithError(c: Config, s: State)
    requires Shape(c, s) && CanComplete(c, s, 0, 0, 0)
    ensures var t := DeviceStep(c, s, 0, 0, 1);
            && !Own(t.desc[0]) && Err(t.desc[0]) && t.pc == s.pc && |t.wire| == |s.wire| + 1 && t.accepted == s.accepted
  {
    hide Wire;
    assert Bits.Shr(1, 4) == 0 && Bits.Shr(1, 0) == 1;
  }

  /** For both flags and every ring: the first packet's first descriptor may come back with an error. */
  lemma ErrorHappens(c: Config, buf: seq<seq<Byte>>, p: seq<Byte>) returns (steps: seq<Step>)
    requires Allocated(c, buf) && 0 < |p| <= (c.n - 1) * SEGMENT
    ensures var s := After(c, buf, steps);
            s.pc.Idle? && s.accepted == [p] && |s.wire| == 1 && !Own(s.desc[0]) && Err(s.desc[0])
  {
    hide Inv, Exec, Init, NoErrors, DeviceStep, CanComplete, Own, Err;
    steps := FirstAccepted(c, buf, p);
    FirstCanGo(c, After(c, buf, steps), p);
    BackWithError(c, After(c, buf, steps));
    AfterOne(c, buf, steps, Device(0, 0, 1));
    steps := steps + [Device(0, 0, 1)];
  }
}
