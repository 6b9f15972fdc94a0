/** Runs that reach what the guarantees do not rule out: stranded packets, overwritten buffers, BUSY. */
module TxRuns {

  import opened Descriptors
  import opened Shards
  import opened TxMachine
  import opened TxReturns
  import opened TxCalls
  import opened TxOutcome
  import Chain = TxChain
  import Sending = TxGuarantees
  import A0 = TxA0
  import Bits
  import Ring

  // ------------------------------------------------------- what driver steps leave alone

  ghost predicate NoErrors(s: State) {
    forall i :: 0 <= i < |s.desc| ==> !Err(s.desc[i])
  }

  lemma FlagsNoError(x: nat)
    ensures Bits.Bit(Bits.Or(x, EOP), 0) == Bits.Bit(x, 0)
    ensures Bits.Bit(Bits.Or(x, OWNERSHIP), 0) == Bits.Bit(x, 0)
    ensures !Bits.Bit(SOP, 0) && !Bits.Bit(OWNERSHIP, 0) && !Bits.Bit(0, 0)
  {
    OrEven(x, EOP);
    OrEven(x, OWNERSHIP);
  }

  lemma OrEven(x: nat, m: nat)
    requires m % 2 == 0
    ensures Bits.Or(x, m) % 2 == x % 2
  {
  }

  lemma DriverKeeps(c: Config, s: State)
    requires Shape(c, s)
    ensures var t := DriverStep(c, s);
            && t.wire == s.wire && t.active == s.active && (NoErrors(s) ==> NoErrors(t))
            && (Underway(s.pc) ==> t.reclaimed == s.reclaimed)
  {
    hide Bits.Bit, Bits.Or, Own, ShardBuffer, ShardLen, Frames, NumShards, Ring.Wrap, Ring.AddAndWrap, Ring.BusyDesc;
    if s.pc.MarkEop? {
      FlagsNoError(s.desc[Slot(c, s, NumShards(|s.pc.pkt|) + c.n - 1)].w0);
    } else if s.pc.Publish? {
      FlagsNoError(s.desc[s.tail].w0);
    } else {
      FlagsNoError(0);
    }
  }

  lemma {:induction false} DrivesKeep(c: Config, s: State, m: nat)
    requires Shape(c, s)
    ensures var t := Exec(c, s, Drives(m));
            t.wire == s.wire && t.active == s.active && (NoErrors(s) ==> NoErrors(t))
    decreases m
  {
    hide DriverStep, NoErrors;
    if m == 0 {
      assert Drives(0) == [];
    } else {
      assert Drives(m) == Drives(m - 1) + [Drive];
      ExecOne(c, s, Drives(m - 1), Drive);
      DrivesKeep(c, s, m - 1);
      DriverKeeps(c, Exec(c, s, Drives(m - 1)));
    }
  }

  // ------------------------------------------------------------------- one call alone

  lemma BeginKeeps(c: Config, s: State, skb: Skb)
    requires Shape(c, s)
    ensures var t := Begin(c, s, skb); t == s.(pc := t.pc) && (s.pc.Idle? ==> Sane(t.pc))
  {
  }

  /** A call the device does not interfere with: it ends as OutcomeOf says and sends nothing. */
  lemma CallAlone(c: Config, s: State, skb: Skb) returns (steps: seq<Step>)
    requires Inv(c, s) && Shape(c, s) && s.pc.Idle?
    ensures var t := Exec(c, s, steps);
            && Inv(c, t) && t.pc == Idle(OutcomeOf(c, s, skb)) && t.accepted == s.accepted + Gain(OutcomeOf(c, s, skb), skb)
            && t.wire == s.wire && t.active == s.active && (NoErrors(s) ==> NoErrors(t))
    ensures |steps| > 0 && steps[0] == Xmit(skb) && InCall(steps[1..])
  {
    hide Inv, Begin, DriverStep, OutcomeOf, Sane;
    var b := Begin(c, s, skb);
    BeginKeeps(c, s, skb);
    var m := AloneReturns(c, b);
    CallOnCourse(c, s, skb, Drives(m));
    DrivesKeep(c, b, m);
    steps := [Xmit(skb)] + Drives(m);
    ExecFirst(c, s, Xmit(skb), Drives(m));
    assert steps[1..] == Drives(m);
  }

  lemma FreshClear(c: Config, buf: seq<seq<Byte>>, m: nat)
    requires Allocated(c, buf)
    ensures var s := Init(c, buf); Clear(c, s, m) && NoErrors(s) && Free(c, s) == c.n - 1
  {
    Bits.FlagBits();
    FlagsNoError(0);
  }

  /** The first packet that fits is accepted, and nothing is sent before the device acts. */
  lemma FirstAccepted(c: Config, buf: seq<seq<Byte>>, p: seq<Byte>) returns (steps: seq<Step>)
    requires Allocated(c, buf) && 0 < |p| <= (c.n - 1) * SEGMENT
    ensures var s := After(c, buf, steps);
            && Inv(c, s) && s.pc == Idle(Sent) && s.accepted == [p] && s.wire == [] && s.active && NoErrors(s)
  {
    hide Inv, Exec, NoErrors, Clear, Free;
    FreshClear(c, buf, NumShards(|p|));
    Reachable(c, buf, []);
    FreshRun(c, buf);
    steps := CallAlone(c, Init(c, buf), Skb(p, false));
  }

  lemma FreshRun(c: Config, buf: seq<seq<Byte>>)
    requires Allocated(c, buf)
    ensures After(c, buf, []) == Init(c, buf)
  {
  }

  // ------------------------------------------------------------------------- BUSY

  /** Nothing sent yet: the ring is full (chained) or slot 0 is the device's (A0). */
  lemma FirstBlocks(c: Config, s: State, p: seq<Byte>, skb: Skb)
    requires Inv(c, s) && Shape(c, s) && s.pc.Idle? && s.accepted == [p] && s.wire == [] && s.active
    requires c.a0 || NumShards(|p|) == c.n - 1
    requires skb.Skb? && !skb.fragmented && 0 < |skb.data| <= (c.n - 1) * SEGMENT
    ensures OutcomeOf(c, s, skb) == Busy
    ensures c.a0 ==> s.head == c.n - 1 && s.tail == 0
    ensures !c.a0 ==> Free(c, s) == 0
  {
    hide Bits.Bit, Wire, FrameData, ShardLen;
    if c.a0 {
      assert A0.SlotOk(c, s, 0);
      assert Blocked(c, s, 0);
    } else {
      assert [p][..0] == [];
      assert |s.log| == c.n - 1;
      Ring.BusyCount(c.n, s.reclaimed, |s.log|);
    }
  }

  /** BUSY is reached, for both flags and every ring: after one packet that takes n - 1 descriptors. */
  lemma BusyHappens(c: Config, buf: seq<seq<Byte>>, p: seq<Byte>, skb: Skb) returns (steps: seq<Step>)
    requires Allocated(c, buf) && NumShards(|p|) == c.n - 1
    requires skb.Skb? && !skb.fragmented && 0 < |skb.data| <= (c.n - 1) * SEGMENT
    ensures var s := After(c, buf, steps);
            && s.pc == Idle(Sent) && s.accepted == [p] && s.active && OutcomeOf(c, s, skb) == Busy
            && (!c.a0 ==> Free(c, s) == 0)
  {
    hide Inv, Exec, NoErrors, OutcomeOf, Free;
    steps := FirstAccepted(c, buf, p);
    FirstBlocks(c, After(c, buf, steps), p, skb);
  }

  /**
   A full ring stays full: BUSY is returned before completion gets to run, so no run that offers only
   packets ever takes a descriptor back or accepts another one.
   */
  lemma {:induction false} FullStaysBusy(c: Config, s: State, steps: seq<Step>)
    requires Shape(c, s) && s.pc.Idle? && s.active && Free(c, s) == 0
    requires forall i :: 0 <= i < |steps| ==> !(steps[i].Xmit? && steps[i].skb.NullSkb?)
    ensures var t := Exec(c, s, steps);
            && t.pc.Idle? && t.active && t.head == s.head && t.tail == s.tail
            && t.accepted == s.accepted && t.reclaimed == s.reclaimed
            && forall skb: Skb :: skb.Skb? ==> OutcomeOf(c, t, skb) == Busy
    decreases |steps|
  {
    hide CanComplete, Wire, Own, Err, Ring.FreeDesc, Clear;
    if steps != [] {
      FullStaysBusy(c, s, steps[..|steps| - 1]);
    }
  }

  // ------------------------------------------------------------ A0: the buffer overwritten

  lemma SlotZeroOut(c: Config, s: State, p: seq<Byte>)
    requires A0.Inv(c, s) && s.pc.Idle? && s.accepted == [p] && s.wire == []
    ensures CanComplete(c, s, 0, 0, 0) && s.head == c.n - 1 && s.tail == 0
    ensures c.n >= 2 && (NumShards(|p|) >= 2 ==> Own(s.desc[1]))
  {
    hide FrameData, ShardLen, Wire, Bits.Bit;
    assert A0.SlotOk(c, s, 0) && A0.SlotOk(c, s, 1);
    assert [p][..0] == [];
    Bits.FlagBits();
  }

  /** Then the device completes slot 0, and slot 0 is all that a packet of one shard needs. */
  lemma SlotZeroBack(c: Config, s: State, skb: Skb)
    requires Shape(c, s) && s.pc.Idle? && s.active && s.head == c.n - 1 && s.tail == 0 && CanComplete(c, s, 0, 0, 0)
    requires skb.Skb? && !skb.fragmented && 0 < |skb.data| <= (c.n - 1) * SEGMENT
    ensures var t := DeviceStep(c, s, 0, 0, 0);
            && !Blocked(c, t, 0) && t.pc == s.pc && t.accepted == s.accepted && Begin(c, t, skb).pc == Fill(skb.data, 0)
            && (forall i :: 1 <= i < c.n ==> t.desc[i] == s.desc[i])
            && (NumShards(|skb.data|) == 1 ==> OutcomeOf(c, t, skb) == Sent)
  {
    hide Wire;
    FlagsNoError(0);
    Bits.FlagBits();
  }

  /**
   For every ring that has room and every two packets of more than one shard there is a run in
   which the second packet's first driver steps reach a buffer of a descriptor the device owns:
   the next driver step replaces its contents.
   */
  lemma OverwriteHappens(c: Config, buf: seq<seq<Byte>>, p: seq<Byte>, q: seq<Byte>) returns (steps: seq<Step>)
    requires Allocated(c, buf) && c.a0
    requires 2 <= NumShards(|p|) && |p| <= (c.n - 1) * SEGMENT
    requires 2 <= NumShards(|q|) && |q| <= (c.n - 1) * SEGMENT
    ensures var s := After(c, buf, steps);
            && s.pc == Fill(q, 1) && c.n >= 2 && Own(s.desc[1])
            && DriverStep(c, s).buf[1] == ShardBuffer(s.buf[1], q, 1, c.swap)
  {
    hide A0.Inv, Init, Exec, NoErrors, DeviceStep, Begin, ShardBuffer, CanComplete, OutcomeOf, Own;
    steps := FirstAccepted(c, buf, p);
    var s1 := After(c, buf, steps);
    SlotZeroOut(c, s1, p);
    SlotZeroBack(c, s1, Skb(q, false));
    var s2 := DeviceStep(c, s1, 0, 0, 0);
    BeginKeeps(c, s2, Skb(q, false));
    var s3 := Begin(c, s2, Skb(q, false));
    DeviceKeeps(c, s1, 0, 0, 0);
    FillOne(c, s3, q);
    AfterOne(c, buf, steps, Device(0, 0, 0));
    steps := steps + [Device(0, 0, 0)];
    AfterOne(c, buf, steps, Xmit(Skb(q, false)));
    steps := steps + [Xmit(Skb(q, false))];
    AfterOne(c, buf, steps, Drive);
    steps := steps + [Drive];
  }

  lemma DeviceKeeps(c: Config, s: State, slot: nat, page: nat, w0: nat)
    requires Shape(c, s)
    ensures var t := DeviceStep(c, s, slot, page, w0);
            t.pc == s.pc && t.head == s.head && t.tail == s.tail && t.active == s.active && t.accepted == s.accepted
  {
  }

  lemma FillOne(c: Config, s: State, q: seq<Byte>)
    requires Shape(c, s) && s.pc == Fill(q, 0) && s.tail == 0 && NumShards(|q|) >= 2
    ensures var t := DriverStep(c, s);
            && t.pc == Fill(q, 1) && t.desc == s.desc && DriverStep(c, t).buf[1] == ShardBuffer(t.buf[1], q, 1, c.swap)
  {
    hide ShardBuffer, ShardLen;
    A0.HomeSlot(c, s, 0);
    A0.HomeSlot(c, s, 1);
  }

  /**
   BUSY followed by acceptance, under the A0 flag: a packet is refused while slot 0 is the device's,
   and the longer one offered again after the device has sent is accepted. With `again` the refused
   packet with its header pushed a second time, the header goes out twice.
   */
  lemma RefusedThenAccepted(c: Config, buf: seq<seq<Byte>>, p: seq<Byte>, first: seq<Byte>, again: seq<Byte>)
    returns (steps: seq<Step>, more: seq<Step>)
    requires Allocated(c, buf) && c.a0 && 0 < |p| <= (c.n - 1) * SEGMENT
    requires 0 < |first| <= SEGMENT && 0 < |again| <= SEGMENT
    ensures OutcomeOf(c, After(c, buf, steps), Skb(first, false)) == Busy
    ensures |more| > 0 && more[0] == Xmit(Skb(first, false))
    ensures After(c, buf, steps + more).accepted == [p, again]
  {
    hide Inv, Init, Exec, NoErrors, OutcomeOf;
    steps := FirstAccepted(c, buf, p);
    var s := After(c, buf, steps);
    FirstBlocks(c, s, p, Skb(first, false));
    var call := CallAlone(c, s, Skb(first, false));
    var t := Exec(c, s, call);
    var last := AcceptedNext(c, t, p, again);
    more := call + last;
    ExecConcat(c, s, call, last);
    ExecConcat(c, Init(c, buf), steps, more);
  }

  /** The device sends, and the next packet of one shard is accepted. */
  lemma AcceptedNext(c: Config, s: State, p: seq<Byte>, q: seq<Byte>) returns (steps: seq<Step>)
    requires Inv(c, s) && Shape(c, s) && c.a0 && s.pc.Idle? && s.active && s.accepted == [p] && s.wire == []
    requires 0 < |q| <= SEGMENT
    ensures Exec(c, s, steps).accepted == [p, q]
  {
    hide A0.Inv, Exec, DeviceStep, CanComplete, OutcomeOf, NoErrors;
    SlotZeroOut(c, s, p);
    SlotZeroBack(c, s, Skb(q, false));
    var step := Step.Device(0, 0, 0);
    InvStep(c, s, step);
    var call := CallAlone(c, Apply(c, s, step), Skb(q, false));
    steps := [step] + call;
    ExecFirst(c, s, step, call);
  }

  // ------------------------------------------------- chained: packets accepted and never sent

  /** Everything published has been sent and taken back. */
  ghost predicate Clean(c: Config, s: State) {
    && Chain.Inv(c, s) && s.pc.Idle? && s.active && NoErrors(s)
    && |s.log| == |s.wire| == s.reclaimed
  }

  lemma CleanMode(c: Config, s: State)
    requires Clean(c, s)
    ensures !c.a0 && Shape(c, s) && Inv(c, s)
  {
    hide Chain.SlotOk;
  }

  lemma CleanAccepts(c: Config, s: State, p: seq<Byte>)
    requires Clean(c, s) && 0 < |p| <= SEGMENT
    ensures OutcomeOf(c, s, Skb(p, false)) == Sent && NumShards(|p|) == 1
  {
    hide Chain.Holds, Chain.Final, Own, Err;
    Ring.BusyCount(c.n, s.reclaimed, |s.log|);
    Chain.SlotNumber(c, s, 0);
    assert Chain.SlotOk(c, s, |s.log|);
    assert !Blocked(c, s, 0);
  }

  /** A packet that will be accepted gets, by driver steps alone, to where completion begins. */
  lemma {:induction false} ToCompletion(c: Config, s: State, skb: Skb, t: State) returns (m: nat)
    requires Shape(c, s) && Shape(c, t) && OnCourse(c, s, skb, t) && OutcomeOf(c, s, skb) == Sent
    requires Underway(t.pc) && Sane(t.pc)
    ensures var u := Exec(c, t, Drives(m)); u.pc == Complete(Sent) && u.reclaimed == t.reclaimed
    decreases Rank(c, t.pc)
  {
    hide Sane, Rank, OutcomeOf, Weighed, DriverStep;
    DriverProgress(c, t);
    DriverKeeps(c, t);
    DriveOnCourse(c, s, skb, t);
    UnderwayStep(c, t);
    var u := DriverStep(c, t);
    var k := 0;
    if u.pc.Complete? {
      assert Drives(0) == [];
    } else {
      k := ToCompletion(c, s, skb, u);
    }
    m := k + 1;
    assert Drives(m) == [Drive] + Drives(k);
    ExecFirst(c, t, Drive, Drives(k));
  }

  lemma UnderwayStep(c: Config, t: State)
    requires Shape(c, t) && Underway(t.pc)
    ensures var pc := DriverStep(c, t).pc; Underway(pc) || pc == Complete(Sent) || pc == Idle(Busy)
  {
    hide Own, Err, Slot, ShardBuffer, ShardLen, Frames, NumShards, Bits.Or, Ring.AddAndWrap;
  }

  lemma DriveOnCourse(c: Config, s: State, skb: Skb, t: State)
    requires Shape(c, s) && Shape(c, t) && OnCourse(c, s, skb, t)
    ensures OnCourse(c, s, skb, DriverStep(c, t))
  {
    hide OnCourse, DriverStep;
    if t.pc.Fill? {
      FillOnCourse(c, s, skb, t);
    } else if t.pc.Check? {
      CheckOnCourse(c, s, skb, t);
    } else {
      RestOnCourse(c, s, skb, t);
    }
  }

  /** With the packet published and sent before completion looks, completion takes it back. */
  lemma TakenBack(c: Config, s: State)
    requires Chain.Inv(c, s) && s.pc.Complete? && NoErrors(s) && |s.wire| == |s.log| == s.reclaimed + 1
    ensures ToTake(c, s) == 1
  {
    hide Chain.Final, Chain.Holds, Own, Err;
    Ring.BusyCount(c.n, s.reclaimed, |s.log|);
    Chain.NextNumber(c, s);
    assert Chain.SlotOk(c, s, s.reclaimed);
  }

  lemma LogGrows(c: Config, s: State, t: State, p: seq<Byte>)
    requires Chain.Inv(c, s) && Chain.Inv(c, t) && t.accepted == s.accepted + [p] && NumShards(|p|) == 1
    ensures |t.log| == |s.log| + 1
  {
    hide Chain.SlotOk, Frames, NumShards;
    AllFramesAppend(s.accepted, p);
    Chain.FramesCount(p);
  }

  /** First half of a call on a clean queue: the packet is published, completion is about to begin. */
  lemma PublishOne(c: Config, s: State, p: seq<Byte>) returns (m: nat)
    requires Clean(c, s) && 0 < |p| <= SEGMENT
    ensures var t := Exec(c, Begin(c, s, Skb(p, false)), Drives(m));
            && Chain.Inv(c, t) && t.pc == Complete(Sent) && t.active && NoErrors(t)
            && t.wire == s.wire && t.reclaimed == s.reclaimed && |t.log| == |s.log| + 1
  {
    hide Chain.Inv, OutcomeOf, Weighed, DriverStep, Exec, Rank, Begin;
    var skb := Skb(p, false);
    CleanAccepts(c, s, p);
    CleanMode(c, s);
    var b := Begin(c, s, skb);
    BeginKeeps(c, s, skb);
    BeginOnCourse(c, s, skb);
    StartsUnderway(c, s, skb);
    m := ToCompletion(c, s, skb, b);
    CallOnCourse(c, s, skb, Drives(m));
    DrivesKeep(c, b, m);
    LogGrows(c, s, Exec(c, b, Drives(m)), p);
  }

  lemma StartsUnderway(c: Config, s: State, skb: Skb)
    requires Shape(c, s) && OutcomeOf(c, s, skb) == Sent
    ensures Underway(Begin(c, s, skb).pc)
  {
    hide Own, Err;
    assert Slot(c, s, 0) == s.tail;
    assert 0 < NumShards(|skb.data|) && !Blocked(c, s, 0);
  }

  /** Second half: the device sends it, completion takes it back. */
  lemma FinishOne(c: Config, s: State) returns (steps: seq<Step>)
    requires Chain.Inv(c, s) && Loops(c, s) && s.pc == Complete(Sent) && s.active && NoErrors(s)
    requires |s.log| == |s.wire| + 1 && s.reclaimed == |s.wire| < c.n
    ensures InCall(steps)
    ensures var t := Exec(c, s, steps);
            && t.pc.Idle? && t.active && NoErrors(t) && |t.wire| == |s.wire| + 1 && t.reclaimed == s.reclaimed + 1
  {
    hide Chain.SlotOk, Chain.PcOk, Chain.History, CanComplete, DeviceStep, NoErrors, Exec, Loops, ToTake;
    var x := |s.wire|;
    var step := Step.Device(x, x, 0);
    Sending.DeviceCanSend(c, s);
    Chain.StepInv(c, s, step);
    LoopsStep(c, s, step);
    var t := DeviceStep(c, s, x, x, 0);
    SentClean(c, s, x);
    TakenBack(c, t);
    var k := CompletionTakesBackReleased(c, t);
    DrivesKeep(c, t, k);
    steps := [step] + Drives(k);
    ExecFirst(c, s, step, Drives(k));
  }

  lemma SentClean(c: Config, s: State, x: nat)
    requires Shape(c, s) && NoErrors(s)
    ensures var t := DeviceStep(c, s, x, x, 0);
            NoErrors(t) && t.pc == s.pc && t.reclaimed == s.reclaimed && t.active == s.active
  {
    hide Wire;
    FlagsNoError(0);
  }

  /** The run of one packet through a clean queue: offered, published, sent, taken back. */
  lemma SendOne(c: Config, s: State, p: seq<Byte>) returns (steps: seq<Step>)
    requires Clean(c, s) && 0 < |p| <= SEGMENT && |s.wire| < c.n
    ensures var t := Exec(c, s, steps);
            Clean(c, t) && |t.wire| == |s.wire| + 1 && t.accepted == s.accepted + [p]
  {
    hide Chain.Inv, OutcomeOf, Weighed, NoErrors, Exec, Begin, Loops;
    var skb := Skb(p, false);
    CleanAccepts(c, s, p);
    CleanMode(c, s);
    var b := Begin(c, s, skb);
    var m := PublishOne(c, s, p);
    LoopsBegin(c, s, skb);
    LoopsRun(c, b, Drives(m));
    var rest := FinishOne(c, Exec(c, b, Drives(m)));
    var call := Drives(m) + rest;
    ExecConcat(c, b, Drives(m), rest);
    CallOnCourse(c, s, skb, call);
    LogGrows(c, s, Exec(c, b, call), p);
    steps := [Xmit(skb)] + call;
    ExecFirst(c, s, Xmit(skb), call);
  }

  lemma {:induction false} SendMany(c: Config, buf: seq<seq<Byte>>, p: seq<Byte>, j: nat) returns (steps: seq<Step>)
    requires Allocated(c, buf) && !c.a0 && 0 < |p| <= SEGMENT && j <= c.n
    ensures var s := After(c, buf, steps); Clean(c, s) && |s.wire| == j && s.accepted == seq(j, _ => p)
  {
    if j == 0 {
      steps := [];
      Chain.InitInv(c, buf);
      FreshClear(c, buf, 0);
      assert seq(0, _ => p) == [];
    } else {
      hide Clean, Exec, Init;
      var most := SendMany(c, buf, p, j - 1);
      var one := SendOne(c, After(c, buf, most), p);
      steps := most + one;
      ExecConcat(c, Init(c, buf), most, one);
      assert seq(j, _ => p) == seq(j - 1, _ => p) + [p];
    }
  }

  /**
   For every ring without the A0 flag and every packet of one shard there is a run that accepts n + 1
   of them, the last of which no continuation ever sends.
   */
  lemma PacketStranded(c: Config, buf: seq<seq<Byte>>, p: seq<Byte>) returns (steps: seq<Step>)
    requires Allocated(c, buf) && !c.a0 && 0 < |p| <= SEGMENT
    ensures var s := After(c, buf, steps);
            && s.pc == Idle(Sent) && s.accepted == seq(c.n + 1, _ => p) && |s.log| == c.n + 1
            && forall more :: |Exec(c, s, more).wire| <= c.n
  {
    hide Chain.Inv, Exec, Init, OutcomeOf, NoErrors;
    var most := SendMany(c, buf, p, c.n);
    var s := After(c, buf, most);
    CleanAccepts(c, s, p);
    CleanMode(c, s);
    var call := CallAlone(c, s, Skb(p, false));
    steps := most + call;
    ExecConcat(c, Init(c, buf), most, call);
    var t := After(c, buf, steps);
    LogGrows(c, s, t, p);
    assert seq(c.n + 1, _ => p) == seq(c.n, _ => p) + [p];
    forall more
      ensures |Exec(c, t, more).wire| <= c.n
    {
      NeverMore(c, t, more);
    }
  }

  lemma NeverMore(c: Config, s: State, more: seq<Step>)
    requires Chain.Inv(c, s)
    ensures |Exec(c, s, more).wire| <= c.n
  {
    hide Chain.SlotOk, Exec;
    Chain.RunInv(c, s, more);
  }
}
