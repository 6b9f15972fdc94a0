/**
 One call of xpnet_rx_queue_process: how many packets it hands up, byte by byte what they are, what it
 leaves in the descriptors, and that the device can go on for ever.
 */
module RxCalls {

  import opened Descriptors
  import opened Shards
  import opened RxMachine
  import opened RxFlow
  import opened RxGuarantees
  import Bits
  import Ring

  // --------------------------------------------------------------- byte by byte

  /** The packet length the device reports: bits 16 to 31 of the length word. */
  ghost predicate Reports(w1: nat, len: nat) {
    len < 65536 && exists high: nat, low: nat :: Split(w1, high, len, low)
  }

  predicate Split(w1: nat, high: nat, len: nat, low: nat) {
    w1 == (high * 65536 + len) * 65536 + low && low < 65536
  }

  /** Every length word reports one length. */
  lemma SomeReported(w1: nat) returns (len: nat)
    ensures Reports(w1, len)
    ensures forall other :: Reports(w1, other) ==> other == len
  {
    len := w1 / 65536 % 65536;
    assert Split(w1, w1 / 65536 / 65536, len, w1 % 65536);
    forall other | Reports(w1, other)
      ensures other == len
    {
      var high: nat, low: nat :| Split(w1, high, other, low);
      Ring.ModUnique(w1, high * 65536 + other, low, 65536);
      Ring.ModUnique(high * 65536 + other, high, other, 65536);
    }
  }

  lemma SizeReported(c: Config, w1: nat, len: nat)
    requires Reports(w1, len)
    ensures PktSize(c, w1) == if !c.swap then len else if len >= 16 then len - 16 else len + 65520
  {
    var high: nat, low: nat :| Split(w1, high, len, low);
    Ring.ModUnique(w1, high * 65536 + len, low, 65536);
    Ring.ModUnique(high * 65536 + len, high, len, 65536);
  }

  /** Lengths the driver can deal with: up to 16384 bytes, and in the swapped mode at least one of them. */
  lemma SizedIff(c: Config, k: Completion, len: nat)
    requires Reports(k.w1, len)
    ensures Sized(c, k) <==> if c.swap then 17 <= len <= 16400 else len <= 16384
  {
    hide PktSize;
    SizeReported(c, k.w1, len);
  }

  /**
   What is handed up, in every run. The j-th packet has the length the device reported for the j-th
   completion, less 16 in the swapped mode, and its bytes are those of that completion's buffer, in the
   swapped mode with the four bytes of every word reversed.
   */
  lemma DeliveredBytes(c: Config, buf: seq<seq<Byte>>, steps: seq<Step>, j: nat, len: nat)
    requires Allocated(c, buf)
    ensures var s := After(c, buf, steps);
            && |s.delivered| <= |s.written|
            && (j < |s.delivered| && Reports(s.written[j].w1, len) ==>
                  && |s.written[j].data| == 16384
                  && (if c.swap then
                        && 17 <= len <= 16400 && |s.delivered[j]| == len - 16
                        && forall i :: 0 <= i < len - 16 ==> s.delivered[j][i] == s.written[j].data[i / 4 * 4 + 3 - i % 4]
                      else
                        && len <= 16384 && |s.delivered[j]| == len
                        && forall i :: 0 <= i < len ==> s.delivered[j][i] == s.written[j].data[i]))
  {
    hide After, PktSize, Reports;
    DeliveredIsPrefix(c, buf, steps);
    var s := After(c, buf, steps);
    if j < |s.delivered| && Reports(s.written[j].w1, len) {
      SizedIff(c, s.written[j], len);
      SizeReported(c, s.written[j].w1, len);
      if c.swap {
        SwapInvolution(s.written[j].data, len - 16);
      }
    }
  }

  // ----------------------------------------------------------- the device goes on

  /**
   The ring never runs dry: whenever the driver is idle and has handed up everything, the device is at the
   tail and can receive there, however often the chain has been used up before.
   */
  lemma DeviceCanReceive(c: Config, buf: seq<seq<Byte>>, steps: seq<Step>, k: Completion)
    requires Allocated(c, buf) && |k.data| == MAX_PACKET && !Bits.Bit(k.w0, 4)
    ensures var s := After(c, buf, steps);
            s.pc.Idle? && |s.delivered| == |s.written| ==>
              && CanReceive(c, s, s.tail, s.tail, k) && s.desc[s.tail].w1 == 16384
              && DeviceStep(c, s, s.tail, s.tail, k).written == s.written + [k]
  {
    hide After, Payload, PktSize;
    Reachable(c, buf, steps);
    var s := After(c, buf, steps);
    var p: nat :| Flow(c, s, p) || Stuck(c, s, p);
    if s.pc.Idle? && |s.delivered| == |s.written| {
      assert SlotOk(c, s, p, s.tail);
      Bits.FlagBits();
    }
  }

  // --------------------------------------------------------------- resetting a descriptor

  lemma OneDrive(c: Config, s: State)
    requires Shape(c, s)
    ensures Exec(c, s, [Drive(true)]) == DriverStep(c, s, true)
  {
    hide DriverStep, Exec;
    NoSteps(c, s);
    ExecOne(c, s, [], Drive(true));
    assert [] + [Drive(true)] == [Drive(true)];
  }

  /** The descriptor at the tail when the driver has got to `stage` of resetting it. */
  ghost predicate Restored(c: Config, s: State, stage: nat)
    requires Shape(c, s)
  {
    var d := s.desc[s.tail];
    && (stage >= 1 ==> d.w3 == c.base + 32 * (if s.tail + 1 < c.n then s.tail + 1 else 0))
    && (stage >= 2 ==> d.w2 == c.dma[s.tail])
    && (stage >= 3 ==> d.w1 == 16384)
    && (stage >= 4 ==> d.w0 == 16)
  }

  lemma ResetTurn(c: Config, s: State, stage: nat)
    requires Shape(c, s) && stage <= 4 && s.pc == Reset(stage) && Restored(c, s, stage)
    ensures var t := DriverStep(c, s, true);
            && Restored(c, t, stage + 1) && t.pc == (if stage < 4 then Reset(stage + 1) else Idle)
            && t.tail == s.tail && t.delivered == s.delivered && t.written == s.written
            && (forall i :: 0 <= i < c.n && i != s.tail ==> t.desc[i] == s.desc[i])
  {
    hide Bits.Or, Bits.And;
    EnableKeepsOwnership();
  }

  /**
   Left alone, the reset ends with the descriptor at the tail the device's again, with its own buffer, the
   full length and the next slot, around the end of the ring, and with every other one untouched.
   */
  lemma {:induction false} ResetRestores(c: Config, s: State, stage: nat) returns (steps: seq<Step>)
    requires Shape(c, s) && stage <= 4 && s.pc == Reset(stage) && Restored(c, s, stage)
    ensures AllDrives(steps)
    ensures var t := Exec(c, s, steps);
            && t.pc.Idle? && t.tail == s.tail && t.delivered == s.delivered && t.written == s.written
            && t.desc[s.tail] == Desc(16, 16384, c.dma[s.tail], c.base + 32 * (if s.tail + 1 < c.n then s.tail + 1 else 0))
            && (forall i :: 0 <= i < c.n && i != s.tail ==> t.desc[i] == s.desc[i])
    decreases 4 - stage
  {
    hide DriverStep, Exec;
    ResetTurn(c, s, stage);
    OneDrive(c, s);
    steps := [Drive(true)];
    if stage < 4 {
      var rest := ResetRestores(c, DriverStep(c, s, true), stage + 1);
      ExecFirst(c, s, Drive(true), rest);
      steps := steps + rest;
    }
  }

  // ------------------------------------------------------------------- one call

  /** How many of the completions can be handed up before the first that cannot. */
  function Lead(c: Config, ks: seq<Completion>): nat {
    if ks == [] || !Good(c, ks[0]) then 0 else 1 + Lead(c, ks[1..])
  }

  function Min(a: nat, b: nat): nat { if a < b then a else b }

  /** A poll that hands nothing up: none left to do, none pending, or one that cannot be. */
  lemma PollStops(c: Config, s: State, p: nat) returns (steps: seq<Step>)
    requires Flow(c, s, p) || Stuck(c, s, p)
    requires s.pc.Poll? && |s.delivered| <= |s.written|
    requires s.pc.left == 0 || |s.delivered| == |s.written| || !Good(c, s.written[|s.delivered|])
    ensures AllDrives(steps)
    ensures var t := Exec(c, s, steps); (t.pc.Idle? || t.pc.Hung?) && t.delivered == s.delivered
  {
    assert Shape(c, s);
    var t := DriverStep(c, s, true);
    PollPhase(c, s, p);
    hide DriverStep, Exec, Flow, Stuck, Good;
    OneDrive(c, s);
    steps := [Drive(true)];
    if t.pc.Reset? {
      var rest := ResetRestores(c, t, 0);
      ExecFirst(c, s, Drive(true), rest);
      steps := steps + rest;
    } else if t.pc.Look? {
      LookPhase(c, s, t, p);
      OneDrive(c, t);
      var u := DriverStep(c, t, true);
      var rest: seq<Step> := [Drive(true)];
      if u.pc.Reset? {
        var more := ResetRestores(c, u, 0);
        ExecFirst(c, t, Drive(true), more);
        rest := rest + more;
      }
      ExecFirst(c, s, Drive(true), rest);
      steps := steps + rest;
    }
  }

  lemma PollPhase(c: Config, s: State, p: nat)
    requires Shape(c, s) && (Flow(c, s, p) || Stuck(c, s, p)) && s.pc.Poll?
    ensures var t := DriverStep(c, s, true);
            && t == s.(pc := t.pc) && (t.pc.Idle? || t.pc == Reset(0) || t.pc.Look?)
            && (t.pc.Look? ==> s.pc.left > 0 && s.desc[s.tail].w0 != 1)
  {
    hide SlotOk, InOrder;
  }

  lemma LookPhase(c: Config, s: State, t: State, p: nat)
    requires Shape(c, s) && Shape(c, t) && (Flow(c, s, p) || Stuck(c, s, p)) && s.pc.Poll? && s.pc.left > 0
    requires |s.delivered| <= |s.written| && (|s.delivered| == |s.written| || !Good(c, s.written[|s.delivered|]))
    requires t == s.(pc := t.pc) && t.pc.Look? && s.desc[s.tail].w0 != 1
    ensures var u := DriverStep(c, t, true);
            u == t.(pc := u.pc) && (u.pc.Idle? || u.pc == Reset(0) || u.pc.Hung?)
  {
    hide Payload, PktSize, Bits.Bit;
    Bits.FlagBits();
    if Flow(c, s, p) {
      assert SlotOk(c, s, p, s.tail);
    }
  }

  lemma {:induction false} Turns(c: Config, s: State, p: nat) returns (steps: seq<Step>)
    requires Flow(c, s, p) || Stuck(c, s, p)
    requires s.pc.Poll? && |s.delivered| <= |s.written|
    ensures AllDrives(steps)
    ensures var t := Exec(c, s, steps);
            && (t.pc.Idle? || t.pc.Hung?)
            && |t.delivered| == |s.delivered| + Min(s.pc.left, Lead(c, Pending(s)))
    decreases s.pc.left
  {
    assert Shape(c, s) && (Stuck(c, s, p) ==> !Good(c, Pending(s)[0]));
    hide Exec, Flow, Stuck, Good;
    if s.pc.left == 0 || |s.delivered| == |s.written| || !Good(c, s.written[|s.delivered|]) {
      steps := PollStops(c, s, p);
    } else {
      var one, q := HandUpOne(c, s, p);
      var t := Exec(c, s, one);
      assert Pending(t) == Pending(s)[1..];
      var rest := Turns(c, t, q);
      ExecConcat(c, s, one, rest);
      steps := one + rest;
    }
  }

  /**
   One call with skbs to be had and the device at rest hands up exactly the pending packets that can be
   handed up before the first that cannot, but no more than its bound, and then ends (or hangs).
   */
  lemma CallHandsUp(c: Config, buf: seq<seq<Byte>>, before: seq<Step>, max: nat) returns (steps: seq<Step>)
    requires Allocated(c, buf) && After(c, buf, before).pc.Idle?
    ensures AllDrives(steps)
    ensures var s := After(c, buf, before);
            var t := Exec(c, s, [Process(max)] + steps);
            && |s.delivered| <= |s.written| && (t.pc.Idle? || t.pc.Hung?)
            && |t.delivered| == |s.delivered| + Min(max, Lead(c, Pending(s)))
  {
    hide After, Flow, Stuck, Exec, Good, Lead;
    Reachable(c, buf, before);
    DeliveredIsPrefix(c, buf, before);
    var s := After(c, buf, before);
    var p: nat :| Flow(c, s, p) || Stuck(c, s, p);
    if Flow(c, s, p) {
      StartFlow(c, s, p, max);
    } else {
      StuckStart(c, s, p, max);
    }
    var t := s.(pc := Poll(max));
    steps := Turns(c, t, p);
    ExecFirst(c, s, Process(max), steps);
  }
}
