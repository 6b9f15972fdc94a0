/**
 How a transmit ends. For both flags and every interleaving with the device the outcome is a function
 of the packet and of the queue as the call finds it.
 */
module TxOutcome {

  import opened Descriptors
  import opened Shards
  import opened TxMachine
  import opened TxReturns
  import opened TxCalls
  import Chain = TxChain
  import A0 = TxA0
  import Bits
  import Ring

  /** Run `b` continues run `a` without offering a packet. */
  ghost predicate Within(a: seq<Step>, b: seq<Step>) {
    a <= b && forall i :: |a| <= i < |b| ==> !b[i].Xmit?
  }

  /** Run `b` continues run `a` by one call, which offers `skb`. */
  ghost predicate OneCall(a: seq<Step>, b: seq<Step>, skb: Skb) {
    && a < b && b[|a|] == Xmit(skb)
    && forall i :: |a| < i < |b| ==> !b[i].Xmit?
  }

  /** The first `m` descriptors from the tail on are free and without error. */
  ghost predicate Clear(c: Config, s: State, m: nat)
    requires Shape(c, s)
  {
    forall k :: 0 <= k < m ==> !Blocked(c, s, k)
  }

  /** Descriptor `k` from the tail on is still the device's or carries an error. */
  predicate Blocked(c: Config, s: State, k: nat)
    requires Shape(c, s)
  {
    Own(s.desc[Slot(c, s, k)]) || Err(s.desc[Slot(c, s, k)])
  }

  /**
   What offering `skb` to an idle queue comes to. BUSY: the ring is full, or a descriptor the packet
   needs is still the device's or carries an error.
   */
  ghost function OutcomeOf(c: Config, s: State, skb: Skb): Outcome
    requires Shape(c, s)
  {
    if !s.active || skb.NullSkb? then Dropped
    else if Free(c, s) == 0 then Busy
    else if |skb.data| == 0 || |skb.data| > Free(c, s) * 4096 || skb.fragmented then Dropped
    else if Clear(c, s, NumShards(|skb.data|)) then Sent
    else Busy
  }

  function Gain(out: Outcome, skb: Skb): seq<seq<Byte>> {
    if out.Sent? && skb.Skb? then [skb.data] else []
  }

  /** The packet is being copied and checked; the descriptors it needs are as the call found them. */
  ghost predicate Weighed(c: Config, s: State, skb: Skb, t: State)
    requires Shape(c, s) && Shape(c, t)
  {
    && (t.pc.Fill? || t.pc.Check?) && skb == Skb(t.pc.pkt, false) && 0 < |t.pc.pkt|
    && (OutcomeOf(c, s, skb).Sent? <==> Clear(c, s, NumShards(|t.pc.pkt|))) && !OutcomeOf(c, s, skb).Dropped?
    && t.tail == s.tail
    && (forall k :: 0 <= k < NumShards(|t.pc.pkt|) ==> t.desc[Slot(c, t, k)] == s.desc[Slot(c, s, k)])
    && (t.pc.Check? ==> t.pc.k <= NumShards(|t.pc.pkt|) && Clear(c, s, t.pc.k))
  }

  predicate PastCheck(pc: Pc) {
    pc.Write? || pc.MarkEop? || pc.Publish? || pc.SetCdp? || pc.Advance?
  }

  predicate Published(pc: Pc) { pc.SetCdp? || pc.Advance? }

  /** State `t` of a call that offered `skb` in state `s` is on the way to the outcome. */
  ghost predicate OnCourse(c: Config, s: State, skb: Skb, t: State)
    requires Shape(c, s) && Shape(c, t)
  {
    var out := OutcomeOf(c, s, skb);
    if t.pc.Fill? || t.pc.Check? then Weighed(c, s, skb, t) && t.accepted == s.accepted
    else if PastCheck(t.pc) then
      && out.Sent? && skb.Skb? && t.pc.pkt == skb.data
      && t.accepted == s.accepted + if Published(t.pc) then [skb.data] else []
    else (if t.pc.Idle? then t.pc.last else t.pc.out) == out && t.accepted == s.accepted + Gain(out, skb)
  }

  lemma BeginOnCourse(c: Config, s: State, skb: Skb)
    requires Shape(c, s) && s.pc.Idle?
    ensures OnCourse(c, s, skb, Begin(c, s, skb))
  {
    hide Own, Err, Ring.FreeDesc;
    assert Slot(c, s, 0) == s.tail;
    assert Blocked(c, s, 0) <==> Own(s.desc[s.tail]) || Err(s.desc[s.tail]);
  }

  lemma FillOnCourse(c: Config, s: State, skb: Skb, t: State)
    requires Shape(c, s) && Shape(c, t) && OnCourse(c, s, skb, t) && t.pc.Fill?
    ensures OnCourse(c, s, skb, DriverStep(c, t))
  {
    hide OutcomeOf, Own, Err, NumShards, ShardBuffer, ShardLen, Ring.Wrap;
  }

  lemma CheckOnCourse(c: Config, s: State, skb: Skb, t: State)
    requires Shape(c, s) && Shape(c, t) && OnCourse(c, s, skb, t) && t.pc.Check?
    ensures OnCourse(c, s, skb, DriverStep(c, t))
  {
    hide OutcomeOf, Own, Err, NumShards, Ring.Wrap;
    if t.pc.k < NumShards(|t.pc.pkt|) {
      assert Blocked(c, s, t.pc.k) <==> Own(t.desc[Slot(c, t, t.pc.k)]) || Err(t.desc[Slot(c, t, t.pc.k)]);
    }
  }

  lemma RestOnCourse(c: Config, s: State, skb: Skb, t: State)
    requires Shape(c, s) && Shape(c, t) && OnCourse(c, s, skb, t) && !t.pc.Fill? && !t.pc.Check?
    ensures OnCourse(c, s, skb, DriverStep(c, t))
  {
    hide OutcomeOf, Own, Err, Slot, Next, Frames, Bits.Or, Ring.BusyDesc, Ring.AddAndWrap;
  }

  /** The device does not reach the descriptors of a packet that is being copied and checked. */
  lemma DeviceSparesStaged(c: Config, t: State, slot: nat, page: nat, w0: nat, k: nat)
    requires Inv(c, t) && Shape(c, t) && (t.pc.Fill? || t.pc.Check?) && k < NumShards(|t.pc.pkt|)
    ensures DeviceStep(c, t, slot, page, w0).desc[Slot(c, t, k)] == t.desc[Slot(c, t, k)]
  {
    hide A0.SlotOk, Chain.SlotOk, NumShards, Own, Wire, Ring.Wrap;
    if CanComplete(c, t, slot, page, w0) {
      if c.a0 {
        A0.DeviceTarget(c, t, slot, page, w0);
      } else {
        Chain.DeviceTarget(c, t, slot, page, w0);
        Chain.SlotNumber(c, t, k);
        WrapSmall(slot, c.n);
        Ring.Apart(c.n, t.reclaimed, slot, Chain.Base(t) + k);
      }
    }
  }

  lemma WrapSmall(x: nat, n: nat)
    requires x < n
    ensures Ring.Wrap(x, n) == x
  {
  }

  lemma DeviceOnCourse(c: Config, s: State, skb: Skb, t: State, slot: nat, page: nat, w0: nat)
    requires Shape(c, s) && Shape(c, t) && Inv(c, t) && OnCourse(c, s, skb, t)
    ensures OnCourse(c, s, skb, DeviceStep(c, t, slot, page, w0))
  {
    hide OutcomeOf, Inv, Own, Wire, NumShards, CanComplete, Ring.Wrap;
    var u := DeviceStep(c, t, slot, page, w0);
    if t.pc.Fill? || t.pc.Check? {
      forall k | 0 <= k < NumShards(|t.pc.pkt|)
        ensures u.desc[Slot(c, u, k)] == s.desc[Slot(c, s, k)]
      {
        DeviceSparesStaged(c, t, slot, page, w0, k);
      }
    }
  }

  lemma {:induction false} CallOnCourse(c: Config, s: State, skb: Skb, steps: seq<Step>)
    requires Inv(c, s) && Shape(c, s) && s.pc.Idle? && InCall(steps)
    ensures var t := Exec(c, Begin(c, s, skb), steps); Inv(c, t) && OnCourse(c, s, skb, t)
    decreases |steps|
  {
    hide Inv, OnCourse, Begin, DriverStep, DeviceStep;
    if steps == [] {
      InvStep(c, s, Xmit(skb));
      BeginOnCourse(c, s, skb);
    } else {
      var most, last := steps[..|steps| - 1], steps[|steps| - 1];
      CallOnCourse(c, s, skb, most);
      var t := Exec(c, Begin(c, s, skb), most);
      InvStep(c, t, last);
      if last.Device? {
        DeviceOnCourse(c, s, skb, t, last.slot, last.page, last.w0);
      } else if t.pc.Fill? {
        FillOnCourse(c, s, skb, t);
      } else if t.pc.Check? {
        CheckOnCourse(c, s, skb, t);
      } else {
        RestOnCourse(c, s, skb, t);
      }
    }
  }

  /** The same of a run that is split at the call. */
  lemma RunOnCourse(c: Config, buf: seq<seq<Byte>>, before: seq<Step>, skb: Skb, run: seq<Step>)
    requires Allocated(c, buf) && After(c, buf, before).pc.Idle? && OneCall(before, run, skb)
    ensures OnCourse(c, After(c, buf, before), skb, After(c, buf, run))
  {
    hide Inv, OnCourse, Begin, Init, Exec;
    var s := After(c, buf, before);
    var steps := run[|before| + 1..];
    Reachable(c, buf, before);
    ExecOne(c, Init(c, buf), before, Xmit(skb));
    ExecConcat(c, Init(c, buf), before + [Xmit(skb)], steps);
    assert run == before + [Xmit(skb)] + steps;
    CallOnCourse(c, s, skb, steps);
  }

  /**
   A transmit ends as OutcomeOf says of the queue it found, whatever the device does in the meantime:
   BUSY if and only if the ring is full or a needed descriptor is blocked, and the packet joins the
   accepted ones if and only if the outcome is Sent.
   */
  lemma CallOutcome(c: Config, buf: seq<seq<Byte>>, before: seq<Step>, skb: Skb, run: seq<Step>)
    requires Allocated(c, buf) && After(c, buf, before).pc.Idle? && OneCall(before, run, skb)
    ensures var s, t := After(c, buf, before), After(c, buf, run);
            t.pc.Idle? ==> t.pc.last == OutcomeOf(c, s, skb) && t.accepted == s.accepted + Gain(OutcomeOf(c, s, skb), skb)
  {
    hide OutcomeOf, After;
    RunOnCourse(c, buf, before, skb, run);
  }
}
