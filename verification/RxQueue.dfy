/**
 The receive queue as the driver operates it: xpnet_rx_queue_process with the device let loose
 before each memory access. Valid() says that the queue is where the transition system of
 RxMachine is after the recorded trace.
 */
module RxQueue {

  import opened Descriptors
  import opened Shards
  import opened RxMachine
  import Bits
  import Ring

  class Queue {
    const c: Config
    var tail: nat
    var desc: seq<Desc>
    var buf: seq<seq<Byte>>
    var cdp: nat

    ghost const buf0: seq<seq<Byte>>
    ghost var pc: Pc
    ghost var written: seq<Completion>
    ghost var late: seq<bool>
    ghost var trace: seq<Step>
    var delivered: seq<seq<Byte>>     // packets given to xp_rx_skb_process

    ghost function Abs(): State
      reads this
    {
      State(tail, desc, buf, cdp, pc, written, late, delivered)
    }

    ghost predicate Valid()
      reads this
    {
      Allocated(c, buf0) && Abs() == After(c, buf0, trace)
    }

    /**
     xpnet_rx_queue_init once its memory is allocated: link the descriptors into a chain that ends
     behind slot n - 1, hand them all to the device and point it at slot 0.
     */
    constructor (c: Config, buf: seq<seq<Byte>>)
      requires Allocated(c, buf)
      ensures Valid() && this.c == c && buf0 == buf && trace == [] && pc.Idle?
    {
      this.c := c;
      this.tail, this.buf, cdp := 0, buf, DescAddr(c, 0);
      buf0, pc, written, late, delivered, trace := buf, Idle, [], [], [], [];
      var blank := seq(c.n, i requires 0 <= i < c.n => Desc(0, MAX_PACKET, c.dma[i], 0));
      var chain := DescLink(c, blank, false);
      var all := ChangeOwn(chain);
      assert all == Init(c, buf).desc;
      desc := all;
    }

    ghost method Record(s: State, alloc: bool)
      requires Allocated(c, buf0) && s == After(c, buf0, trace) && Abs() == DriverStep(c, s, alloc)
      modifies this`trace
      ensures Valid() && trace == old(trace) + [Drive(alloc)]
    {
      hide After, Allocated, DriverStep;
      AfterOne(c, buf0, trace, Drive(alloc));
      trace := trace + [Drive(alloc)];
    }

    ghost method MoveTo(next: Pc, alloc: bool)
      requires Valid() && Abs().(pc := next) == DriverStep(c, Abs(), alloc)
      modifies this`pc, this`trace
      ensures Valid() && pc == next && trace == old(trace) + [Drive(alloc)]
    {
      hide After, Allocated, DriverStep;
      ghost var s := Abs();
      pc := next;
      Record(s, alloc);
    }

    /** One completion by the device, if it is in a position to make it. */
    method DeviceActs(slot: nat, page: nat, k: Completion)
      requires Valid()
      modifies this`desc, this`buf, this`cdp, this`written, this`late, this`trace
      ensures Valid() && trace == old(trace) + [Step.Device(slot, page, k)]
    {
      hide After, Allocated, PktSize, Good, ValidConfig;
      assert Shape(c, Abs());
      if slot < |desc| && page < |c.dma| && page < |buf| && cdp == DescAddr(c, slot) && Own(desc[slot])
         && desc[slot].w2 == c.dma[page] && |k.data| == MAX_PACKET && !Bits.Bit(k.w0, 4) {
        var next := desc[slot].w3;
        desc := desc[slot := desc[slot].(w0 := k.w0, w1 := k.w1)];
        buf := buf[page := k.data];
        written, late := written + [k], late + [pc.Look? && slot == tail];
        cdp := next;
      }
      AfterOne(c, buf0, trace, Step.Device(slot, page, k));
      trace := trace + [Step.Device(slot, page, k)];
    }

    method DeviceRuns()
      requires Valid()
      modifies this`desc, this`buf, this`cdp, this`written, this`late, this`trace
      ensures Valid() && old(trace) <= trace
    {
      hide After, Allocated;
      var acts: nat := *;
      while acts > 0
        invariant Valid() && old(trace) <= trace
      {
        var slot: nat, page: nat, w0: nat, w1: nat := *, *, *, *;
        var data: seq<Byte> := *;
        DeviceActs(slot, page, Completion(w0, w1, data));
        acts := acts - 1;
      }
    }

    /**
     xpnet_rx_queue_process. On return the driver is idle, unless it ran into the endless swap of
     an empty packet; `hung` reports that.
     */
    method Process(maxiter: nat) returns (hung: bool)
      requires Valid() && pc.Idle?
      modifies this
      ensures Valid() && old(trace) < trace && trace[|old(trace)|] == Step.Process(maxiter)
      ensures pc == if hung then Hung else Idle
      ensures old(delivered) <= delivered && |delivered| <= |old(delivered)| + maxiter
    {
      hide After, Allocated, DriverStep;
      EnterLoop(maxiter);
      ghost var t0 := trace;
      hung := false;
      var i, go := 0, true;
      while i < maxiter && go
        invariant Valid() && t0 <= trace && 0 <= i <= maxiter
        invariant pc == if hung then Hung else if go then Poll(maxiter - i) else Idle
        invariant hung ==> !go
        invariant old(delivered) <= delivered && |delivered| <= |old(delivered)| + i
        decreases maxiter - i, go
      {
        DeviceRuns();
        var alloc: bool := *;
        var verdict := Examine(maxiter - i, alloc);
        match verdict
        case Take(size) =>
          TakePacket(maxiter - i, size);
          i := i + 1;
        case Discard =>
          ResetDescriptor();
          go := false;
        case Wait =>
          go := false;
        case Endless =>
          go, hung := false, true;
      }
      if go {
        LeaveLoop();
      }
    }

    ghost method EnterLoop(maxiter: nat)
      requires Valid() && pc.Idle?
      modifies this`pc, this`trace
      ensures Valid() && pc == Poll(maxiter) && trace == old(trace) + [Step.Process(maxiter)]
    {
      AfterOne(c, buf0, trace, Step.Process(maxiter));
      trace := trace + [Step.Process(maxiter)];
      pc := Poll(maxiter);
    }

    ghost method LeaveLoop()
      requires Valid() && pc == Poll(0)
      modifies this`pc, this`trace
      ensures Valid() && pc == Idle && old(trace) <= trace
    {
      hide After, Allocated;
      MoveTo(Idle, false);
    }

    /** The checks at the top of the loop: the flag word is read twice, with the device in between. */
    method Examine(ghost left: nat, alloc: bool) returns (v: Verdict)
      requires Valid() && pc == Poll(left) && left > 0
      modifies this`desc, this`buf, this`cdp, this`pc, this`written, this`late, this`trace
      ensures Valid() && old(trace) <= trace
      ensures match v
              case Take(size) => pc == Copy(left, size)
              case Discard => pc == Reset(0)
              case Wait => pc == Idle
              case Endless => pc == Hung
    {
      hide After, Allocated, Own, LookStep;
      assert Shape(c, Abs());
      if desc[tail].w0 == 1 {
        MoveTo(Reset(0), alloc);
        return Discard;
      }
      MoveTo(Look(left), alloc);
      DeviceRuns();
      v := LookAgain(left, alloc);
    }

    method LookAgain(ghost left: nat, alloc: bool) returns (v: Verdict)
      requires Valid() && pc == Look(left)
      modifies this`pc, this`trace
      ensures Valid() && old(trace) <= trace
      ensures match v
              case Take(size) => pc == Copy(left, size)
              case Discard => pc == Reset(0)
              case Wait => pc == Idle
              case Endless => pc == Hung
    {
      hide After, Allocated, Own;
      assert Shape(c, Abs());
      if Own(desc[tail]) {
        MoveTo(Idle, alloc);
        return Wait;
      }
      var size := PktSize(c, desc[tail].w1);
      if size > MAX_PACKET {
        MoveTo(Reset(0), alloc);
        return Discard;
      }
      if !alloc {
        MoveTo(Idle, alloc);
        return Wait;
      }
      if c.swap && size == 0 {
        MoveTo(Hung, alloc);
        return Endless;
      }
      MoveTo(Copy(left, size), alloc);
      v := Take(size);
    }

    /** Copy the packet out, give the descriptor back, step the tail, rewind at the end, hand up. */
    method TakePacket(ghost left: nat, size: nat)
      requires Valid() && pc == Copy(left, size) && left > 0
      modifies this`tail, this`desc, this`buf, this`cdp, this`pc, this`written, this`late, this`trace, this`delivered
      ensures Valid() && old(trace) <= trace && pc == Poll(left - 1)
      ensures old(delivered) < delivered && |delivered| == |old(delivered)| + 1
    {
      hide After, Allocated, DriverStep;
      DeviceRuns();
      var skb := CopyOut(left, size);
      DeviceRuns();
      GiveBackLength(left, skb);
      DeviceRuns();
      GiveBackOwnership(left, skb);
      StepTail(left, skb);
      delivered := delivered + [skb];
      FinishHandUp(left, skb);
    }

    method CopyOut(ghost left: nat, size: nat) returns (skb: seq<Byte>)
      requires Valid() && pc == Copy(left, size)
      modifies this`buf, this`pc, this`trace
      ensures Valid() && old(trace) <= trace && pc == Relength(left, skb)
    {
      hide After, Allocated;
      ghost var s := Abs();
      assert Shape(c, s);
      var bytes := buf[tail];
      var page := new Byte[MAX_PACKET](j requires 0 <= j < MAX_PACKET => bytes[j]);
      assert page[..] == bytes;
      SwapTerminates(size);
      var _ := EndianSwap32(page, size, c.swap);
      buf := buf[tail := page[..]];
      skb := page[..size];
      assert skb == page[..][..size];
      pc := Relength(left, skb);
      Record(s, true);
    }

    method GiveBackLength(ghost left: nat, ghost skb: seq<Byte>)
      requires Valid() && pc == Relength(left, skb)
      modifies this`desc, this`pc, this`trace
      ensures Valid() && old(trace) <= trace && pc == Republish(left, skb)
    {
      hide After, Allocated;
      ghost var s := Abs();
      assert Shape(c, s);
      desc := desc[tail := desc[tail].(w1 := MAX_PACKET)];
      pc := Republish(left, skb);
      Record(s, true);
    }

    method GiveBackOwnership(ghost left: nat, ghost skb: seq<Byte>)
      requires Valid() && pc == Republish(left, skb)
      modifies this`desc, this`pc, this`trace
      ensures Valid() && old(trace) <= trace && pc == Bump(left, skb)
    {
      hide After, Allocated;
      ghost var s := Abs();
      assert Shape(c, s);
      desc := desc[tail := desc[tail].(w0 := OWNERSHIP)];
      pc := Bump(left, skb);
      Record(s, true);
    }

    method StepTail(ghost left: nat, ghost skb: seq<Byte>)
      requires Valid() && pc == Bump(left, skb)
      modifies this`tail, this`desc, this`buf, this`cdp, this`pc, this`written, this`late, this`trace
      ensures Valid() && old(trace) <= trace && pc == HandUp(left, skb)
    {
      hide After, Allocated, CanReceive;
      ghost var s := Abs();
      assert Shape(c, s);
      tail := Ring.AddAndWrap(tail, 1, c.n);
      pc := if tail == 0 then Rewind(left, skb) else HandUp(left, skb);
      Record(s, true);
      if tail == 0 {
        DeviceRuns();
        s := Abs();
        cdp := DescAddr(c, 0);
        pc := HandUp(left, skb);
        Record(s, true);
      }
    }

    /** Close the step in which `skb` has been appended to the delivered packets. */
    ghost method FinishHandUp(left: nat, skb: seq<Byte>)
      requires Allocated(c, buf0) && |delivered| > 0 && skb == delivered[|delivered| - 1]
      requires Abs().(delivered := delivered[..|delivered| - 1]) == After(c, buf0, trace)
      requires pc == HandUp(left, skb) && left > 0
      modifies this`pc, this`trace
      ensures Valid() && old(trace) <= trace && pc == Poll(left - 1)
    {
      hide After, Allocated;
      ghost var s := Abs().(delivered := delivered[..|delivered| - 1]);
      pc := Poll(left - 1);
      assert s.delivered + [skb] == delivered;
      Record(s, true);
    }

    /** __xpnet_rx_desc_reset and xpnet_rx_desc_enable on the descriptor at the tail. */
    method ResetDescriptor()
      requires Valid() && pc == Reset(0)
      modifies this`desc, this`buf, this`cdp, this`pc, this`written, this`late, this`trace
      ensures Valid() && old(trace) <= trace && pc == Idle
    {
      hide After, Allocated, DriverStep;
      assert Shape(c, Abs());
      var next := Ring.AddAndWrap(tail, 1, c.n);
      ResetWord(0, desc[tail].(w3 := DescAddr(c, next)));
      DeviceRuns();
      ResetWord(1, desc[tail].(w2 := c.dma[tail]));
      DeviceRuns();
      ResetWord(2, desc[tail].(w1 := MAX_PACKET));
      DeviceRuns();
      ResetWord(3, desc[tail].(w0 := OWNERSHIP));
      DeviceRuns();
      ResetWord(4, desc[tail].(w0 := Bits.Or(Bits.And(desc[tail].w0, 0x1f), OWNERSHIP)));
    }

    method ResetWord(ghost stage: nat, d: Desc)
      requires Valid() && pc == Reset(stage) && stage <= 4 && Shape(c, Abs())
      requires d == ResetStep(c, Abs(), stage).desc[tail]
      modifies this`desc, this`pc, this`trace
      ensures Valid() && old(trace) <= trace && pc == (if stage < 4 then Reset(stage + 1) else Idle)
      ensures Shape(c, Abs())
    {
      hide After, Allocated, Ring.Wrap, Bits.Or, Bits.And;
      ghost var s := Abs();
      desc := desc[tail := d];
      pc := if stage < 4 then Reset(stage + 1) else Idle;
      Record(s, true);
    }
  }

  datatype Verdict = Take(size: nat) | Discard | Wait | Endless

  /** The next pointer of slot `i` in a chain that is closed or ends behind the last slot. */
  function NextPointer(c: Config, i: nat, circular: bool): nat {
    if i + 1 < c.n then c.base + 32 * (i + 1) else if circular then c.base else 0
  }

  /** xpnet_queue_desc_link. */
  method DescLink(c: Config, desc: seq<Desc>, circular: bool) returns (r: seq<Desc>)
    requires c.n > 0 && |desc| == c.n
    ensures |r| == c.n && forall i :: 0 <= i < c.n ==> r[i] == desc[i].(w3 := NextPointer(c, i, circular))
  {
    hide NextPointer, Ring.Wrap;
    r := desc;
    for n := 0 to c.n
      invariant |r| == c.n
      invariant forall i :: 0 <= i < n ==> r[i] == desc[i].(w3 := NextPointer(c, i, true))
      invariant forall i :: n <= i < c.n ==> r[i] == desc[i]
    {
      PointerTo(c, n);
      r := r[n := r[n].(w3 := DescAddr(c, Ring.AddAndWrap(n, 1, c.n)))];
    }
    if !circular {
      r := r[c.n - 1 := r[c.n - 1].(w3 := 0)];
      OpenChain(c);
    }
  }

  lemma PointerTo(c: Config, n: nat)
    requires n < c.n
    ensures NextPointer(c, n, true) == DescAddr(c, Ring.Wrap(n + 1, c.n))
  {
  }

  lemma OpenChain(c: Config)
    requires c.n > 0
    ensures NextPointer(c, c.n - 1, false) == 0
    ensures forall i :: 0 <= i < c.n - 1 ==> NextPointer(c, i, false) == NextPointer(c, i, true)
  {
  }

  /** The flag word xpnet_rx_desc_enable leaves: the low five bits, with ownership set. */
  function Enabled(w0: nat): nat { Bits.Or(Bits.And(w0, 0x1f), OWNERSHIP) }

  /** Ownership is set, the four flags below it are kept, everything above is gone. */
  lemma EnabledBits(w0: nat)
    ensures Enabled(w0) == 16 + w0 % 16
  {
    assert Bits.Pow2(5) == 32;
    hide Bits.And, Bits.Or, Bits.Low, Bits.Pow2;
    Bits.AndMask(w0, 5);
    LowFive(w0);
    OrOwnership(w0 % 32);
    Remainders(w0);
  }

  lemma Remainders(x: nat)
    ensures x % 32 % 16 == x % 16
  {
    var q, r := x / 32, x % 32;
    Ring.ModUnique(x, 2 * q + r / 16, r % 16, 16);
  }

  lemma LowFive(x: nat)
    ensures Bits.Low(x, 5) == x % 32
  {
    assert Bits.Low(x / 2 / 2 / 2 / 2, 1) == x / 2 / 2 / 2 / 2 % 2;
    assert Bits.Low(x / 2 / 2 / 2, 2) == x / 2 / 2 / 2 % 4;
    assert Bits.Low(x / 2 / 2, 3) == x / 2 / 2 % 8;
    assert Bits.Low(x / 2, 4) == x / 2 % 16;
  }

  lemma OrOwnership(x: nat)
    requires x < 32
    ensures Bits.Or(x, OWNERSHIP) == 16 + x % 16
  {
    assert Bits.Or(x / 2 / 2 / 2 / 2, 1) == 1;
    assert Bits.Or(x / 2 / 2 / 2, 2) == 2 + x / 2 / 2 / 2 % 2;
    assert Bits.Or(x / 2 / 2, 4) == 4 + x / 2 / 2 % 4;
    assert Bits.Or(x / 2, 8) == 8 + x / 2 % 8;
  }

  /** xpnet_rx_queue_desc_change_own: every descriptor goes to the device, with its low flags kept. */
  method ChangeOwn(desc: seq<Desc>) returns (r: seq<Desc>)
    ensures |r| == |desc| && forall i :: 0 <= i < |desc| ==> r[i] == desc[i].(w0 := 16 + desc[i].w0 % 16)
  {
    r := desc;
    for n := 0 to |desc|
      invariant |r| == |desc|
      invariant forall i :: 0 <= i < n ==> r[i] == desc[i].(w0 := 16 + desc[i].w0 % 16)
      invariant forall i :: n <= i < |desc| ==> r[i] == desc[i]
    {
      EnabledBits(r[n].w0);
      r := r[n := r[n].(w0 := Enabled(r[n].w0))];
    }
  }
}
