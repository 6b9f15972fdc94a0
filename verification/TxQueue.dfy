/**
 The transmit queue as the driver operates it. Every method is the source's code with the device
 let loose before each memory access (DeviceRuns), and whoever holds the queue may let it loose
 between calls. Valid() says that the queue is where the transition system of TxMachine is after
 the recorded trace, so whatever holds of every run of that system holds of the queue.
 */
module TxQueue {

  import opened Descriptors
  import opened Shards
  import opened TxMachine
  import opened TxOutcome
  import Ring
  import Bits

  datatype EnqueueResult = Queued | QueueBusy | QueueError

  class Queue {
    const c: Config
    var active: bool
    var head: nat
    var tail: nat
    var desc: seq<Desc>           // descriptor words in DMA memory
    var buf: seq<seq<Byte>>       // shard buffers, buf_sta.va
    var blen: seq<nat>            // buf_sta.len
    var cdp: nat                  // the device's current descriptor pointer

    ghost const buf0: seq<seq<Byte>>
    ghost var pc: Pc
    ghost var accepted: seq<seq<Byte>>
    ghost var log: seq<Frame>
    ghost var wire: seq<Frame>
    ghost var reclaimed: nat
    ghost var trace: seq<Step>

    ghost function Abs(): State
      reads this
    {
      State(active, head, tail, desc, buf, blen, cdp, pc, accepted, log, wire, reclaimed)
    }

    ghost predicate Valid()
      reads this
    {
      Allocated(c, buf0) && Abs() == After(c, buf0, trace)
    }

    /** xpnet_tx_queue_init, once its memory is allocated. */
    constructor (c: Config, buf: seq<seq<Byte>>)
      requires Allocated(c, buf)
      ensures Valid() && this.c == c && buf0 == buf && trace == [] && pc.Idle?
    {
      this.c := c;
      active, head, tail := true, c.n - 1, 0;
      desc := seq(c.n, (i: nat) => Desc(0, 0, 0, if c.a0 || i + 1 >= c.n then 0 else DescAddr(c, i + 1)));
      this.buf := buf;
      blen := seq(c.n, _ => 0);
      cdp := DescAddr(c, 0);
      buf0, pc := buf, Idle(Dropped);
      accepted, log, wire, reclaimed, trace := [], [], [], 0, [];
    }

    /** Record a driver step that has just been carried out on the fields. */
    ghost method Record(s: State)
      requires Allocated(c, buf0) && s == After(c, buf0, trace) && Abs() == DriverStep(c, s)
      modifies this`trace
      ensures Valid() && trace == old(trace) + [Drive] && Within(old(trace), trace)
    {
      hide After, Allocated, DriverStep;
      AfterOne(c, buf0, trace, Drive);
      trace := trace + [Drive];
    }

    /** One completion by the device, if it is in a position to make it. */
    method DeviceActs(slot: nat, page: nat, w0: nat)
      requires Valid()
      modifies this`desc, this`cdp, this`wire, this`trace
      ensures Valid() && trace == old(trace) + [Step.Device(slot, page, w0)] && Within(old(trace), trace)
    {
      hide After, Allocated, Wire, ValidConfig;
      assert Shape(c, Abs());
      if slot < |desc| && page < |c.dma| && page < |buf| && |buf[page]| == SEGMENT
         && cdp == DescAddr(c, slot) && Own(desc[slot])
         && desc[slot].w2 == c.dma[page] && 1 <= desc[slot].w1 <= SEGMENT && !Bits.Bit(w0, 4) {
        var d := desc[slot];
        desc := desc[slot := d.(w0 := w0)];
        wire := wire + [Frame(Bits.Bit(d.w0, 3), Bits.Bit(d.w0, 2), Wire(buf[page], d.w1, c.swap))];
        cdp := d.w3;
      }
      AfterOne(c, buf0, trace, Step.Device(slot, page, w0));
      trace := trace + [Step.Device(slot, page, w0)];
    }

    /** Anything the device may do before the driver's next access. */
    method DeviceRuns()
      requires Valid()
      modifies this`desc, this`cdp, this`wire, this`trace
      ensures Valid() && Within(old(trace), trace)
    {
      var acts: nat := *;
      while acts > 0
        invariant Valid() && Within(old(trace), trace)
      {
        var slot: nat, page: nat, w0: nat := *, *, *;
        DeviceActs(slot, page, w0);
        acts := acts - 1;
      }
    }

    // ---------------------------------------------------------------- transmit

    /** Record that `skb` has been offered and the guards came out as the fields say. */
    ghost method RecordOffer(s: State, skb: Skb)
      requires Allocated(c, buf0) && s == After(c, buf0, trace) && s.pc.Idle? && Abs() == Begin(c, s, skb)
      modifies this`trace
      ensures Valid() && OneCall(old(trace), trace, skb)
    {
      AfterOne(c, buf0, trace, Xmit(skb));
      trace := trace + [Xmit(skb)];
    }

    /** __xpnet_skb_to_shards: copy the packet, shard by shard, into the buffers from the tail on. */
    method SkbToShards(pkt: seq<Byte>) returns (shards: nat)
      requires Valid() && pc == Fill(pkt, 0) && 0 < |pkt|
      modifies this`desc, this`cdp, this`wire, this`buf, this`blen, this`pc, this`trace
      ensures Valid() && pc == Check(pkt, 0) && Within(old(trace), trace)
      ensures shards == NumShards(|pkt|)
    {
      hide After, Allocated, ShardBuffer, ShardLen;
      var copied, n, max := 0, tail, |pkt|;
      shards := 0;
      assert Shape(c, Abs());
      while copied < max
        invariant Valid() && pc == Fill(pkt, shards) && Within(old(trace), trace)
        invariant shards <= NumShards(max) && copied == (if shards < NumShards(max) then shards * SEGMENT else max)
        invariant n == Ring.Wrap(tail + shards, c.n)
      {
        DeviceRuns();
        var b2c := if max - copied < SEGMENT then max - copied else SEGMENT;
        FillShard(n, pkt, shards, copied, b2c);
        copied := copied + b2c;
        Ring.WrapAdd(tail + shards, 1, c.n);
        n := Ring.AddAndWrap(n, 1, c.n);
        shards := shards + 1;
      }
      MoveTo(Check(pkt, 0));
    }

    /** A driver step that touches nothing but the place in the code. */
    ghost method MoveTo(next: Pc)
      requires Valid() && Abs().(pc := next) == DriverStep(c, Abs())
      modifies this`pc, this`trace
      ensures Valid() && pc == next && trace == old(trace) + [Drive] && Within(old(trace), trace)
    {
      hide After, Allocated, DriverStep;
      ghost var s := Abs();
      pc := next;
      Record(s);
    }

    method FillShard(n: nat, pkt: seq<Byte>, k: nat, copied: nat, b2c: nat)
      requires Valid() && pc == Fill(pkt, k) && k < NumShards(|pkt|)
      requires n == Slot(c, Abs(), k) && copied == k * SEGMENT && b2c == ChunkLen(|pkt|, k)
      modifies this`buf, this`blen, this`pc, this`trace
      ensures Valid() && pc == Fill(pkt, k + 1) && Within(old(trace), trace)
    {
      hide After, Allocated, ShardBuffer, ShardLen, Ring.Wrap;
      ghost var s := Abs();
      assert Shape(c, s);
      var page, len := PrepareShard(buf[n], pkt, k, copied, b2c, c.swap);
      buf, blen := buf[n := page], blen[n := len];
      pc := Fill(pkt, k + 1);
      Record(s);
    }

    /** __xpnet_skb_stat_enqueue, first loop: all descriptors must be free and without error. */
    method CheckSpace(ghost pkt: seq<Byte>, shards: nat) returns (r: EnqueueResult)
      requires Valid() && pc == Check(pkt, 0) && shards == NumShards(|pkt|)
      modifies this`desc, this`cdp, this`wire, this`pc, this`trace
      ensures Valid() && Within(old(trace), trace)
      ensures pc == if r.Queued? then Write(pkt, 0, 2) else Idle(Busy)
    {
      hide After, Allocated, Own, Err;
      assert Shape(c, Abs());
      var max, idx := shards, tail;
      while max > 0
        invariant Valid() && Within(old(trace), trace) && 0 <= max <= shards
        invariant pc == Check(pkt, shards - max) && idx == Ring.Wrap(tail + (shards - max), c.n)
      {
        DeviceRuns();
        if Own(desc[idx]) {
          MoveTo(Idle(Busy));
          return QueueBusy;
        }
        if Err(desc[idx]) {
          MoveTo(Idle(Busy));
          return QueueError;
        }
        MoveTo(Check(pkt, shards - max + 1));
        Ring.WrapAdd(tail + (shards - max), 1, c.n);
        idx := Ring.AddAndWrap(idx, 1, c.n);
        max := max - 1;
      }
      MoveTo(Write(pkt, 0, 2));
      r := Queued;
    }

    /** Writing one descriptor of the packet: buffer address, length, flags. */
    method WriteDescriptor(ghost pkt: seq<Byte>, ghost k: nat, idx: nat)
      requires Valid() && pc == Write(pkt, k, 2) && k < NumShards(|pkt|) && idx == Slot(c, Abs(), k)
      modifies this`desc, this`cdp, this`wire, this`pc, this`trace
      ensures Valid() && Within(old(trace), trace) && pc == Write(pkt, k + 1, 2)
    {
      hide After, Allocated, CanComplete;
      DeviceRuns();
      WriteWord(pkt, k, 2, idx, c.dma[idx]);
      DeviceRuns();
      WriteWord(pkt, k, 1, idx, blen[idx]);
      DeviceRuns();
      if idx == tail {
        WriteWord(pkt, k, 0, idx, SOP);
      } else {
        WriteWord(pkt, k, 0, idx, OWNERSHIP);
      }
    }

    /** One store to a descriptor word. */
    method WriteWord(ghost pkt: seq<Byte>, ghost k: nat, word: nat, idx: nat, value: nat)
      requires Valid() && pc == Write(pkt, k, word) && word <= 2 && k < NumShards(|pkt|) && idx == Slot(c, Abs(), k)
      requires value == if word == 2 then c.dma[idx] else if word == 1 then blen[idx] else if idx == tail then SOP else OWNERSHIP
      modifies this`desc, this`pc, this`trace
      ensures Valid() && Within(old(trace), trace)
      ensures pc == if word > 0 then Write(pkt, k, word - 1) else Write(pkt, k + 1, 2)
    {
      hide After, Allocated, Ring.Wrap;
      ghost var s := Abs();
      assert Shape(c, s);
      var d := desc[idx];
      desc := desc[idx := if word == 2 then d.(w2 := value) else if word == 1 then d.(w1 := value) else d.(w0 := value)];
      pc := if word > 0 then Write(pkt, k, word - 1) else Write(pkt, k + 1, 2);
      Record(s);
    }

    /** __xpnet_skb_stat_enqueue, second loop; `last` is where it leaves `d`. */
    method WriteDescriptors(ghost pkt: seq<Byte>, shards: nat) returns (last: nat)
      requires Valid() && pc == Write(pkt, 0, 2) && shards == NumShards(|pkt|) && 0 < |pkt|
      modifies this`desc, this`cdp, this`wire, this`pc, this`trace
      ensures Valid() && Within(old(trace), trace) && pc == MarkEop(pkt)
      ensures last == Ring.Wrap(tail + shards - 1, c.n)
    {
      hide After, Allocated, CanComplete;
      assert Shape(c, Abs());
      var max, idx := shards, tail;
      last := tail;
      assert shards > 0;
      while max > 0
        invariant Valid() && Within(old(trace), trace) && 0 <= max <= shards
        invariant pc == Write(pkt, shards - max, 2) && idx == Ring.Wrap(tail + (shards - max), c.n)
        invariant max < shards ==> last == Ring.Wrap(tail + (shards - max) - 1, c.n)
      {
        last := idx;
        WriteDescriptor(pkt, shards - max, idx);
        Ring.WrapAdd(tail + (shards - max), 1, c.n);
        idx := Ring.AddAndWrap(idx, 1, c.n);
        max := max - 1;
      }
      MoveTo(MarkEop(pkt));
    }

    /**
     __xpnet_skb_stat_enqueue: check, write every descriptor, mark the last, and only then hand
     over the first; under the A0 flag point the device at it.
     */
    method SkbStatEnqueue(ghost pkt: seq<Byte>, shards: nat) returns (r: EnqueueResult)
      requires Valid() && pc == Check(pkt, 0) && shards == NumShards(|pkt|) && 0 < |pkt|
      modifies this`desc, this`cdp, this`wire, this`pc, this`trace, this`accepted, this`log
      ensures Valid() && Within(old(trace), trace)
      ensures r.Queued? ==> pc == Advance(pkt) && accepted == old(accepted) + [pkt]
      ensures !r.Queued? ==> pc == Idle(Busy) && accepted == old(accepted)
    {
      hide After, Allocated, CanComplete;
      r := CheckSpace(pkt, shards);
      if r.Queued? {
        var last := WriteDescriptors(pkt, shards);
        DeviceRuns();
        MarkLast(pkt, last);
        DeviceRuns();
        HandOver(pkt);
      }
    }

    method MarkLast(ghost pkt: seq<Byte>, last: nat)
      requires Valid() && pc == MarkEop(pkt) && 0 < |pkt| && last == Ring.Wrap(tail + NumShards(|pkt|) - 1, c.n)
      modifies this`desc, this`pc, this`trace
      ensures Valid() && Within(old(trace), trace) && pc == Publish(pkt)
    {
      hide After, Allocated;
      ghost var s := Abs();
      assert Shape(c, s);
      assert Ring.Wrap(tail + NumShards(|pkt|) - 1 + c.n, c.n) == Ring.Wrap(tail + NumShards(|pkt|) - 1, c.n);
      desc := desc[last := desc[last].(w0 := Bits.Or(desc[last].w0, EOP))];
      pc := Publish(pkt);
      Record(s);
    }

    method HandOver(ghost pkt: seq<Byte>)
      requires Valid() && pc == Publish(pkt)
      modifies this`desc, this`cdp, this`wire, this`pc, this`trace, this`accepted, this`log
      ensures Valid() && Within(old(trace), trace)
      ensures pc == Advance(pkt) && accepted == old(accepted) + [pkt]
    {
      hide After, Allocated, CanComplete, Frames, Bits.Or, Own;
      ghost var s := Abs();
      assert Shape(c, s);
      desc := desc[tail := desc[tail].(w0 := Bits.Or(desc[tail].w0, OWNERSHIP))];
      accepted, log := accepted + [pkt], log + Frames(pkt);
      pc := if c.a0 then SetCdp(pkt) else Advance(pkt);
      Record(s);
      if c.a0 {
        DeviceRuns();
        PointDevice(pkt);
      }
    }

    /** xpnet_set_q_cdp: the device is to go on from the tail. */
    method PointDevice(ghost pkt: seq<Byte>)
      requires Valid() && pc == SetCdp(pkt)
      modifies this`cdp, this`pc, this`trace
      ensures Valid() && Within(old(trace), trace) && pc == Advance(pkt)
    {
      hide After, Allocated;
      ghost var s := Abs();
      cdp := DescAddr(c, tail);
      pc := Advance(pkt);
      Record(s);
    }

    /**
     xpnet_hard_start_xmit; the statistics and the release of the packet are the caller's. The outcome
     is settled by the queue as the call finds it, whatever the device does meanwhile.
     */
    method HardStartXmit(skb: Skb) returns (out: Outcome)
      requires Valid() && pc.Idle?
      modifies this`tail, this`desc, this`buf, this`blen, this`cdp, this`wire, this`pc, this`trace, this`accepted, this`log
      ensures Valid() && OneCall(old(trace), trace, skb)
      ensures out == OutcomeOf(c, old(Abs()), skb) && accepted == old(accepted) + Gain(out, skb)
      ensures pc == if out.Busy? then Idle(Busy) else Complete(out)
    {
      hide After, Allocated, OnCourse, OutcomeOf;
      out := Attempt(skb);
      Judged(old(trace), old(Abs()), skb, out);
    }

    /** What the call has come to is what the queue it found says. */
    lemma Judged(before: seq<Step>, was: State, skb: Skb, out: Outcome)
      requires Valid() && was == After(c, buf0, before) && was.pc.Idle? && OneCall(before, trace, skb)
      requires pc == if out.Busy? then Idle(Busy) else Complete(out)
      ensures out == OutcomeOf(c, was, skb) && accepted == was.accepted + Gain(out, skb)
    {
      hide After, OutcomeOf;
      RunOnCourse(c, buf0, before, skb, trace);
    }

    /** The guards of xpnet_hard_start_xmit, then the transfer. */
    method Attempt(skb: Skb) returns (out: Outcome)
      requires Valid() && pc.Idle?
      modifies this`tail, this`desc, this`buf, this`blen, this`cdp, this`wire, this`pc, this`trace, this`accepted, this`log
      ensures Valid() && OneCall(old(trace), trace, skb)
      ensures pc == if out.Busy? then Idle(Busy) else Complete(out)
    {
      hide After, Allocated, CanComplete;
      ghost var s := Abs();
      assert Shape(c, s);
      if !active || skb.NullSkb? {
        pc := Complete(Dropped);
        RecordOffer(s, skb);
        return Dropped;
      }
      var free := Ring.FreeDesc(c.n, head, tail);
      if free == 0 {
        pc := Idle(Busy);
        RecordOffer(s, skb);
        return Busy;
      }
      if |skb.data| == 0 || |skb.data| > free * SEGMENT || skb.fragmented {
        pc := Complete(Dropped);
        RecordOffer(s, skb);
        return Dropped;
      }
      if Own(desc[tail]) || Err(desc[tail]) {
        pc := Idle(Busy);
        RecordOffer(s, skb);
        return Busy;
      }
      pc := Fill(skb.data, 0);
      RecordOffer(s, skb);
      out := Transfer(skb.data);
    }

    /** The rest of xpnet_hard_start_xmit, once the guards let the packet through. */
    method Transfer(pkt: seq<Byte>) returns (out: Outcome)
      requires Valid() && pc == Fill(pkt, 0) && 0 < |pkt|
      modifies this`tail, this`desc, this`buf, this`blen, this`cdp, this`wire, this`pc, this`trace, this`accepted, this`log
      ensures Valid() && Within(old(trace), trace) && !out.Dropped?
      ensures pc == if out.Busy? then Idle(Busy) else Complete(out)
      ensures accepted == if out.Sent? then old(accepted) + [pkt] else old(accepted)
    {
      hide After, Allocated, CanComplete;
      var shards := SkbToShards(pkt);
      var r := SkbStatEnqueue(pkt, shards);
      if !r.Queued? {
        return Busy;
      }
      ghost var s := Abs();
      assert Shape(c, s);
      tail := Ring.AddAndWrap(tail, shards, c.n);
      pc := Complete(Sent);
      Record(s);
      out := Sent;
    }

    // -------------------------------------------------------------- completion

    /** The busy wait of xpnet_tx_complete: up to 50 looks at the descriptor. */
    method AwaitRelease(ghost out: Outcome, ghost iter: nat, ghost max: nat, next: nat)
      requires Valid() && pc == Spin(out, iter, max, 0) && next == Next(c, Abs())
      modifies this`desc, this`cdp, this`wire, this`pc, this`trace
      ensures Valid() && Within(old(trace), trace) && pc == Settle(out, iter, max)
    {
      hide After, Allocated, CanComplete, Own;
      assert Shape(c, Abs());
      var attempt := 0;
      DeviceRuns();
      while attempt < MAX_ATTEMPTS && Own(desc[next])
        invariant Valid() && Within(old(trace), trace)
        invariant attempt <= MAX_ATTEMPTS && pc == Spin(out, iter, max, attempt)
      {
        attempt := attempt + 1;
        MoveTo(Spin(out, iter, max, attempt));
        DeviceRuns();
      }
      MoveTo(Settle(out, iter, max));
    }

    /**
     xpnet_tx_complete: take back, in order, the descriptors the device has released. The head
     moves by the number of descriptors found released, and by no more than were busy.
     */
    method TxComplete(ghost out: Outcome)
      requires Valid() && pc == Complete(out)
      modifies this`head, this`tail, this`desc, this`cdp, this`wire, this`pc, this`trace, this`reclaimed
      ensures Valid() && Within(old(trace), trace) && pc == Idle(out)
      ensures old(reclaimed) <= reclaimed <= old(reclaimed) + Ring.BusyDesc(c.n, old(head), old(tail))
      ensures !c.a0 ==> tail == old(tail) && head == Ring.Wrap(old(head) + (reclaimed - old(reclaimed)), c.n)
    {
      hide After, Allocated, DriverStep, Ring.Wrap, Shape;
      var max := OpenCompletion(out);
      ReclaimLoop(out, max);
      CloseCompletion(out);
    }

    method ReclaimLoop(ghost out: Outcome, max: nat)
      requires Valid() && pc == Scan(out, 0, max) && head < c.n && head == Ring.Wrap(head + 0, c.n)
      modifies this`head, this`desc, this`cdp, this`wire, this`pc, this`trace, this`reclaimed
      ensures Valid() && Within(old(trace), trace) && pc == Finish(out)
      ensures old(reclaimed) <= reclaimed <= old(reclaimed) + max
      ensures head == Ring.Wrap(old(head) + (reclaimed - old(reclaimed)), c.n)
    {
      hide After, Allocated, DriverStep, Own, Ring.Wrap, Shape;
      var iter, h, stop := 0, head, false;
      while iter < max && !stop
        invariant Valid() && Within(old(trace), trace) && iter <= max && h == head
        invariant pc == if stop then Finish(out) else Scan(out, iter, max)
        invariant reclaimed == old(reclaimed) + iter && head == Ring.Wrap(old(head) + iter, c.n)
        decreases max - iter, !stop
      {
        DeviceRuns();
        Ring.WrapAdd(old(head) + iter, 1, c.n);
        h, stop := ReclaimOne(out, iter, max, h);
        if !stop {
          iter := iter + 1;
        }
      }
      if !stop {
        LeaveLoop(out, iter, max);
      }
    }

    method OpenCompletion(ghost out: Outcome) returns (max: nat)
      requires Valid() && pc == Complete(out)
      modifies this`pc, this`trace
      ensures Valid() && Within(old(trace), trace) && pc == Scan(out, 0, max)
      ensures head < c.n && tail < c.n && max == Ring.BusyDesc(c.n, head, tail) && head == Ring.Wrap(head + 0, c.n)
    {
      hide After, Allocated;
      assert Shape(c, Abs());
      max := Ring.BusyDesc(c.n, head, tail);
      MoveTo(Scan(out, 0, max));
    }

    ghost method LeaveLoop(out: Outcome, iter: nat, max: nat)
      requires Valid() && pc == Scan(out, iter, max) && iter >= max
      modifies this`pc, this`trace
      ensures Valid() && Within(old(trace), trace) && pc == Finish(out)
    {
      hide After, Allocated, Own, Err;
      MoveTo(Finish(out));
    }

    /** One turn of the completion loop on the descriptor behind `h`. */
    method ReclaimOne(ghost out: Outcome, ghost iter: nat, ghost max: nat, h: nat) returns (h': nat, stop: bool)
      requires Valid() && pc == Scan(out, iter, max) && iter < max && h == head
      modifies this`head, this`desc, this`cdp, this`wire, this`pc, this`trace, this`reclaimed
      ensures Valid() && Within(old(trace), trace) && h' == head
      ensures stop ==> pc == Finish(out) && head == old(head) && reclaimed == old(reclaimed)
      ensures !stop ==> pc == Scan(out, iter + 1, max) && reclaimed == old(reclaimed) + 1
      ensures !stop ==> head == Ring.Wrap(old(head) + 1, c.n) && !Own(desc[head])
    {
      hide After, Allocated, CanComplete, Own, Err, Ring.Wrap;
      assert Shape(c, Abs());
      var next := Ring.AddAndWrap(h, 1, c.n);
      if next == tail || Err(desc[next]) {
        MoveTo(Finish(out));
        return h, true;
      }
      MoveTo(Spin(out, iter, max, 0));
      stop := WaitAndTake(out, iter, max, next);
      h' := if stop then h else next;
    }

    method WaitAndTake(ghost out: Outcome, ghost iter: nat, ghost max: nat, next: nat) returns (stop: bool)
      requires Valid() && pc == Spin(out, iter, max, 0) && next == Next(c, Abs())
      modifies this`head, this`desc, this`cdp, this`wire, this`pc, this`trace, this`reclaimed
      ensures Valid() && Within(old(trace), trace) && head < |desc|
      ensures stop ==> pc == Finish(out) && head == old(head) && reclaimed == old(reclaimed)
      ensures !stop ==> pc == Scan(out, iter + 1, max) && reclaimed == old(reclaimed) + 1 && head == next && !Own(desc[head])
    {
      hide After, Allocated, CanComplete, Own, Err, Ring.Wrap;
      assert Shape(c, Abs());
      AwaitRelease(out, iter, max, next);
      DeviceRuns();
      stop := Own(desc[next]);
      if stop {
        MoveTo(Finish(out));
      } else {
        TakeBack(out, iter, max, next);
      }
    }

    method TakeBack(ghost out: Outcome, ghost iter: nat, ghost max: nat, next: nat)
      requires Valid() && pc == Settle(out, iter, max) && next == Next(c, Abs()) && next < |desc| && !Own(desc[next])
      modifies this`head, this`pc, this`trace, this`reclaimed
      ensures Valid() && Within(old(trace), trace)
      ensures pc == Scan(out, iter + 1, max) && reclaimed == old(reclaimed) + 1 && head == next
    {
      hide After, Allocated, Own;
      ghost var s := Abs();
      head, reclaimed, pc := next, reclaimed + 1, Scan(out, iter + 1, max);
      Record(s);
    }

    method CloseCompletion(ghost out: Outcome)
      requires Valid() && pc == Finish(out)
      modifies this`head, this`tail, this`pc, this`trace
      ensures Valid() && Within(old(trace), trace) && pc == Idle(out)
      ensures if c.a0 then head == c.n - 1 && tail == 0 else head == old(head) && tail == old(tail)
    {
      hide After, Allocated;
      ghost var s := Abs();
      if c.a0 {
        head, tail := c.n - 1, 0;
      }
      pc := Idle(out);
      Record(s);
    }

    /** xpnet_start_xmit behind its DMA-enabled check: transmit, then complete unless busy. */
    method StartXmit(skb: Skb) returns (out: Outcome)
      requires Valid() && pc.Idle?
      modifies this
      ensures Valid() && OneCall(old(trace), trace, skb) && pc == Idle(out)
      ensures out == OutcomeOf(c, old(Abs()), skb) && accepted == old(accepted) + Gain(out, skb)
    {
      hide After, Allocated;
      out := HardStartXmit(skb);
      if !out.Busy? {
        TxComplete(out);
      }
    }
  }

  /** The body of the loop: clear, copy, swap in place. */
  method PrepareShard(old_: seq<Byte>, pkt: seq<Byte>, k: nat, copied: nat, b2c: nat, swap: bool)
    returns (buffer: seq<Byte>, len: nat)
    requires |old_| == SEGMENT && k < NumShards(|pkt|) && copied == k * SEGMENT && b2c == ChunkLen(|pkt|, k)
    ensures buffer == ShardBuffer(old_, pkt, k, swap) && len == ShardLen(|pkt|, k)
  {
    var bytes := old_;
    len := b2c;
    if |pkt| < SHORT_PACKET {
      bytes := Zeros(SHORT_PACKET) + bytes[SHORT_PACKET..];
      len := SHORT_PACKET;
    }
    bytes := pkt[copied..copied + b2c] + bytes[b2c..];
    var page := new Byte[SEGMENT](j requires 0 <= j < SEGMENT => bytes[j]);
    assert page[..] == bytes;
    SwapTerminates(len);
    var _ := EndianSwap32(page, len, swap);
    buffer := page[..];
  }
}
