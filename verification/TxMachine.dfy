/**
 The transmit queue and its device as one transition system.

 A driver step is one memory access of xpnet_hard_start_xmit, __xpnet_skb_to_shards,
 __xpnet_skb_stat_enqueue or xpnet_tx_complete; a device step may fall between any two of
 them. Descriptor words are the words of DMA memory.
 */
module TxMachine {

  import opened Descriptors
  import opened Shards
  import Bits
  import Ring

  const MAX_ATTEMPTS: nat := 50

  datatype Skb = NullSkb | Skb(data: seq<Byte>, fragmented: bool)

  /** How a transmit ends; Sent and Dropped are NETDEV_TX_OK, Busy is NETDEV_TX_BUSY. */
  datatype Outcome = Sent | Dropped | Busy

  /** Where the driver is. `k` counts shards, `word` is the next descriptor word to write. */
  datatype Pc =
    | Idle(last: Outcome)
    | Fill(pkt: seq<Byte>, k: nat)
    | Check(pkt: seq<Byte>, k: nat)
    | Write(pkt: seq<Byte>, k: nat, word: nat)
    | MarkEop(pkt: seq<Byte>)
    | Publish(pkt: seq<Byte>)
    | SetCdp(pkt: seq<Byte>)
    | Advance(pkt: seq<Byte>)
    | Complete(out: Outcome)
    | Scan(out: Outcome, iter: nat, max: nat)
    | Spin(out: Outcome, iter: nat, max: nat, attempt: nat)
    | Settle(out: Outcome, iter: nat, max: nat)
    | Finish(out: Outcome)

  /**
   Queue, device and history. `cdp` is the device's current descriptor pointer, 0 when it
   stopped. History: the packets published, their frames, the frames the device sent, and
   the number of descriptors the driver took back.
   */
  datatype State = State(
    active: bool, head: nat, tail: nat,
    desc: seq<Desc>, buf: seq<seq<Byte>>, blen: seq<nat>,
    cdp: nat, pc: Pc,
    accepted: seq<seq<Byte>>, log: seq<Frame>, wire: seq<Frame>, reclaimed: nat)

  ghost predicate Shape(c: Config, s: State) {
    && ValidConfig(c)
    && |s.desc| == c.n && |s.buf| == c.n && |s.blen| == c.n
    && s.head < c.n && s.tail < c.n
    && forall i :: 0 <= i < c.n ==> |s.buf[i]| == SEGMENT
  }

  /** Slot of the k-th shard of the packet at the tail. */
  function Slot(c: Config, s: State, k: nat): (i: nat)
    requires c.n > 0
    ensures i < c.n
  {
    Ring.Wrap(s.tail + k, c.n)
  }

  function Next(c: Config, s: State): nat
    requires c.n > 0
  {
    Ring.AddAndWrap(s.head, 1, c.n)
  }

  /** Buffers as allocated: one page each, with any contents. */
  ghost predicate Allocated(c: Config, buf: seq<seq<Byte>>) {
    && ValidConfig(c) && |buf| == c.n
    && forall i :: 0 <= i < c.n ==> |buf[i]| == SEGMENT
  }

  /** A queue after xpnet_tx_queue_init: zeroed descriptors, chained only without the A0 flag. */
  function Init(c: Config, buf: seq<seq<Byte>>): (s: State)
    requires Allocated(c, buf)
    ensures Shape(c, s)
  {
    State(true, c.n - 1, 0,
          seq(c.n, (i: nat) => Desc(0, 0, 0, if c.a0 || i + 1 >= c.n then 0 else DescAddr(c, i + 1))),
          buf, seq(c.n, _ => 0),
          DescAddr(c, 0), Idle(Dropped), [], [], [], 0)
  }

  // -------------------------------------------------------------------- driver

  /** The guards of xpnet_hard_start_xmit. */
  function Begin(c: Config, s: State, skb: Skb): (r: State)
    requires Shape(c, s)
    ensures Shape(c, r)
  {
    if !s.active || skb.NullSkb? then s.(pc := Complete(Dropped))
    else
      var free := Ring.FreeDesc(c.n, s.head, s.tail);
      if free == 0 then s.(pc := Idle(Busy))
      else if |skb.data| == 0 || |skb.data| > free * SEGMENT then s.(pc := Complete(Dropped))
      else if skb.fragmented then s.(pc := Complete(Dropped))
      else if Own(s.desc[s.tail]) || Err(s.desc[s.tail]) then s.(pc := Idle(Busy))
      else s.(pc := Fill(skb.data, 0))
  }

  /** __xpnet_skb_to_shards: copy the next shard into its buffer. */
  function FillStep(c: Config, s: State, p: seq<Byte>, k: nat): (r: State)
    requires Shape(c, s)
    ensures Shape(c, r)
  {
    if k >= NumShards(|p|) then s.(pc := Check(p, 0))
    else
      var i := Slot(c, s, k);
      s.(buf := s.buf[i := ShardBuffer(s.buf[i], p, k, c.swap)],
         blen := s.blen[i := ShardLen(|p|, k)],
         pc := Fill(p, k + 1))
  }

  /** __xpnet_skb_stat_enqueue, first loop: look at the next descriptor. */
  function CheckStep(c: Config, s: State, p: seq<Byte>, k: nat): (r: State)
    requires Shape(c, s)
    ensures Shape(c, r)
  {
    if k >= NumShards(|p|) then s.(pc := Write(p, 0, 2))
    else if Own(s.desc[Slot(c, s, k)]) || Err(s.desc[Slot(c, s, k)]) then s.(pc := Idle(Busy))
    else s.(pc := Check(p, k + 1))
  }

  /** __xpnet_skb_stat_enqueue, second loop: write the next word of the next descriptor. */
  function WriteStep(c: Config, s: State, p: seq<Byte>, k: nat, word: nat): (r: State)
    requires Shape(c, s)
    ensures Shape(c, r)
  {
    if k >= NumShards(|p|) then s.(pc := MarkEop(p))
    else
      var i := Slot(c, s, k);
      var d := s.desc[i];
      if word == 2 then s.(desc := s.desc[i := d.(w2 := c.dma[i])], pc := Write(p, k, 1))
      else if word == 1 then s.(desc := s.desc[i := d.(w1 := s.blen[i])], pc := Write(p, k, 0))
      else s.(desc := s.desc[i := d.(w0 := if i == s.tail then SOP else OWNERSHIP)],
              pc := Write(p, k + 1, 2))
  }

  /** EOP on the last shard, keeping its other bits. */
  function MarkEopStep(c: Config, s: State, p: seq<Byte>): (r: State)
    requires Shape(c, s)
    ensures Shape(c, r)
  {
    var i := Slot(c, s, NumShards(|p|) + c.n - 1);
    s.(desc := s.desc[i := s.desc[i].(w0 := Bits.Or(s.desc[i].w0, EOP))], pc := Publish(p))
  }

  /** Ownership of the first shard: from here on the device may take the packet. */
  function PublishStep(c: Config, s: State, p: seq<Byte>): (r: State)
    requires Shape(c, s)
    ensures Shape(c, r)
  {
    var d := s.desc[s.tail];
    s.(desc := s.desc[s.tail := d.(w0 := Bits.Or(d.w0, OWNERSHIP))],
       accepted := s.accepted + [p], log := s.log + Frames(p),
       pc := if c.a0 then SetCdp(p) else Advance(p))
  }

  function AdvanceStep(c: Config, s: State, p: seq<Byte>): (r: State)
    requires Shape(c, s)
    ensures Shape(c, r)
  {
    s.(tail := Ring.AddAndWrap(s.tail, NumShards(|p|), c.n), pc := Complete(Sent))
  }

  /** xpnet_tx_complete: the top of the loop; its bound is the busy count, below `n`. */
  function ScanStep(c: Config, s: State, out: Outcome, iter: nat, max: nat): (r: State)
    requires Shape(c, s)
    ensures Shape(c, r)
  {
    if iter >= max || Next(c, s) == s.tail || Err(s.desc[Next(c, s)]) then s.(pc := Finish(out))
    else s.(pc := Spin(out, iter, max, 0))
  }

  /** xpnet_tx_complete: one of at most 50 looks at a descriptor still owned by the device. */
  function SpinStep(c: Config, s: State, out: Outcome, iter: nat, max: nat, attempt: nat): (r: State)
    requires Shape(c, s)
    ensures Shape(c, r)
  {
    if attempt < MAX_ATTEMPTS && Own(s.desc[Next(c, s)])
    then s.(pc := Spin(out, iter, max, attempt + 1))
    else s.(pc := Settle(out, iter, max))
  }

  /** xpnet_tx_complete: take the descriptor back if the device released it. */
  function SettleStep(c: Config, s: State, out: Outcome, iter: nat, max: nat): (r: State)
    requires Shape(c, s)
    ensures Shape(c, r)
  {
    if Own(s.desc[Next(c, s)]) then s.(pc := Finish(out))
    else s.(head := Next(c, s), reclaimed := s.reclaimed + 1, pc := Scan(out, iter + 1, max))
  }

  /** Under the A0 flag the queue starts over after every completion. */
  function FinishStep(c: Config, s: State, out: Outcome): (r: State)
    requires Shape(c, s)
    ensures Shape(c, r)
  {
    if c.a0 then s.(head := c.n - 1, tail := 0, pc := Idle(out)) else s.(pc := Idle(out))
  }

  /** One driver step. */
  function DriverStep(c: Config, s: State): (r: State)
    requires Shape(c, s)
    ensures Shape(c, r)
  {
    match s.pc
    case Idle(_) => s
    case Fill(p, k) => FillStep(c, s, p, k)
    case Check(p, k) => CheckStep(c, s, p, k)
    case Write(p, k, word) => WriteStep(c, s, p, k, word)
    case MarkEop(p) => MarkEopStep(c, s, p)
    case Publish(p) => PublishStep(c, s, p)
    case SetCdp(p) => s.(cdp := DescAddr(c, s.tail), pc := Advance(p))
    case Advance(p) => AdvanceStep(c, s, p)
    case Complete(out) => s.(pc := Scan(out, 0, Ring.BusyDesc(c.n, s.head, s.tail)))
    case Scan(out, iter, max) => ScanStep(c, s, out, iter, max)
    case Spin(out, iter, max, attempt) => SpinStep(c, s, out, iter, max, attempt)
    case Settle(out, iter, max) => SettleStep(c, s, out, iter, max)
    case Finish(out) => FinishStep(c, s, out)
  }

  // -------------------------------------------------------------------- device

  /**
   The device completes the descriptor at its pointer if it owns it: it sends the buffer
   the descriptor names, writes back any flag word without the ownership bit, and follows
   the chain.
   */
  predicate CanComplete(c: Config, s: State, slot: nat, page: nat, w0: nat) {
    && slot < |s.desc| && page < |c.dma| && page < |s.buf| && |s.buf[page]| == SEGMENT
    && s.cdp == c.base + 32 * slot && Own(s.desc[slot])
    && s.desc[slot].w2 == c.dma[page] && 1 <= s.desc[slot].w1 <= SEGMENT
    && !Bits.Bit(w0, 4)
  }

  function DeviceStep(c: Config, s: State, slot: nat, page: nat, w0: nat): (r: State)
    requires Shape(c, s)
    ensures Shape(c, r)
  {
    if !CanComplete(c, s, slot, page, w0) then s
    else
      var d := s.desc[slot];
      s.(desc := s.desc[slot := d.(w0 := w0)],
         wire := s.wire + [Frame(Bits.Bit(d.w0, 3), Bits.Bit(d.w0, 2), Wire(s.buf[page], d.w1, c.swap))],
         cdp := d.w3)
  }

  /**
   The device leaves descriptors it does not own alone. So once a read has found a descriptor not
   owned, the reads that follow it in one driver step see the same words.
   */
  lemma DeviceSparesUnowned(c: Config, s: State, slot: nat, page: nat, w0: nat, i: nat)
    requires Shape(c, s) && i < c.n && !Own(s.desc[i])
    ensures DeviceStep(c, s, slot, page, w0).desc[i] == s.desc[i]
  {
    hide Wire, Bits.Bit;
  }

  // ---------------------------------------------------------------------- runs

  datatype Step = Xmit(skb: Skb) | Drive | Device(slot: nat, page: nat, w0: nat)

  /** One step; a step that is not enabled changes nothing. */
  function Apply(c: Config, s: State, step: Step): (r: State)
    requires Shape(c, s)
    ensures Shape(c, r)
  {
    match step
    case Xmit(skb) => if s.pc.Idle? then Begin(c, s, skb) else s
    case Drive => DriverStep(c, s)
    case Device(slot, page, w0) => DeviceStep(c, s, slot, page, w0)
  }

  function Exec(c: Config, s: State, steps: seq<Step>): (r: State)
    requires Shape(c, s)
    ensures Shape(c, r)
    decreases |steps|
  {
    if steps == [] then s else Apply(c, Exec(c, s, steps[..|steps| - 1]), steps[|steps| - 1])
  }

  lemma ExecOne(c: Config, s: State, steps: seq<Step>, step: Step)
    requires Shape(c, s)
    ensures Exec(c, s, steps + [step]) == Apply(c, Exec(c, s, steps), step)
  {
    assert (steps + [step])[..|steps|] == steps;
  }

  /** The state a run reaches from a fresh queue. */
  function After(c: Config, buf: seq<seq<Byte>>, steps: seq<Step>): (s: State)
    requires Allocated(c, buf)
    ensures Shape(c, s)
  {
    Exec(c, Init(c, buf), steps)
  }

  lemma AfterOne(c: Config, buf: seq<seq<Byte>>, steps: seq<Step>, step: Step)
    requires Allocated(c, buf)
    ensures After(c, buf, steps + [step]) == Apply(c, After(c, buf, steps), step)
  {
    hide Apply;
    ExecOne(c, Init(c, buf), steps, step);
  }
}
