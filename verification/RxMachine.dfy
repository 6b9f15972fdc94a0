/**
 The receive queue and its device as one transition system. Driver steps are the memory
 accesses of xpnet_rx_queue_process; the device may act between any two of them.
 */
module RxMachine {

  import opened Descriptors
  import opened Shards
  import Bits
  import Ring

  const MAX_PACKET: nat := 16384    // XPNET_MAX_PACKET_SIZE, the size of a receive buffer

  /** What the device writes when it completes a descriptor: flags, length word, buffer. */
  datatype Completion = Completion(w0: nat, w1: nat, data: seq<Byte>)

  /** The 16-bit packet size; a device in the swapped mode counts 16 bytes too many. */
  function PktSize(c: Config, w1: nat): (r: nat)
    ensures r < 0x1_0000
  {
    var raw := w1 / 0x1_0000 % 0x1_0000;
    if c.swap then (if raw >= 16 then raw - 16 else raw + 0x1_0000 - 16) else raw
  }

  /** An empty packet in the swapped mode: the word swap then never ends (SwapTerminates). */
  predicate Hangs(c: Config, w1: nat) {
    c.swap && PktSize(c, w1) == 0
  }

  /** A completion whose length the driver can deal with. */
  predicate Sized(c: Config, k: Completion) {
    PktSize(c, k.w1) <= MAX_PACKET && !Hangs(c, k.w1)
  }

  /** A completion the driver hands up whenever it comes across it. */
  predicate Good(c: Config, k: Completion) {
    k.w0 != 1 && Sized(c, k)
  }

  /** The receive buffer after __xpnet_endian_swap32. */
  function Unswapped(c: Config, data: seq<Byte>, size: nat): (r: seq<Byte>)
    requires |data| == MAX_PACKET && size <= MAX_PACKET && (c.swap ==> size >= 1)
    ensures |r| == MAX_PACKET
  {
    if c.swap then Swapped(data, size) else data
  }

  /** The packet in a completion. */
  function Payload(c: Config, k: Completion): seq<Byte>
    requires Sized(c, k) && |k.data| == MAX_PACKET
  {
    Unswapped(c, k.data, PktSize(c, k.w1))[..PktSize(c, k.w1)]
  }

  /** Where the driver is; `left` counts the iterations still allowed. */
  datatype Pc =
    | Idle
    | Poll(left: nat)          // about to read the flag word for the error check
    | Look(left: nat)          // about to read it again, for the ownership check
    | Copy(left: nat, size: nat)
    | Relength(left: nat, skb: seq<Byte>)
    | Republish(left: nat, skb: seq<Byte>)
    | Bump(left: nat, skb: seq<Byte>)
    | Rewind(left: nat, skb: seq<Byte>)
    | HandUp(left: nat, skb: seq<Byte>)
    | Reset(stage: nat)
    | Hung

  /**
   Queue, device and history: the completions written, which of them landed on the descriptor being
   polled between the two reads of its flag word, and the packets handed up.
   */
  datatype State = State(
    tail: nat, desc: seq<Desc>, buf: seq<seq<Byte>>,
    cdp: nat, pc: Pc,
    written: seq<Completion>, late: seq<bool>, delivered: seq<seq<Byte>>)

  ghost predicate Shape(c: Config, s: State) {
    && ValidConfig(c)
    && |s.desc| == c.n && |s.buf| == c.n && s.tail < c.n
    && (forall i :: 0 <= i < c.n ==> |s.buf[i]| == MAX_PACKET)
    && |s.late| == |s.written|
    && (forall j :: 0 <= j < |s.written| ==> |s.written[j].data| == MAX_PACKET)
    && (s.pc.Copy? ==> s.pc.size <= MAX_PACKET && (c.swap ==> s.pc.size >= 1))
  }

  ghost predicate Allocated(c: Config, buf: seq<seq<Byte>>) {
    && ValidConfig(c) && |buf| == c.n
    && forall i :: 0 <= i < c.n ==> |buf[i]| == MAX_PACKET
  }

  /** xpnet_queue_desc_link without the circular flag: slot n - 1 ends the chain. */
  function Linked(c: Config, i: nat): nat {
    if i + 1 < c.n then DescAddr(c, i + 1) else 0
  }

  /** A queue after xpnet_rx_queue_init: linear chain, every descriptor the device's. */
  function Init(c: Config, buf: seq<seq<Byte>>): (s: State)
    requires Allocated(c, buf)
    ensures Shape(c, s)
  {
    State(0, seq(c.n, i requires 0 <= i < c.n => Desc(OWNERSHIP, MAX_PACKET, c.dma[i], Linked(c, i))),
          buf, DescAddr(c, 0), Idle, [], [], [])
  }

  // -------------------------------------------------------------------- driver

  /** The top of the loop: the error check on the flag word. */
  function PollStep(c: Config, s: State, left: nat): (r: State)
    requires Shape(c, s)
    ensures Shape(c, r)
  {
    if left == 0 then s.(pc := Idle)
    else if s.desc[s.tail].w0 == 1 then s.(pc := Reset(0))
    else s.(pc := Look(left))
  }

  /**
   The ownership check on the flag word, read anew, and the checks on the length. A descriptor found
   not owned stays as it is, so the length word can be read in the same step.
   */
  function LookStep(c: Config, s: State, left: nat, alloc: bool): (r: State)
    requires Shape(c, s)
    ensures Shape(c, r)
  {
    var d := s.desc[s.tail];
    if Own(d) then s.(pc := Idle)
    else if PktSize(c, d.w1) > MAX_PACKET then s.(pc := Reset(0))
    else if !alloc then s.(pc := Idle)
    else if Hangs(c, d.w1) then s.(pc := Hung)
    else s.(pc := Copy(left, PktSize(c, d.w1)))
  }

  /** Swap the buffer in place and copy the packet out of it. */
  function CopyStep(c: Config, s: State, left: nat, size: nat): (r: State)
    requires Shape(c, s) && s.pc == Copy(left, size)
    ensures Shape(c, r)
  {
    var b := Unswapped(c, s.buf[s.tail], size);
    s.(buf := s.buf[s.tail := b], pc := Relength(left, b[..size]))
  }

  /** __xpnet_rx_desc_reset followed by xpnet_rx_desc_enable, one word at a time. */
  function ResetStep(c: Config, s: State, stage: nat): (r: State)
    requires Shape(c, s)
    ensures Shape(c, r)
  {
    var d := s.desc[s.tail];
    if stage == 0 then
      s.(desc := s.desc[s.tail := d.(w3 := DescAddr(c, Ring.AddAndWrap(s.tail, 1, c.n)))], pc := Reset(1))
    else if stage == 1 then s.(desc := s.desc[s.tail := d.(w2 := c.dma[s.tail])], pc := Reset(2))
    else if stage == 2 then s.(desc := s.desc[s.tail := d.(w1 := MAX_PACKET)], pc := Reset(3))
    else if stage == 3 then s.(desc := s.desc[s.tail := d.(w0 := OWNERSHIP)], pc := Reset(4))
    else s.(desc := s.desc[s.tail := d.(w0 := Bits.Or(Bits.And(d.w0, 0x1f), OWNERSHIP))], pc := Idle)
  }

  /** One driver step; `alloc` says whether an skb is to be had. */
  function DriverStep(c: Config, s: State, alloc: bool): (r: State)
    requires Shape(c, s)
    ensures Shape(c, r)
  {
    match s.pc
    case Idle => s
    case Hung => s
    case Poll(left) => PollStep(c, s, left)
    case Look(left) => LookStep(c, s, left, alloc)
    case Copy(left, size) => CopyStep(c, s, left, size)
    case Relength(left, skb) =>
      s.(desc := s.desc[s.tail := s.desc[s.tail].(w1 := MAX_PACKET)], pc := Republish(left, skb))
    case Republish(left, skb) =>
      s.(desc := s.desc[s.tail := s.desc[s.tail].(w0 := OWNERSHIP)], pc := Bump(left, skb))
    case Bump(left, skb) =>
      var t := Ring.AddAndWrap(s.tail, 1, c.n);
      s.(tail := t, pc := if t == 0 then Rewind(left, skb) else HandUp(left, skb))
    case Rewind(left, skb) => s.(cdp := DescAddr(c, 0), pc := HandUp(left, skb))
    case HandUp(left, skb) =>
      s.(delivered := s.delivered + [skb], pc := Poll(if left > 0 then left - 1 else 0))
    case Reset(stage) => ResetStep(c, s, stage)
  }

  // -------------------------------------------------------------------- device

  predicate CanReceive(c: Config, s: State, slot: nat, page: nat, k: Completion) {
    && slot < |s.desc| && page < |c.dma| && page < |s.buf|
    && s.cdp == c.base + 32 * slot && Own(s.desc[slot]) && s.desc[slot].w2 == c.dma[page]
    && |k.data| == MAX_PACKET && !Bits.Bit(k.w0, 4)
  }

  /** The device fills the buffer of the descriptor at its pointer and follows the chain. */
  function DeviceStep(c: Config, s: State, slot: nat, page: nat, k: Completion): (r: State)
    requires Shape(c, s)
    ensures Shape(c, r)
  {
    if !CanReceive(c, s, slot, page, k) then s
    else
      s.(desc := s.desc[slot := s.desc[slot].(w0 := k.w0, w1 := k.w1)],
         buf := s.buf[page := k.data],
         written := s.written + [k], late := s.late + [s.pc.Look? && slot == s.tail],
         cdp := s.desc[slot].w3)
  }

  /** The device leaves descriptors it does not own alone. */
  lemma DeviceSparesUnowned(c: Config, s: State, slot: nat, page: nat, k: Completion, i: nat)
    requires Shape(c, s) && i < c.n && !Own(s.desc[i])
    ensures DeviceStep(c, s, slot, page, k).desc[i] == s.desc[i]
  {
    hide Bits.Bit;
  }

  // ---------------------------------------------------------------------- runs

  datatype Step = Process(max: nat) | Drive(alloc: bool) | Device(slot: nat, page: nat, k: Completion)

  function Apply(c: Config, s: State, step: Step): (r: State)
    requires Shape(c, s)
    ensures Shape(c, r)
  {
    match step
    case Process(max) => if s.pc.Idle? then s.(pc := Poll(max)) else s
    case Drive(alloc) => DriverStep(c, s, alloc)
    case Device(slot, page, k) => DeviceStep(c, s, slot, page, k)
  }

  function Exec(c: Config, s: State, steps: seq<Step>): (r: State)
    requires Shape(c, s)
    ensures Shape(c, r)
    decreases |steps|
  {
    if steps == [] then s else Apply(c, Exec(c, s, steps[..|steps| - 1]), steps[|steps| - 1])
  }

  lemma ExecOne(c: Config, s: State, steps: seq<Step>, step: Step)
    requires Shape(c, s)
    ensures Exec(c, s, steps + [step]) == Apply(c, Exec(c, s, steps), step)
  {
    assert (steps + [step])[..|steps|] == steps;
  }

  function After(c: Config, buf: seq<seq<Byte>>, steps: seq<Step>): (s: State)
    requires Allocated(c, buf)
    ensures Shape(c, s)
  {
    Exec(c, Init(c, buf), steps)
  }

  lemma AfterOne(c: Config, buf: seq<seq<Byte>>, steps: seq<Step>, step: Step)
    requires Allocated(c, buf)
    ensures After(c, buf, steps + [step]) == Apply(c, After(c, buf, steps), step)
  {
    hide Apply;
    ExecOne(c, Init(c, buf), steps, step);
  }
}
