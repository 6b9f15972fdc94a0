/**
 Transmit without the A0 flag: the descriptors are chained once, from slot 0 to a null
 pointer behind the last one, and the device walks the chain on its own.

 Descriptors are numbered without wrapping: number `a` lives in slot `Wrap(a, n)`. The driver
 has taken back the numbers below `reclaimed`, the device has sent those below `|wire|`, and
 those below `|log|` have been published.
 */
module TxChain {

  import opened Descriptors
  import opened Shards
  import opened TxMachine
  import Bits
  import Ring

  /** Number of the descriptor at the tail: a published packet is passed only by Advance. */
  function Base(s: State): int {
    |s.log| - (if s.pc.Advance? then NumShards(|s.pc.pkt|) else 0)
  }

  /** Shards of the packet under way, reserved from the tail on. */
  function Reserved(pc: Pc): nat {
    if pc.Fill? || pc.Check? || pc.Write? || pc.MarkEop? || pc.Publish? || pc.Advance?
    then NumShards(|pc.pkt|) else 0
  }

  /** What a slot is good for. */
  datatype Role =
    | Vacant                        // the driver's
    | InFlight(frame: Frame)        // published, not yet sent
    | Staging(pkt: seq<Byte>, m: nat, filled: bool, words: nat, eop: bool)
        // shard m of the packet being enqueued: buffer copied, words written, EOP marked

  /** The part the program counter gives to the m-th slot from the tail. */
  function Stage(pc: Pc, m: nat): Role {
    match pc
    case Fill(p, k) => if m < NumShards(|p|) then Staging(p, m, m < k, 0, false) else Vacant
    case Check(p, k) => if m < NumShards(|p|) then Staging(p, m, true, 0, false) else Vacant
    case Write(p, k, word) =>
      if m < NumShards(|p|)
      then Staging(p, m, true, if m < k then 3 else if m == k && word <= 2 then 2 - word else 0, false)
      else Vacant
    case MarkEop(p) => if m < NumShards(|p|) then Staging(p, m, true, 3, false) else Vacant
    case Publish(p) => if m < NumShards(|p|) then Staging(p, m, true, 3, m == NumShards(|p|) - 1) else Vacant
    case _ => Vacant
  }

  function RoleOf(s: State, a: nat): Role {
    if |s.wire| <= a < |s.log| then InFlight(s.log[a])
    else if Base(s) <= a then Stage(s.pc, a - Base(s))
    else Vacant
  }

  function FlagWord(f: Frame): nat {
    OWNERSHIP + (if f.sop then SOP else 0) + (if f.eop then EOP else 0)
  }

  /** The flag word of shard `m` once written and before its packet is published. */
  function StagedWord(m: nat, eop: bool): nat {
    (if m == 0 then SOP else OWNERSHIP) + (if eop then EOP else 0)
  }

  /** Buffer `b` of recorded length `len` holds shard `m` of `p`. */
  ghost predicate Holds(c: Config, b: seq<Byte>, len: nat, p: seq<Byte>, m: nat)
    requires |b| == SEGMENT && m < NumShards(|p|)
  {
    len == ShardLen(|p|, m) && Wire(b, len, c.swap) == FrameData(p, m)
  }

  /** Descriptor `d` and buffer `b` of slot `i` fit the role. */
  ghost predicate Fits(c: Config, i: nat, d: Desc, b: seq<Byte>, len: nat, role: Role)
    requires ValidConfig(c) && i < c.n && |b| == SEGMENT
  {
    match role
    case Vacant => !Own(d)
    case InFlight(f) => Final(c, i, d, b, f)
    case Staging(p, m, filled, words, eop) =>
      && m < NumShards(|p|)
      && (filled ==> Holds(c, b, len, p, m))
      && (words >= 1 ==> d.w2 == c.dma[i])
      && (words >= 2 ==> d.w1 == len)
      && (if words >= 3 then d.w0 == StagedWord(m, eop) else !Own(d))
  }

  /** A complete descriptor, owned by the device, for frame `f`. */
  ghost predicate Final(c: Config, i: nat, d: Desc, b: seq<Byte>, f: Frame)
    requires ValidConfig(c) && i < c.n && |b| == SEGMENT
  {
    && d.w0 == FlagWord(f) && d.w1 == |f.data| && d.w2 == c.dma[i]
    && 1 <= |f.data| <= SEGMENT && Wire(b, |f.data|, c.swap) == f.data
  }

  ghost predicate SlotOk(c: Config, s: State, a: nat)
    requires Shape(c, s)
  {
    var i := Ring.Wrap(a, c.n);
    Fits(c, i, s.desc[i], s.buf[i], s.blen[i], RoleOf(s, a))
  }

  /** Local consistency of the program counter. */
  ghost predicate PcOk(s: State) {
    match s.pc
    case Fill(p, k) => 0 < |p| && k <= NumShards(|p|)
    case Check(p, k) => 0 < |p| && k <= NumShards(|p|)
    case Write(p, k, word) => 0 < |p| && k <= NumShards(|p|) && word <= 2 && (k == NumShards(|p|) ==> word == 2)
    case MarkEop(p) => 0 < |p|
    case Publish(p) => 0 < |p|
    case SetCdp(_) => false
    case Advance(p) => 0 < |p|
    case Scan(_, iter, max) => iter <= max && max - iter == Base(s) - s.reclaimed
    case Spin(_, iter, max, _) => iter < max && max - iter == Base(s) - s.reclaimed
    case Settle(_, iter, max) => iter < max && max - iter == Base(s) - s.reclaimed
    case _ => true
  }

  ghost predicate Counters(c: Config, s: State)
    requires Shape(c, s)
  {
    && s.reclaimed <= |s.wire| <= |s.log| && |s.wire| <= c.n
    && s.reclaimed <= Base(s) && Base(s) + Reserved(s.pc) <= s.reclaimed + c.n - 1
    && s.head == Ring.Wrap(s.reclaimed + c.n - 1, c.n) && s.tail == Ring.Wrap(Base(s), c.n)
  }

  /** The device follows the chain: it has sent a prefix of what was published. */
  ghost predicate Progress(c: Config, s: State)
    requires Shape(c, s)
  {
    && (forall i :: 0 <= i < c.n ==> s.desc[i].w3 == if i + 1 < c.n then DescAddr(c, i + 1) else 0)
    && s.cdp == (if |s.wire| < c.n then DescAddr(c, |s.wire|) else 0)
    && |s.wire| <= |s.log| && s.wire == s.log[..|s.wire|]
  }

  ghost predicate History(s: State) {
    && (forall i :: 0 <= i < |s.accepted| ==> |s.accepted[i]| > 0)
    && s.log == AllFrames(s.accepted)
  }

  /** Everything but the slots. */
  ghost predicate Globals(c: Config, s: State) {
    Shape(c, s) && !c.a0 && PcOk(s) && Counters(c, s) && Progress(c, s) && History(s)
  }

  ghost predicate Inv(c: Config, s: State) {
    && Globals(c, s)
    && forall a :: s.reclaimed <= a < s.reclaimed + c.n ==> SlotOk(c, s, a)
  }

  // ----------------------------------------------------- the invariant, step by step

  lemma SlotNumber(c: Config, s: State, k: nat)
    requires Shape(c, s) && Counters(c, s)
    ensures Slot(c, s, k) == Ring.Wrap(Base(s) + k, c.n)
  {
    Ring.WrapAdd(Base(s), k, c.n);
  }

  lemma InitInv(c: Config, buf: seq<seq<Byte>>)
    requires Allocated(c, buf) && !c.a0
    ensures Inv(c, Init(c, buf))
  {
    var s := Init(c, buf);
    assert Bits.Shr(0, 4) == 0;
    assert forall a :: 0 <= a < c.n ==> !Own(s.desc[a]);
  }

  lemma BeginGlobals(c: Config, s: State, skb: Skb)
    requires Globals(c, s) && s.pc.Idle?
    ensures Globals(c, Begin(c, s, skb))
  {
    Ring.BusyCount(c.n, s.reclaimed, Base(s));
  }

  lemma BeginSlot(c: Config, s: State, skb: Skb, a: nat)
    requires Shape(c, s) && s.pc.Idle? && SlotOk(c, s, a)
    ensures SlotOk(c, Begin(c, s, skb), a)
  {
  }

  lemma FillSlot(c: Config, s: State, p: seq<Byte>, k: nat, a: nat)
    requires Shape(c, s) && Counters(c, s) && s.pc == Fill(p, k)
    requires s.reclaimed <= a < s.reclaimed + c.n && SlotOk(c, s, a)
    ensures SlotOk(c, FillStep(c, s, p, k), a)
  {
    hide Wire, FrameData, ShardLen, ShardBuffer, NumShards, Final, Own;
    if k < NumShards(|p|) {
      SlotNumber(c, s, k);
      var x := Base(s) + k;
      if a == x {
        WireOfShard(s.buf[Ring.Wrap(x, c.n)], p, k, c.swap);
      } else {
        Ring.Apart(c.n, s.reclaimed, x, a);
      }
    }
  }

  lemma CheckSlot(c: Config, s: State, p: seq<Byte>, k: nat, a: nat)
    requires Shape(c, s) && s.pc == Check(p, k) && SlotOk(c, s, a)
    ensures SlotOk(c, CheckStep(c, s, p, k), a)
  {
    hide Wire, FrameData, ShardLen, NumShards;
  }

  lemma WriteSlot(c: Config, s: State, p: seq<Byte>, k: nat, word: nat, a: nat)
    requires Shape(c, s) && Counters(c, s) && PcOk(s) && s.pc == Write(p, k, word)
    requires s.reclaimed <= a < s.reclaimed + c.n && SlotOk(c, s, a)
    ensures SlotOk(c, WriteStep(c, s, p, k, word), a)
  {
    hide Holds, Final, NumShards, Bits.Bit;
    var t := WriteStep(c, s, p, k, word);
    var i := Ring.Wrap(a, c.n);
    if k < NumShards(|p|) {
      SlotNumber(c, s, k);
      var x := Base(s) + k;
      if a == x {
        WriteHere(c, s, p, k, word);
      } else {
        Ring.Apart(c.n, s.reclaimed, x, a);
        assert t.desc[i] == s.desc[i];
        assert RoleOf(t, a) == RoleOf(s, a);
      }
    }
  }

  lemma WriteHere(c: Config, s: State, p: seq<Byte>, k: nat, word: nat)
    requires Shape(c, s) && Counters(c, s) && PcOk(s) && s.pc == Write(p, k, word) && k < NumShards(|p|)
    requires SlotOk(c, s, Base(s) + k)
    ensures SlotOk(c, WriteStep(c, s, p, k, word), Base(s) + k)
  {
    hide Holds, Final, NumShards, Bits.Bit;
    var t := WriteStep(c, s, p, k, word);
    var x := Base(s) + k;
    SlotNumber(c, s, k);
    assert RoleOf(s, x) == Staging(p, k, true, 2 - word, false);
    assert RoleOf(t, x) == Staging(p, k, true, 3 - word, false);
    if k > 0 {
      Ring.Apart(c.n, s.reclaimed, Base(s), x);
    }
  }

  lemma LastSlot(c: Config, s: State, p: seq<Byte>)
    requires Shape(c, s) && Counters(c, s) && 0 < |p|
    ensures Slot(c, s, NumShards(|p|) + c.n - 1) == Ring.Wrap(Base(s) + NumShards(|p|) - 1, c.n)
  {
    var x := Base(s) + NumShards(|p|) - 1;
    SlotNumber(c, s, NumShards(|p|) + c.n - 1);
    assert Ring.Wrap(x + c.n, c.n) == Ring.Wrap(x, c.n);
  }

  lemma SomeShard(p: seq<Byte>)
    requires 0 < |p|
    ensures NumShards(|p|) >= 1
  {
  }

  lemma MarkedWord(m: nat)
    ensures Bits.Or(StagedWord(m, false), EOP) == StagedWord(m, true)
  {
    Bits.FlagWords();
  }

  lemma MarkEopSlot(c: Config, s: State, p: seq<Byte>, a: nat)
    requires Shape(c, s) && Counters(c, s) && PcOk(s) && s.pc == MarkEop(p)
    requires s.reclaimed <= a < s.reclaimed + c.n && SlotOk(c, s, a)
    ensures SlotOk(c, MarkEopStep(c, s, p), a)
  {
    hide *;
    if a == Base(s) + NumShards(|p|) - 1 {
      MarkEopHere(c, s, p, a);
    } else {
      MarkEopElsewhere(c, s, p, a);
    }
  }

  lemma MarkEopElsewhere(c: Config, s: State, p: seq<Byte>, a: nat)
    requires Shape(c, s) && Counters(c, s) && PcOk(s) && s.pc == MarkEop(p)
    requires s.reclaimed <= a < s.reclaimed + c.n && SlotOk(c, s, a)
    requires a != Base(s) + NumShards(|p|) - 1
    ensures SlotOk(c, MarkEopStep(c, s, p), a)
  {
    SomeShard(p);
    hide Fits, NumShards, Bits.Or, Ring.Wrap;
    LastSlot(c, s, p);
    Ring.Apart(c.n, s.reclaimed, Base(s) + NumShards(|p|) - 1, a);
    assert RoleOf(MarkEopStep(c, s, p), a) == RoleOf(s, a);
  }

  lemma MarkEopHere(c: Config, s: State, p: seq<Byte>, a: nat)
    requires Shape(c, s) && Counters(c, s) && PcOk(s) && s.pc == MarkEop(p)
    requires a == Base(s) + NumShards(|p|) - 1 && SlotOk(c, s, a)
    ensures SlotOk(c, MarkEopStep(c, s, p), a)
  {
    SomeShard(p);
    hide Holds, Final, NumShards, StagedWord, Bits.Bit, Bits.Or, Ring.Wrap;
    var m := NumShards(|p|) - 1;
    LastSlot(c, s, p);
    MarkedWord(m);
    assert RoleOf(s, a) == Staging(p, m, true, 3, false);
    assert RoleOf(MarkEopStep(c, s, p), a) == Staging(p, m, true, 3, true);
  }

  lemma PublishSlot(c: Config, s: State, p: seq<Byte>, a: nat)
    requires Shape(c, s) && Counters(c, s) && PcOk(s) && s.pc == Publish(p) && !c.a0
    requires s.reclaimed <= a < s.reclaimed + c.n && SlotOk(c, s, a)
    ensures SlotOk(c, PublishStep(c, s, p), a)
  {
    hide Wire, FrameData, ShardLen, Bits.Bit;
    var t := PublishStep(c, s, p);
    Bits.FlagWords();
    if |s.log| <= a < |t.log| {
      assert t.log[a] == FrameAt(p, a - Base(s));
    }
    if a != Base(s) {
      Ring.Apart(c.n, s.reclaimed, Base(s), a);
    }
  }

  lemma AdvanceSlot(c: Config, s: State, p: seq<Byte>, a: nat)
    requires Shape(c, s) && Counters(c, s) && s.pc == Advance(p)
    requires s.reclaimed <= a < s.reclaimed + c.n && SlotOk(c, s, a)
    ensures SlotOk(c, AdvanceStep(c, s, p), a)
  {
    hide Wire, FrameData, ShardLen, NumShards, Bits.Bit;
  }

  /** Steps that only move the program counter through the completion loop. */
  predicate InCompletion(pc: Pc) {
    pc.Idle? || pc.Complete? || pc.Scan? || pc.Spin? || pc.Settle? || pc.Finish?
  }

  lemma CompletionSlot(c: Config, s: State, a: nat)
    requires Shape(c, s) && PcOk(s) && InCompletion(s.pc) && !s.pc.Settle? && !c.a0 && SlotOk(c, s, a)
    ensures SlotOk(c, DriverStep(c, s), a) && DriverStep(c, s).reclaimed == s.reclaimed
  {
    hide Final, Own, Err;
  }

  lemma SettleSlot(c: Config, s: State, out: Outcome, iter: nat, max: nat, a: nat)
    requires Inv(c, s) && s.pc == Settle(out, iter, max)
    requires var t := SettleStep(c, s, out, iter, max); t.reclaimed <= a < t.reclaimed + c.n
    ensures SlotOk(c, SettleStep(c, s, out, iter, max), a)
  {
    hide Final, Bits.Bit;
    if a == s.reclaimed + c.n {
      NextNumber(c, s);
      assert Ring.Wrap(a, c.n) == Ring.Wrap(s.reclaimed, c.n);
      assert SlotOk(c, s, s.reclaimed);
    } else {
      assert SlotOk(c, s, a);
    }
  }

  /** The descriptor completion looks at is the oldest one not taken back. */
  lemma NextNumber(c: Config, s: State)
    requires Shape(c, s) && Counters(c, s)
    ensures Next(c, s) == Ring.Wrap(s.reclaimed, c.n)
    ensures s.reclaimed < Base(s) ==> Next(c, s) != s.tail
    ensures Ring.Wrap(s.reclaimed, c.n) == Ring.Wrap(s.reclaimed + 1 + c.n - 1, c.n)
  {
    Ring.WrapAdd(s.reclaimed + c.n - 1, 1, c.n);
    assert Ring.Wrap(s.reclaimed + c.n, c.n) == Ring.Wrap(s.reclaimed, c.n);
    if s.reclaimed < Base(s) {
      Ring.Apart(c.n, s.reclaimed, s.reclaimed, Base(s));
    }
  }

  /** A descriptor that completion finds released has been sent. */
  lemma SettledWasSent(c: Config, s: State)
    requires Inv(c, s) && s.pc.Settle? && !Own(s.desc[Next(c, s)])
    ensures s.reclaimed < |s.wire|
  {
    hide Bits.Bit;
    NextNumber(c, s);
    assert SlotOk(c, s, s.reclaimed);
    if |s.wire| <= s.reclaimed {
      FlagBits(s.log[s.reclaimed]);
    }
  }

  lemma FlagBits(f: Frame)
    ensures Bits.Bit(FlagWord(f), 4)
    ensures Bits.Bit(FlagWord(f), 3) == f.sop && Bits.Bit(FlagWord(f), 2) == f.eop
  {
    Bits.FlagBits();
  }

  lemma EnqueueGlobals(c: Config, s: State)
    requires Globals(c, s) && (s.pc.Fill? || s.pc.Check? || s.pc.Write? || s.pc.MarkEop?)
    ensures Globals(c, DriverStep(c, s)) && DriverStep(c, s).reclaimed == s.reclaimed
  {
    hide Own, Err, ShardBuffer, AllFrames, NumShards, Ring.Wrap;
  }

  lemma PublishGlobals(c: Config, s: State)
    requires Globals(c, s) && (s.pc.Publish? || s.pc.Advance?)
    ensures Globals(c, DriverStep(c, s)) && DriverStep(c, s).reclaimed == s.reclaimed
  {
    hide Bits.Or, Frames, Ring.Wrap, AllFrames;
    if s.pc.Publish? {
      AllFramesAppend(s.accepted, s.pc.pkt);
      FramesCount(s.pc.pkt);
    } else {
      SlotNumber(c, s, NumShards(|s.pc.pkt|));
    }
  }

  lemma FramesCount(p: seq<Byte>)
    ensures |Frames(p)| == NumShards(|p|)
  {
  }

  lemma SettleGlobals(c: Config, s: State, out: Outcome, iter: nat, max: nat)
    requires Inv(c, s) && s.pc == Settle(out, iter, max)
    ensures Globals(c, SettleStep(c, s, out, iter, max))
  {
    hide Own, AllFrames, SlotOk, Ring.Wrap;
    NextNumber(c, s);
    if !Own(s.desc[Next(c, s)]) {
      SettledWasSent(c, s);
    }
  }

  /** Moving only the program counter keeps the globals, given that it stays consistent. */
  lemma PcOnly(c: Config, s: State, pc: Pc)
    requires Globals(c, s) && InCompletion(s.pc) && InCompletion(pc) && PcOk(s.(pc := pc))
    ensures Globals(c, s.(pc := pc))
  {
    hide AllFrames, Ring.Wrap;
  }

  lemma CompletionGlobals(c: Config, s: State)
    requires Inv(c, s) && InCompletion(s.pc)
    ensures Globals(c, DriverStep(c, s))
  {
    hide Own, Err, SlotOk, SettleStep, Progress, History, Ring.Wrap;
    if s.pc.Settle? {
      SettleGlobals(c, s, s.pc.out, s.pc.iter, s.pc.max);
    } else {
      if s.pc.Complete? {
        Ring.BusyCount(c.n, s.reclaimed, Base(s));
      } else if s.pc.Scan? {
        NextNumber(c, s);
      }
      PcOnly(c, s, DriverStep(c, s).pc);
    }
  }

  /** The device can only complete the oldest published descriptor it has not sent. */
  lemma DeviceTarget(c: Config, s: State, slot: nat, page: nat, w0: nat)
    requires Inv(c, s) && CanComplete(c, s, slot, page, w0)
    ensures slot == page == |s.wire| < |s.log|
    ensures s.desc[slot].w0 == FlagWord(s.log[slot]) && Final(c, slot, s.desc[slot], s.buf[slot], s.log[slot])
  {
    hide Wire, FrameData, ShardLen, ShardBuffer, Bits.Bit;
    var x := |s.wire|;
    assert slot == x && Ring.Wrap(x, c.n) == x;
    assert SlotOk(c, s, x);
    if x == |s.log| {
      Bits.FlagBits();
    }
  }

  lemma DeviceGlobals(c: Config, s: State, slot: nat, page: nat, w0: nat)
    requires Inv(c, s)
    ensures Globals(c, DeviceStep(c, s, slot, page, w0))
  {
    hide FrameData, ShardLen, ShardBuffer, Bits.Bit, SlotOk;
    if CanComplete(c, s, slot, page, w0) {
      DeviceTarget(c, s, slot, page, w0);
      FlagBits(s.log[slot]);
      var t := DeviceStep(c, s, slot, page, w0);
      assert t.wire == t.log[..slot + 1];
    }
  }

  lemma DeviceSlot(c: Config, s: State, slot: nat, page: nat, w0: nat, a: nat)
    requires Inv(c, s) && s.reclaimed <= a < s.reclaimed + c.n
    ensures SlotOk(c, DeviceStep(c, s, slot, page, w0), a)
  {
    hide Wire, FrameData, ShardLen, ShardBuffer, Bits.Bit;
    assert SlotOk(c, s, a);
    if CanComplete(c, s, slot, page, w0) {
      DeviceTarget(c, s, slot, page, w0);
      assert Ring.Wrap(slot, c.n) == slot;
      if a != slot {
        Ring.Apart(c.n, s.reclaimed, slot, a);
      }
    }
  }

  lemma DriverGlobals(c: Config, s: State)
    requires Inv(c, s)
    ensures Globals(c, DriverStep(c, s))
    ensures !InCompletion(s.pc) ==> DriverStep(c, s).reclaimed == s.reclaimed
  {
    hide DriverStep, SlotOk, Counters, Progress, History;
    if InCompletion(s.pc) {
      CompletionGlobals(c, s);
    } else if s.pc.Publish? || s.pc.Advance? {
      PublishGlobals(c, s);
    } else {
      EnqueueGlobals(c, s);
    }
  }

  lemma DriverSlot(c: Config, s: State, a: nat)
    requires Inv(c, s)
    requires var t := DriverStep(c, s); t.reclaimed <= a < t.reclaimed + c.n
    ensures SlotOk(c, DriverStep(c, s), a)
  {
    hide SlotOk, SettleStep, FillStep, CheckStep, WriteStep, MarkEopStep, PublishStep, AdvanceStep;
    DriverGlobals(c, s);
    if s.pc.Settle? {
      SettleSlot(c, s, s.pc.out, s.pc.iter, s.pc.max, a);
    } else if InCompletion(s.pc) {
      CompletionSlot(c, s, a);
    } else {
      assert SlotOk(c, s, a);
      match s.pc
      case Fill(p, k) => FillSlot(c, s, p, k, a);
      case Check(p, k) => CheckSlot(c, s, p, k, a);
      case Write(p, k, word) => WriteSlot(c, s, p, k, word, a);
      case MarkEop(p) => MarkEopSlot(c, s, p, a);
      case Publish(p) => PublishSlot(c, s, p, a);
      case Advance(p) => AdvanceSlot(c, s, p, a);
    }
  }

  lemma StepInv(c: Config, s: State, step: Step)
    requires Inv(c, s)
    ensures Inv(c, Apply(c, s, step))
  {
    hide SlotOk, Begin, DriverStep, DeviceStep, Counters, Progress, History, PcOk;
    match step
    case Xmit(skb) =>
      if s.pc.Idle? {
        BeginGlobals(c, s, skb);
        BeginKeepsCount(c, s, skb);
        forall a | s.reclaimed <= a < s.reclaimed + c.n
          ensures SlotOk(c, Begin(c, s, skb), a)
        {
          BeginSlot(c, s, skb, a);
        }
      }
    case Drive =>
      DriverGlobals(c, s);
      var t := DriverStep(c, s);
      forall a | t.reclaimed <= a < t.reclaimed + c.n
        ensures SlotOk(c, t, a)
      {
        DriverSlot(c, s, a);
      }
    case Device(slot, page, w0) =>
      DeviceGlobals(c, s, slot, page, w0);
      var t := DeviceStep(c, s, slot, page, w0);
      DeviceKeepsCount(c, s, slot, page, w0);
      forall a | t.reclaimed <= a < t.reclaimed + c.n
        ensures SlotOk(c, t, a)
      {
        DeviceSlot(c, s, slot, page, w0, a);
      }
  }

  lemma BeginKeepsCount(c: Config, s: State, skb: Skb)
    requires Shape(c, s)
    ensures Begin(c, s, skb).reclaimed == s.reclaimed
  {
  }

  lemma DeviceKeepsCount(c: Config, s: State, slot: nat, page: nat, w0: nat)
    requires Shape(c, s)
    ensures DeviceStep(c, s, slot, page, w0).reclaimed == s.reclaimed
  {
  }

  /** The invariant holds after every run of transmits, completions and device steps. */
  lemma {:induction false} RunInv(c: Config, s: State, steps: seq<Step>)
    requires Inv(c, s)
    ensures Inv(c, Exec(c, s, steps))
    decreases |steps|
  {
    hide Apply, SlotOk, Counters, Progress, History, PcOk;
    if steps != [] {
      RunInv(c, s, steps[..|steps| - 1]);
      StepInv(c, Exec(c, s, steps[..|steps| - 1]), steps[|steps| - 1]);
    }
  }

  /** Every run from a fresh queue, whatever its buffers held. */
  lemma Reachable(c: Config, buf: seq<seq<Byte>>, steps: seq<Step>)
    requires Allocated(c, buf) && !c.a0
    ensures Inv(c, After(c, buf, steps))
  {
    hide Inv;
    InitInv(c, buf);
    RunInv(c, Init(c, buf), steps);
  }
}
