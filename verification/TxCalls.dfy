/**
 What holds of every call with and without the A0 flag: what its loops run over, which of its branches
 are dead, and what completion takes back.
 */
module TxCalls {

  import opened Descriptors
  import opened Shards
  import opened TxMachine
  import opened TxReturns
  import Chain = TxChain
  import A0 = TxA0
  import Bits
  import Ring

  // ------------------------------------------------------------- the driver's loops

  function Occupied(c: Config, s: State): nat
    requires Shape(c, s)
  {
    Ring.BusyDesc(c.n, s.head, s.tail)
  }

  function Free(c: Config, s: State): nat
    requires Shape(c, s)
  {
    Ring.FreeDesc(c.n, s.head, s.tail)
  }

  /** A packet is on its way into the ring. */
  predicate Underway(pc: Pc) {
    pc.Fill? || pc.Check? || pc.Write? || pc.MarkEop? || pc.Publish? || pc.SetCdp? || pc.Advance?
  }

  /** A packet under way fits the free descriptors; the completion loop's bound is the busy count. */
  ghost predicate Loops(c: Config, s: State)
    requires Shape(c, s)
  {
    && Sane(s.pc)
    && (Underway(s.pc) ==> 0 < |s.pc.pkt| && NumShards(|s.pc.pkt|) <= Free(c, s))
    && (s.pc.Scan? || s.pc.Spin? || s.pc.Settle? ==> s.pc.max - s.pc.iter == Occupied(c, s))
  }

  lemma LoopsBegin(c: Config, s: State, skb: Skb)
    requires Shape(c, s) && s.pc.Idle?
    ensures Loops(c, Begin(c, s, skb))
  {
    hide Own, Err, Ring.BusyDesc, Ring.FreeDesc;
  }

  lemma LoopsEnqueue(c: Config, s: State)
    requires Shape(c, s) && Loops(c, s) && Underway(s.pc)
    ensures Loops(c, DriverStep(c, s))
  {
    hide Own, Err, ShardBuffer, ShardLen, Frames, NumShards, Slot, Sane, Bits.Or, Ring.Wrap, Ring.BusyDesc, Ring.FreeDesc, Ring.AddAndWrap;
    DriverProgress(c, s);
  }

  lemma LoopsCompletion(c: Config, s: State)
    requires Shape(c, s) && Loops(c, s) && !Underway(s.pc)
    ensures Loops(c, DriverStep(c, s))
  {
    hide Own, Err, NumShards, Sane, Ring.Wrap, Ring.BusyDesc, Ring.FreeDesc, Ring.AddAndWrap;
    Ring.BusyStep(c.n, s.head, s.tail);
    if !s.pc.Idle? {
      DriverProgress(c, s);
    }
  }

  lemma LoopsDevice(c: Config, s: State, slot: nat, page: nat, w0: nat)
    requires Shape(c, s) && Loops(c, s)
    ensures Loops(c, DeviceStep(c, s, slot, page, w0))
  {
    hide CanComplete, Wire, Sane;
  }

  lemma LoopsStep(c: Config, s: State, step: Step)
    requires Shape(c, s) && Loops(c, s)
    ensures Loops(c, Apply(c, s, step))
  {
    hide Loops, Begin, DriverStep, DeviceStep;
    match step
    case Xmit(skb) => if s.pc.Idle? { LoopsBegin(c, s, skb); }
    case Device(slot, page, w0) => LoopsDevice(c, s, slot, page, w0);
    case Drive => if Underway(s.pc) { LoopsEnqueue(c, s); } else { LoopsCompletion(c, s); }
  }

  lemma {:induction false} LoopsRun(c: Config, s: State, steps: seq<Step>)
    requires Shape(c, s) && Loops(c, s)
    ensures Loops(c, Exec(c, s, steps))
    decreases |steps|
  {
    hide Apply, Loops;
    if steps != [] {
      LoopsRun(c, s, steps[..|steps| - 1]);
      LoopsStep(c, Exec(c, s, steps[..|steps| - 1]), steps[|steps| - 1]);
    }
  }

  // --------------------------------------------------------- both modes' invariants

  ghost predicate Inv(c: Config, s: State) {
    if c.a0 then A0.Inv(c, s) else Chain.Inv(c, s)
  }

  lemma InvStep(c: Config, s: State, step: Step)
    requires Inv(c, s) && Shape(c, s)
    ensures Inv(c, Apply(c, s, step))
  {
    hide A0.Inv, Chain.Inv, Apply;
    if c.a0 {
      A0.StepInv(c, s, step);
    } else {
      Chain.StepInv(c, s, step);
    }
  }

  lemma Reachable(c: Config, buf: seq<seq<Byte>>, steps: seq<Step>)
    requires Allocated(c, buf)
    ensures Inv(c, After(c, buf, steps)) && Loops(c, After(c, buf, steps))
  {
    hide A0.Inv, Chain.Inv;
    if c.a0 {
      A0.Reachable(c, buf, steps);
    } else {
      Chain.Reachable(c, buf, steps);
    }
    LoopsRun(c, Init(c, buf), steps);
  }

  /**
   Branches of the driver, in every run and for both flags. A packet that passes the length guard
   never needs more shards than there are free descriptors; completion never meets the tail; and the
   space check meets a descriptor the device owns only under the A0 flag, exactly at the shards past
   the first that an earlier packet has used.
   */
  lemma DeadBranches(c: Config, buf: seq<seq<Byte>>, steps: seq<Step>)
    requires Allocated(c, buf)
    ensures var s := After(c, buf, steps);
            && (s.pc.Fill? || s.pc.Check? ==> NumShards(|s.pc.pkt|) <= Free(c, s))
            && (s.pc.Scan? && s.pc.iter < s.pc.max ==> Next(c, s) != s.tail)
            && (s.pc.Check? && s.pc.k < NumShards(|s.pc.pkt|) ==>
                  (Own(s.desc[Slot(c, s, s.pc.k)]) <==> c.a0 && 1 <= s.pc.k < A0.MaxShards(s.accepted)))
  {
    hide After, Inv, NumShards, Own, Ring.BusyDesc, Ring.FreeDesc, Ring.AddAndWrap;
    Reachable(c, buf, steps);
    var s := After(c, buf, steps);
    Ring.BusyStep(c.n, s.head, s.tail);
    if s.pc.Check? && s.pc.k < NumShards(|s.pc.pkt|) {
      CheckedOwned(c, s);
    }
  }

  lemma CheckedOwned(c: Config, s: State)
    requires Inv(c, s) && Shape(c, s) && s.pc.Check? && s.pc.k < NumShards(|s.pc.pkt|)
    ensures Own(s.desc[Slot(c, s, s.pc.k)]) <==> c.a0 && 1 <= s.pc.k < A0.MaxShards(s.accepted)
  {
    hide Chain.Holds, Chain.Final, A0.MaxShards, Own, FrameAt;
    if c.a0 {
      A0.HomeSlot(c, s, s.pc.k);
      assert A0.SlotOk(c, s, s.pc.k);
    } else {
      Chain.SlotNumber(c, s, s.pc.k);
      assert Chain.SlotOk(c, s, Chain.Base(s) + s.pc.k);
    }
  }

  // ----------------------------------------------------------------- completion

  /** Of at most `m` descriptors from slot `i` on, those released without error, up to the first that is not. */
  function Released(c: Config, s: State, i: nat, m: nat): nat
    requires Shape(c, s) && i < c.n
    decreases m
  {
    if m == 0 || Own(s.desc[i]) || Err(s.desc[i]) then 0
    else 1 + Released(c, s, Ring.Wrap(i + 1, c.n), m - 1)
  }

  /** What the completion loop is still going to take back if the device does nothing more. */
  function ToTake(c: Config, s: State): nat
    requires Shape(c, s)
  {
    if s.pc.Complete? || s.pc.Scan? then Released(c, s, Next(c, s), Occupied(c, s))
    else if s.pc.Spin? || s.pc.Settle? then
      (if Own(s.desc[Next(c, s)]) || Occupied(c, s) == 0 then 0
       else 1 + Released(c, s, Ring.Wrap(Next(c, s) + 1, c.n), Occupied(c, s) - 1))
    else 0
  }

  lemma {:induction false} ReleasedSame(c: Config, s: State, t: State, i: nat, m: nat)
    requires Shape(c, s) && Shape(c, t) && t.desc == s.desc && i < c.n
    ensures Released(c, s, i, m) == Released(c, t, i, m)
    decreases m
  {
    if m > 0 {
      ReleasedSame(c, s, t, Ring.Wrap(i + 1, c.n), m - 1);
    }
  }

  /**
   The busy wait, left alone by the device: after 50 looks at a descriptor that stays owned, and not
   before, the loop gives up, takes nothing back and completion ends.
   */
  lemma {:induction false} FiftyLooks(c: Config, s: State, m: nat)
    requires Shape(c, s) && s.pc.Spin? && s.pc.attempt == 0 && Own(s.desc[Next(c, s)])
    ensures var t := Exec(c, s, Drives(m));
            && (m <= 50 ==> t == s.(pc := Spin(s.pc.out, s.pc.iter, s.pc.max, m)))
            && (m == 51 ==> t == s.(pc := Settle(s.pc.out, s.pc.iter, s.pc.max)))
            && (m == 52 ==> t == s.(pc := Finish(s.pc.out)))
    decreases m
  {
    hide Own;
    if m == 0 {
      assert Drives(0) == [];
    } else {
      assert Drives(m) == Drives(m - 1) + [Drive];
      ExecOne(c, s, Drives(m - 1), Drive);
      FiftyLooks(c, s, m - 1);
    }
  }

  /** A step of the loop that takes nothing back. */
  lemma QuietTurn(c: Config, s: State)
    requires Shape(c, s) && Loops(c, s) && (s.pc.Complete? || s.pc.Scan? || s.pc.Spin?)
    ensures var t := DriverStep(c, s);
            && Chain.InCompletion(t.pc) && ToTake(c, t) == ToTake(c, s)
            && t.reclaimed == s.reclaimed && t.tail == s.tail && t.head == s.head
  {
    hide Own, Err, Sane, Ring.Wrap, Ring.BusyDesc, Ring.AddAndWrap;
    var t := DriverStep(c, s);
    Ring.BusyStep(c.n, s.head, s.tail);
    ReleasedSame(c, s, t, Next(c, s), Occupied(c, s));
    if Occupied(c, s) > 0 {
      ReleasedSame(c, s, t, Ring.Wrap(Next(c, s) + 1, c.n), Occupied(c, s) - 1);
    }
  }

  /** The step that takes a descriptor back, or finds it still owned. */
  lemma TakingTurn(c: Config, s: State)
    requires Shape(c, s) && Loops(c, s) && s.pc.Settle?
    ensures var t := DriverStep(c, s);
            && Chain.InCompletion(t.pc) && t.reclaimed >= s.reclaimed
            && t.reclaimed - s.reclaimed + ToTake(c, t) == ToTake(c, s)
            && t.tail == s.tail && t.head == (if t.reclaimed == s.reclaimed then s.head else Next(c, s))
            && t.reclaimed <= s.reclaimed + 1
  {
    hide Own, Err, Ring.Wrap, Ring.BusyDesc, Ring.AddAndWrap;
    var t := DriverStep(c, s);
    Ring.BusyStep(c.n, s.head, s.tail);
    if t.reclaimed > s.reclaimed {
      assert Next(c, t) == Ring.Wrap(Next(c, s) + 1, c.n);
      assert Occupied(c, t) == Occupied(c, s) - 1;
      ReleasedSame(c, s, t, Next(c, t), Occupied(c, t));
    }
  }

  lemma CompletionTurn(c: Config, s: State)
    requires Shape(c, s) && Loops(c, s) && Chain.InCompletion(s.pc) && !s.pc.Idle? && !s.pc.Finish?
    ensures var t := DriverStep(c, s);
            && Chain.InCompletion(t.pc) && !t.pc.Idle? && t.reclaimed >= s.reclaimed
            && t.reclaimed - s.reclaimed + ToTake(c, t) == ToTake(c, s)
            && t.head == Ring.Wrap(s.head + (t.reclaimed - s.reclaimed), c.n)
  {
    hide Own, Err, Loops, Released, Ring.BusyDesc;
    if s.pc.Settle? {
      TakingTurn(c, s);
    } else {
      QuietTurn(c, s);
    }
  }

  lemma LastTurn(c: Config, s: State)
    requires Shape(c, s) && s.pc.Finish?
    ensures var t := Exec(c, s, Drives(1));
            t.pc.Idle? && t.reclaimed == s.reclaimed && t.head == if c.a0 then c.n - 1 else Ring.Wrap(s.head, c.n)
  {
    assert Drives(1) == [] + [Drive];
    ExecOne(c, s, [], Drive);
  }

  /**
   Left alone, xpnet_tx_complete takes back exactly the descriptors found released without error, from
   the one behind the head up to the first that is not, and no more than were busy. Without the A0 flag
   the head ends up past them; with it head and tail start over.
   */
  lemma {:induction false} CompletionTakesBackReleased(c: Config, s: State) returns (m: nat)
    requires Shape(c, s) && Loops(c, s) && Chain.InCompletion(s.pc) && !s.pc.Idle?
    ensures var t := Exec(c, s, Drives(m));
            && t.pc.Idle? && t.reclaimed == s.reclaimed + ToTake(c, s)
            && t.head == (if c.a0 then c.n - 1 else Ring.Wrap(s.head + ToTake(c, s), c.n))
    decreases Rank(c, s.pc)
  {
    hide DriverStep, Released, Sane, Ring.Wrap, Rank;
    if s.pc.Finish? {
      m := 1;
      LastTurn(c, s);
    } else {
      DriverProgress(c, s);
      CompletionTurn(c, s);
      LoopsStep(c, s, Drive);
      var t := DriverStep(c, s);
      var k := CompletionTakesBackReleased(c, t);
      Ring.WrapAdd(s.head + (t.reclaimed - s.reclaimed), ToTake(c, t), c.n);
      m := k + 1;
      assert Drives(m) == [Drive] + Drives(k);
      ExecFirst(c, s, Drive, Drives(k));
    }
  }
}
