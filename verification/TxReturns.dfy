/**
 A transmit always returns: whatever the device does in between, a bounded number of the driver's
 own steps leads back to an idle driver.
 */
module TxReturns {

  import opened Descriptors
  import opened Shards
  import opened TxMachine

  function Drives(m: nat): seq<Step> { seq(m, _ => Drive) }

  /** Steps within one call: no new packet is offered. */
  ghost predicate InCall(steps: seq<Step>) {
    forall i :: 0 <= i < |steps| ==> !steps[i].Xmit?
  }

  /** The driver's steps among them. */
  function DriveCount(steps: seq<Step>): nat
    decreases |steps|
  {
    if steps == [] then 0
    else DriveCount(steps[..|steps| - 1]) + if steps[|steps| - 1].Drive? then 1 else 0
  }

  /** Counters of the driver's loops within their bounds. */
  predicate Sane(pc: Pc) {
    match pc
    case Fill(p, k) => k <= NumShards(|p|)
    case Check(p, k) => k <= NumShards(|p|)
    case Write(p, k, word) => k <= NumShards(|p|) && word <= 2
    case Scan(_, iter, max) => iter <= max
    case Spin(_, iter, max, attempt) => iter < max && attempt <= MAX_ATTEMPTS
    case Settle(_, iter, max) => iter < max
    case _ => true
  }

  /** Steps of one turn of the completion loop: the look, 50 waits, the verdict. */
  const TURN: nat := MAX_ATTEMPTS + 4

  /** An upper bound on the driver steps left in the call. */
  function Rank(c: Config, pc: Pc): int {
    match pc
    case Idle(_) => 0
    case Finish(_) => 1
    case Settle(_, iter, max) => 3 + TURN * (max - iter - 1)
    case Spin(_, iter, max, attempt) => 4 + TURN * (max - iter - 1) + (MAX_ATTEMPTS - attempt)
    case Scan(_, iter, max) => 2 + TURN * (max - iter)
    case Complete(_) => 3 + TURN * c.n
    case Advance(_) => 4 + TURN * c.n
    case SetCdp(_) => 5 + TURN * c.n
    case Publish(_) => 6 + TURN * c.n
    case MarkEop(_) => 7 + TURN * c.n
    case Write(p, k, word) => 8 + TURN * c.n + 4 * (NumShards(|p|) - k) + word
    case Check(p, k) => 11 + TURN * c.n + 5 * NumShards(|p|) - k
    case Fill(p, k) => 12 + TURN * c.n + 6 * NumShards(|p|) - k
  }

  lemma EnqueueProgress(c: Config, s: State)
    requires Shape(c, s) && Sane(s.pc) && (s.pc.Fill? || s.pc.Check? || s.pc.Write?)
    ensures var pc := DriverStep(c, s).pc; Sane(pc) && 0 <= Rank(c, pc) < Rank(c, s.pc)
  {
    hide Own, Err, ShardBuffer, NumShards, Slot;
  }

  lemma CompletionProgress(c: Config, s: State)
    requires Shape(c, s) && Sane(s.pc) && (s.pc.Scan? || s.pc.Spin? || s.pc.Settle?)
    ensures var pc := DriverStep(c, s).pc; Sane(pc) && 0 <= Rank(c, pc) < Rank(c, s.pc)
  {
    hide Own, Err, NumShards, Next, ValidConfig;
  }

  /** Every driver step brings the end of the call nearer. */
  lemma DriverProgress(c: Config, s: State)
    requires Shape(c, s) && Sane(s.pc) && !s.pc.Idle?
    ensures var pc := DriverStep(c, s).pc; Sane(pc) && 0 <= Rank(c, pc) < Rank(c, s.pc)
  {
    hide NumShards, Slot, FillStep, CheckStep, WriteStep, ScanStep, SpinStep, SettleStep;
    if s.pc.Fill? || s.pc.Check? || s.pc.Write? {
      EnqueueProgress(c, s);
    } else if s.pc.Scan? || s.pc.Spin? || s.pc.Settle? {
      CompletionProgress(c, s);
    }
  }

  lemma DeviceKeepsPc(c: Config, s: State, slot: nat, page: nat, w0: nat)
    requires Shape(c, s)
    ensures DeviceStep(c, s, slot, page, w0).pc == s.pc
  {
  }

  /**
   In every interleaving with the device, a call is over once the driver has made as many steps as
   its rank says; the driver cannot be kept from returning.
   */
  lemma {:induction false} CallReturns(c: Config, s: State, steps: seq<Step>)
    requires Shape(c, s) && Sane(s.pc) && InCall(steps)
    ensures var pc := Exec(c, s, steps).pc;
            && Sane(pc) && 0 <= Rank(c, pc)
            && (pc.Idle? || Rank(c, pc) + DriveCount(steps) <= Rank(c, s.pc))
            && (DriveCount(steps) >= Rank(c, s.pc) ==> pc.Idle?)
    decreases |steps|
  {
    hide DriverStep, DeviceStep, NumShards;
    if steps != [] {
      var most, last := steps[..|steps| - 1], steps[|steps| - 1];
      CallReturns(c, s, most);
      var m := Exec(c, s, most);
      if last.Device? {
        DeviceKeepsPc(c, m, last.slot, last.page, last.w0);
      } else if !m.pc.Idle? {
        DriverProgress(c, m);
      } else {
        IdleStays(c, m);
      }
    }
    RankPositive(c, Exec(c, s, steps).pc);
  }

  lemma IdleStays(c: Config, s: State)
    requires Shape(c, s) && s.pc.Idle?
    ensures DriverStep(c, s) == s
  {
  }

  lemma RankPositive(c: Config, pc: Pc)
    requires Sane(pc)
    ensures if pc.Idle? then Rank(c, pc) == 0 else Rank(c, pc) > 0
  {
  }

  lemma {:induction false} DrivesCount(m: nat)
    ensures DriveCount(Drives(m)) == m
  {
    if m > 0 {
      assert Drives(m)[..m - 1] == Drives(m - 1);
      DrivesCount(m - 1);
    }
  }

  /** Left alone by the device, the driver returns after finitely many of its own steps. */
  lemma AloneReturns(c: Config, s: State) returns (m: nat)
    requires Shape(c, s) && Sane(s.pc)
    ensures Exec(c, s, Drives(m)).pc.Idle?
  {
    RankPositive(c, s.pc);
    m := Rank(c, s.pc);
    DrivesCount(m);
    CallReturns(c, s, Drives(m));
  }

  lemma {:induction false} ExecFirst(c: Config, s: State, step: Step, rest: seq<Step>)
    requires Shape(c, s)
    ensures Exec(c, s, [step] + rest) == Exec(c, Apply(c, s, step), rest)
    decreases |rest|
  {
    hide Apply;
    if rest == [] {
      assert [step] + rest == [] + [step];
      ExecOne(c, s, [], step);
    } else {
      var n := |rest| - 1;
      ExecFirst(c, s, step, rest[..n]);
      assert ([step] + rest)[..n + 1] == [step] + rest[..n];
    }
  }

  lemma {:induction false} ExecConcat(c: Config, s: State, a: seq<Step>, b: seq<Step>)
    requires Shape(c, s)
    ensures Exec(c, s, a + b) == Exec(c, Exec(c, s, a), b)
    decreases |b|
  {
    hide Apply;
    if b == [] {
      assert a + b == a;
    } else {
      var n := |b| - 1;
      ExecConcat(c, s, a, b[..n]);
      assert (a + b)[..|a| + n] == a + b[..n];
    }
  }
}
