/** The trap table: reason code to trap id to configuration, with its allocations. */
module Traps {

  import opened Options

  const MAX_REASON_CODE: nat := 803
  const MAX_TRAP_ID: nat := 0x5000
  const INVALID_TRAP_ID: nat := 0xFFFF_FFFF     // -1 as an unsigned int

  const CH_FD: nat := 0
  const CH_CB: nat := 1
  const CH_NETDEV: nat := 2

  /** What an ADD message configures; `sock` is the socket looked up for the FD channel. */
  datatype Config = Config(rc: nat, trapId: nat, fd: nat, ch: nat, sock: nat)

  /** An allocated xp_trap_config. */
  datatype Cell = Cell(cfg: Config, rxCount: nat)

  /** The table; pointers are the keys of `mem`, the live allocations. */
  datatype Table = Table(mem: map<nat, Cell>, trap: seq<Option<nat>>, rcMap: seq<nat>, next: nat)

  /** Where a packet goes. */
  datatype Route = Callback | Socket(sock: nat) | Netdev | Discard

  predicate Shape(t: Table) {
    |t.trap| == MAX_TRAP_ID + 1 && |t.rcMap| == MAX_REASON_CODE + 1
  }

  /** xp_trap_init. */
  function Init(): (t: Table)
    ensures Shape(t)
  {
    Table(map[], seq(MAX_TRAP_ID + 1, _ => None), seq(MAX_REASON_CODE + 1, _ => INVALID_TRAP_ID), 0)
  }

  // ------------------------------------------------------------------ operations

  datatype Op = Add(cfg: Config, alloc: bool) | Remove(trapId: nat) | Packet(rc: nat)

  predicate Accepts(cfg: Config, alloc: bool) {
    cfg.rc <= MAX_REASON_CODE && cfg.trapId <= MAX_TRAP_ID && alloc
  }

  /** xp_nl_msg_trap with XP_NL_OPERATION_ADD, and xp_trap_id_entry_add. */
  function AddEntry(t: Table, cfg: Config, alloc: bool): (r: Table)
    requires Shape(t)
    ensures Shape(r)
  {
    if !Accepts(cfg, alloc) then t
    else
      var freed := if t.trap[cfg.trapId].Some? then t.mem - {t.trap[cfg.trapId].value} else t.mem;
      Table(freed[t.next := Cell(cfg, 0)], t.trap[cfg.trapId := Some(t.next)], t.rcMap[cfg.rc := cfg.trapId], t.next + 1)
  }

  /** xp_trap_id_entry_remove: the reason code keeps pointing at the trap id. */
  function RemoveEntry(t: Table, id: nat): (r: Table)
    requires Shape(t)
    ensures Shape(r)
  {
    if id > MAX_TRAP_ID || t.trap[id].None? then t
    else t.(mem := t.mem - {t.trap[id].value}, trap := t.trap[id := None])
  }

  /** xp_trap_id_get and xp_trap_config_get. */
  function ConfigOf(t: Table, rc: nat): Option<nat>
    requires Shape(t)
  {
    var id := if rc > MAX_REASON_CODE then INVALID_TRAP_ID else t.rcMap[rc];
    if id == INVALID_TRAP_ID || id > MAX_TRAP_ID then None else t.trap[id]
  }

  function RouteBy(c: Config): Route {
    if c.ch == CH_CB then Callback
    else if c.ch == CH_FD then Socket(c.sock)
    else if c.ch == CH_NETDEV then Netdev
    else Discard
  }

  /** The dispatch of xp_rx_skb_process. */
  function Dispatch(t: Table, rc: nat): Route
    requires Shape(t)
  {
    var p := ConfigOf(t, rc);
    if p.None? || p.value !in t.mem then Callback else RouteBy(t.mem[p.value].cfg)
  }

  /** The same, with the packet counted on a known channel. */
  function Deliver(t: Table, rc: nat): (r: Table)
    requires Shape(t)
    ensures Shape(r)
  {
    var p := ConfigOf(t, rc);
    if p.None? || p.value !in t.mem || RouteBy(t.mem[p.value].cfg).Discard? then t
    else
      var c := t.mem[p.value];
      t.(mem := t.mem[p.value := c.(rxCount := c.rxCount + 1)])
  }

  function Apply(t: Table, op: Op): (r: Table)
    requires Shape(t)
    ensures Shape(r)
  {
    match op
    case Add(cfg, alloc) => AddEntry(t, cfg, alloc)
    case Remove(id) => RemoveEntry(t, id)
    case Packet(rc) => Deliver(t, rc)
  }

  function Exec(ops: seq<Op>): (t: Table)
    ensures Shape(t)
    decreases |ops|
  {
    if ops == [] then Init() else Apply(Exec(ops[..|ops| - 1]), ops[|ops| - 1])
  }

  // ------------------------------------------- the same, read off the history alone

  /** An ADD message that takes effect: reason code and trap id in range, memory to be had. */
  predicate Effective(op: Op) {
    op.Add? && op.cfg.rc <= 803 && op.cfg.trapId <= 20480 && op.alloc
  }

  /** The trap id last bound to `rc`. */
  function LastBound(ops: seq<Op>, rc: nat): Option<nat>
    decreases |ops|
  {
    if ops == [] then None
    else
      var op := ops[|ops| - 1];
      if Effective(op) && op.cfg.rc == rc then Some(op.cfg.trapId)
      else LastBound(ops[..|ops| - 1], rc)
  }

  /** The configuration trap `id` was last given, unless it was removed since. */
  function Current(ops: seq<Op>, id: nat): Option<Config>
    decreases |ops|
  {
    if ops == [] then None
    else
      var op := ops[|ops| - 1];
      if Effective(op) && op.cfg.trapId == id then Some(op.cfg)
      else if op.Remove? && op.trapId == id then None
      else Current(ops[..|ops| - 1], id)
  }

  /** The configuration in force for reason code `rc`: that of the trap last bound to it, if still there. */
  function InForce(ops: seq<Op>, rc: nat): Option<Config> {
    var id := LastBound(ops, rc);
    if id.None? then None else Current(ops, id.value)
  }

  /** What the history says about a packet with reason code `rc`; 0 is FD, 1 is CB, 2 is NETDEV. */
  function RouteOf(ops: seq<Op>, rc: nat): Route {
    match InForce(ops, rc)
    case None => Callback
    case Some(g) => if g.ch == 0 then Socket(g.sock) else if g.ch == 1 then Callback else if g.ch == 2 then Netdev else Discard
  }

  /** Packets routed by the current configuration of trap `id`: those on one of the three channels. */
  function Counted(ops: seq<Op>, id: nat): nat
    decreases |ops|
  {
    if ops == [] then 0
    else
      var most, op := ops[..|ops| - 1], ops[|ops| - 1];
      if Effective(op) && op.cfg.trapId == id then 0
      else if op.Packet? && LastBound(most, op.rc) == Some(id) && Current(most, id).Some? && Current(most, id).value.ch <= 2
      then Counted(most, id) + 1
      else Counted(most, id)
  }

  // ------------------------------------------------------------------- invariant

  /** Slot `i` of the table agrees with the history. */
  ghost predicate SlotOk(t: Table, ops: seq<Op>, i: nat)
    requires Shape(t) && i <= MAX_TRAP_ID
  {
    match Current(ops, i)
    case None => t.trap[i].None?
    case Some(cfg) =>
      && t.trap[i].Some? && t.trap[i].value in t.mem
      && t.mem[t.trap[i].value] == Cell(cfg, Counted(ops, i)) && cfg.trapId == i && cfg.rc <= MAX_REASON_CODE
  }

  ghost predicate Inv(t: Table, ops: seq<Op>) {
    && Shape(t)
    && (forall i :: 0 <= i <= MAX_TRAP_ID ==> SlotOk(t, ops, i))
    && (forall rc :: 0 <= rc <= MAX_REASON_CODE ==>
          t.rcMap[rc] == match LastBound(ops, rc) case None => INVALID_TRAP_ID case Some(id) => id)
    && (forall rc: nat :: LastBound(ops, rc).Some? ==> rc <= MAX_REASON_CODE && LastBound(ops, rc).value <= MAX_TRAP_ID)
    && (forall p :: p in t.mem ==> p < t.next && t.mem[p].cfg.trapId <= MAX_TRAP_ID && t.trap[t.mem[p].cfg.trapId] == Some(p))
  }

  lemma AddInv(t: Table, ops: seq<Op>, op: Op)
    requires ops != [] && Inv(t, ops[..|ops| - 1]) && op == ops[|ops| - 1] && op.Add?
    ensures Inv(AddEntry(t, op.cfg, op.alloc), ops)
  {
    var most := ops[..|ops| - 1];
    var r := AddEntry(t, op.cfg, op.alloc);
    forall i | 0 <= i <= MAX_TRAP_ID
      ensures SlotOk(r, ops, i)
    {
      assert SlotOk(t, most, i) && (Accepts(op.cfg, op.alloc) ==> SlotOk(t, most, op.cfg.trapId));
    }
    forall p | p in r.mem
      ensures p < r.next && r.mem[p].cfg.trapId <= MAX_TRAP_ID && r.trap[r.mem[p].cfg.trapId] == Some(p)
    {
      if p in t.mem && Accepts(op.cfg, op.alloc) {
        assert SlotOk(t, most, t.mem[p].cfg.trapId);
      }
    }
  }

  lemma RemoveInv(t: Table, ops: seq<Op>, op: Op)
    requires ops != [] && Inv(t, ops[..|ops| - 1]) && op == ops[|ops| - 1] && op.Remove?
    ensures Inv(RemoveEntry(t, op.trapId), ops)
  {
    var most := ops[..|ops| - 1];
    var r := RemoveEntry(t, op.trapId);
    forall i | 0 <= i <= MAX_TRAP_ID
      ensures SlotOk(r, ops, i)
    {
      assert SlotOk(t, most, i) && (op.trapId <= MAX_TRAP_ID ==> SlotOk(t, most, op.trapId));
    }
  }

  lemma PacketInv(t: Table, ops: seq<Op>, op: Op)
    requires ops != [] && Inv(t, ops[..|ops| - 1]) && op == ops[|ops| - 1] && op.Packet?
    ensures Inv(Deliver(t, op.rc), ops)
  {
    var most := ops[..|ops| - 1];
    var r := Deliver(t, op.rc);
    var bound := LastBound(most, op.rc);
    if bound.Some? {
      assert SlotOk(t, most, bound.value);
    }
    forall i | 0 <= i <= MAX_TRAP_ID
      ensures SlotOk(r, ops, i)
    {
      assert SlotOk(t, most, i);
    }
  }

  lemma {:induction false} ExecInv(ops: seq<Op>)
    ensures Inv(Exec(ops), ops)
    decreases |ops|
  {
    if ops != [] {
      var most, op := ops[..|ops| - 1], ops[|ops| - 1];
      ExecInv(most);
      match op
      case Add(_, _) => AddInv(Exec(most), ops, op);
      case Remove(_) => RemoveInv(Exec(most), ops, op);
      case Packet(_) => PacketInv(Exec(most), ops, op);
    }
  }

  /**
   After any sequence of adds, removes, allocation failures and packets, a packet goes where the
   current configuration of the trap id last bound to its reason code says, or to the callback
   channel if there is no binding or that trap was removed.
   */
  lemma DispatchFollowsHistory(ops: seq<Op>, rc: nat)
    ensures Dispatch(Exec(ops), rc) == RouteOf(ops, rc)
    ensures var r := Dispatch(Exec(ops), rc);
            match InForce(ops, rc)
            case None => r == Callback
            case Some(g) =>
              && (r.Socket? <==> g.ch == 0) && (r.Socket? ==> r.sock == g.sock)
              && (r.Callback? <==> g.ch == 1) && (r.Netdev? <==> g.ch == 2) && (r.Discard? <==> g.ch > 2)
  {
    ExecInv(ops);
    var t := Exec(ops);
    var bound := LastBound(ops, rc);
    if bound.Some? {
      assert SlotOk(t, ops, bound.value);
    }
  }

  /**
   Allocations: the live configurations are exactly those in the slots, each in the slot of its own
   trap id, and rx_count is the number of packets it has routed.
   */
  lemma LiveIsOccupied(ops: seq<Op>, i: nat, p: nat)
    requires i <= MAX_TRAP_ID
    ensures var t := Exec(ops);
            && (t.trap[i].Some? ==>
                  && t.trap[i].value in t.mem && t.mem[t.trap[i].value].cfg.trapId == i
                  && Some(t.mem[t.trap[i].value].cfg) == Current(ops, i)
                  && t.mem[t.trap[i].value].rxCount == Counted(ops, i))
            && (p in t.mem ==> t.mem[p].cfg.trapId <= MAX_TRAP_ID && t.trap[t.mem[p].cfg.trapId] == Some(p))
            && (t.trap[i].Some? <==> Current(ops, i).Some?)
  {
    ExecInv(ops);
    assert SlotOk(Exec(ops), ops, i);
  }

  /** A packet is counted, on the trap in force, exactly on the three known channels. */
  lemma PacketCounted(ops: seq<Op>, rc: nat, i: nat)
    requires i <= MAX_TRAP_ID
    ensures var t, u := Exec(ops), Exec(ops + [Packet(rc)]);
            && u.trap == t.trap
            && (t.trap[i].Some? ==>
                  && t.trap[i].value in t.mem && t.trap[i].value in u.mem
                  && u.mem[t.trap[i].value].cfg == t.mem[t.trap[i].value].cfg
                  && u.mem[t.trap[i].value].rxCount == t.mem[t.trap[i].value].rxCount +
                       if LastBound(ops, rc) == Some(i) && t.mem[t.trap[i].value].cfg.ch <= 2 then 1 else 0)
  {
    hide Exec;
    var more := ops + [Packet(rc)];
    assert more[..|ops|] == ops;
    ExecLast(more);
    ExecInv(ops);
    ExecInv(more);
    assert SlotOk(Exec(ops), ops, i) && SlotOk(Exec(more), more, i);
  }

  lemma ExecLast(ops: seq<Op>)
    requires ops != []
    ensures Exec(ops) == Apply(Exec(ops[..|ops| - 1]), ops[|ops| - 1])
  {
  }

  /** The reason-code map holds only the invalid id or ids in range. */
  lemma ReasonMapInRange(ops: seq<Op>, rc: nat)
    requires rc <= 803
    ensures |Exec(ops).rcMap| == 804 && |Exec(ops).trap| == 20481
    ensures var id := Exec(ops).rcMap[rc]; id == 0xFFFF_FFFF || id <= 20480
  {
    ExecInv(ops);
  }

  // ---------------------------------------------------------------------- class

  class TrapTable {
    var mem: map<nat, Cell>
    var trap: seq<Option<nat>>
    var rcMap: seq<nat>
    var next: nat
    ghost var history: seq<Op>

    ghost function Abs(): Table
      reads this
    {
      Table(mem, trap, rcMap, next)
    }

    ghost predicate Valid()
      reads this
    {
      Abs() == Exec(history)
    }

    constructor ()
      ensures Valid() && history == []
    {
      mem, next, history := map[], 0, [];
      trap := seq(MAX_TRAP_ID + 1, _ => None);
      rcMap := seq(MAX_REASON_CODE + 1, _ => INVALID_TRAP_ID);
    }

    ghost method Record(op: Op, was: Table)
      requires was == Exec(history) && Abs() == Apply(was, op)
      modifies this`history
      ensures Valid() && history == old(history) + [op]
    {
      assert (history + [op])[..|history|] == history;
      history := history + [op];
    }

    /** xp_nl_msg_trap, ADD. A freed block is one that is live: kfree is never called twice. */
    method AddTrap(cfg: Config, alloc: bool) returns (ok: bool)
      requires Valid()
      modifies this
      ensures Valid() && history == old(history) + [Add(cfg, alloc)]
      ensures ok <==> cfg.rc <= 803 && cfg.trapId <= 20480 && alloc
    {
      hide Exec, Deliver;
      ghost var was := Abs();
      assert Shape(was);
      ok := cfg.rc <= MAX_REASON_CODE && cfg.trapId <= MAX_TRAP_ID && alloc;
      if ok {
        LiveIsOccupied(history, cfg.trapId, 0);
        rcMap := rcMap[cfg.rc := cfg.trapId];
        if trap[cfg.trapId].Some? {
          Free(trap[cfg.trapId].value);
        }
        mem := mem[next := Cell(cfg, 0)];
        trap := trap[cfg.trapId := Some(next)];
        next := next + 1;
      }
      Record(Add(cfg, alloc), was);
    }

    method Free(p: nat)
      requires p in mem
      modifies this`mem
      ensures mem == old(mem) - {p}
    {
      mem := mem - {p};
    }

    method RemoveTrap(id: nat)
      requires Valid()
      modifies this
      ensures Valid() && history == old(history) + [Remove(id)]
    {
      hide Exec, Deliver;
      ghost var was := Abs();
      assert Shape(was);
      if id <= MAX_TRAP_ID && trap[id].Some? {
        LiveIsOccupied(history, id, 0);
        Free(trap[id].value);
        trap := trap[id := None];
      }
      Record(Remove(id), was);
    }

    /** The dispatch of xp_rx_skb_process. */
    method Route(rc: nat) returns (r: Route)
      requires Valid()
      modifies this
      ensures Valid() && history == old(history) + [Packet(rc)]
      ensures r == RouteOf(old(history), rc)
    {
      hide Exec;
      ghost var was := Abs();
      assert Shape(was);
      DispatchFollowsHistory(history, rc);
      r := Callback;
      var id := if rc > MAX_REASON_CODE then INVALID_TRAP_ID else rcMap[rc];
      if id <= MAX_TRAP_ID && trap[id].Some? {
        LiveIsOccupied(history, id, 0);
        var cell := mem[trap[id].value];
        r := RouteBy(cell.cfg);
        if !r.Discard? {
          mem := mem[trap[id].value := cell.(rxCount := cell.rxCount + 1)];
        }
      }
      Record(Packet(rc), was);
    }

    /** xp_trap_deinit: every live configuration is freed, once. */
    method Deinit()
      requires Valid()
      modifies this
      ensures mem == map[] && forall i :: 0 <= i < |trap| ==> trap[i].None?
    {
      ExecInv(history);
      ghost var t := Abs();
      hide Exec, SlotOk;
      assert forall i :: 0 <= i <= MAX_TRAP_ID ==> SlotOk(t, history, i);
      for i := 0 to MAX_TRAP_ID + 1
        invariant |trap| == MAX_TRAP_ID + 1 && |rcMap| == MAX_REASON_CODE + 1 && history == old(history)
        invariant forall j :: 0 <= j < i ==> trap[j].None?
        invariant forall j :: i <= j <= MAX_TRAP_ID ==> trap[j] == t.trap[j]
        invariant forall p :: p in mem ==> p in t.mem && mem[p] == t.mem[p] && t.mem[p].cfg.trapId >= i
        invariant forall p :: p in t.mem && t.mem[p].cfg.trapId >= i ==> p in mem
      {
        if trap[i].Some? {
          SlotCell(t, history, i);
          var p := trap[i].value;
          rcMap := rcMap[mem[p].cfg.rc := INVALID_TRAP_ID];
          Free(p);
          trap := trap[i := None];
        } else {
          SlotCell(t, history, i);
        }
      }
    }
  }

  lemma SlotCell(t: Table, ops: seq<Op>, i: nat)
    requires Inv(t, ops) && i <= MAX_TRAP_ID
    ensures t.trap[i].Some? ==>
      var p := t.trap[i].value; p in t.mem && t.mem[p].cfg.trapId == i && t.mem[p].cfg.rc <= MAX_REASON_CODE
    ensures forall p :: p in t.mem && t.mem[p].cfg.trapId == i ==> t.trap[i] == Some(p)
  {
    assert SlotOk(t, ops, i);
  }
}
