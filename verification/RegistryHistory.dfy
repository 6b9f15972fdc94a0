/**
 The registry read off its history: which interfaces exist, which numbers they hold and since when, as
 functions of the messages alone, and the proof that list and hash table say the same.
 */
module RegistryHistory {

  import opened Options
  import opened Registry

  /** Interface `id` exists: it was created, with a registration that succeeded, and not deleted since. */
  function Exists(ops: seq<Op>, id: nat): bool
    decreases |ops|
  {
    if ops == [] then false
    else
      var most, op := ops[..|ops| - 1], ops[|ops| - 1];
      if op.id != id then Exists(most, id)
      else match op
        case Create(_, registered) => registered || Exists(most, id)
        case Delete(_) => false
        case Link(_, _) => Exists(most, id)
        case Unlink(_) => Exists(most, id)
  }

  /** The numbers an interface can be linked to: front-panel ports, LAGs, router interfaces. */
  predicate Linkable(num: nat) {
    num < 128 || 4096 <= num < 5019 || 65536 <= num < 81920
  }

  /** A link to `num` is the last message and takes effect: `id` exists and holds no number. */
  predicate Links(most: seq<Op>, op: Op, id: nat) {
    op.Link? && op.id == id && Exists(most, id) && Number(most, id).None? && Linkable(op.num)
  }

  /** The number interface `id` holds. */
  function Number(ops: seq<Op>, id: nat): Option<nat>
    decreases |ops|, 0
  {
    if ops == [] then None
    else
      var most, op := ops[..|ops| - 1], ops[|ops| - 1];
      if op.id == id && (op.Delete? || op.Unlink?) then None
      else if op.Link? && op.id == id && Exists(most, id) && Number(most, id).None? && Linkable(op.num) then Some(op.num)
      else Number(most, id)
  }

  /** The position in the history of the link that gave interface `id` its number. */
  function LinkedAt(ops: seq<Op>, id: nat): nat
    decreases |ops|
  {
    if ops == [] then 0
    else
      var most, op := ops[..|ops| - 1], ops[|ops| - 1];
      if Links(most, op, id) then |most| else LinkedAt(most, id)
  }

  function KindByRange(num: nat): Kind {
    if num < 128 then Fp else if num < 5019 then Lag else Router
  }

  /** The entry of interface `id` is what the history says, if it is there at all. */
  ghost predicate Tells(s: State, ops: seq<Op>, id: nat)
    requires Shape(s)
  {
    var f := Find(s.mem, s.list, id);
    && (f.Some? <==> Exists(ops, id))
    && (f.None? ==> Number(ops, id).None?)
    && (f.Some? ==> EntryTells(s.mem[f.value], ops, id))
  }

  ghost predicate EntryTells(e: Entry, ops: seq<Op>, id: nat) {
    match Number(ops, id)
    case None => e.num == 0xFFFF_FFFF
    case Some(m) => e.num == m && e.since == LinkedAt(ops, id) && e.kind == KindByRange(m)
  }

  /** With unique ids the walk finds the one entry that has the id. */
  lemma FindIff(s: State, id: nat, p: nat)
    requires ListOk(s)
    ensures Find(s.mem, s.list, id) == Some(p) <==> p in s.mem && s.mem[p].id == id
  {
    var f := Find(s.mem, s.list, id);
    if f.Some? {
      assert f.value in s.mem;
    } else if p in s.mem {
      assert p in s.list;
    }
  }

  lemma SomeFound(s: State, id: nat)
    requires Shape(s) && ListOk(s)
    ensures Find(s.mem, s.list, id).Some? <==> exists p :: p in s.mem && s.mem[p].id == id
  {
    hide ListOk;
    var f := Find(s.mem, s.list, id);
    if f.Some? {
      FindIff(s, id, f.value);
    }
    forall p | p in s.mem && s.mem[p].id == id
      ensures f.Some?
    {
      FindIff(s, id, p);
    }
  }

  lemma KindsAgree(num: nat)
    ensures KindOf(num).Some? <==> Linkable(num)
    ensures Linkable(num) ==> KindOf(num).value == KindByRange(num)
  {
  }

  /** One message, seen from interface `id`. */
  lemma CreateTells(s: State, r: State, most: seq<Op>, ops: seq<Op>, id: nat)
    requires Shape(s) && Shape(r) && ListOk(s) && ListOk(r) && Tells(s, most, id) && ops != [] && most == ops[..|ops| - 1]
    requires var op := ops[|ops| - 1]; op.Create? && r == CreateOp(s, op.id, op.registered).(clock := s.clock + 1)
    ensures Tells(r, ops, id)
  {
    hide Find, ListOk;
    var op := ops[|ops| - 1];
    var f, g := Find(s.mem, s.list, id), Find(r.mem, r.list, id);
    SomeFound(s, id);
    SomeFound(r, id);
    Fresh(s);
    if f.Some? {
      FindIff(s, id, f.value);
      FindIff(r, id, f.value);
    } else if op.id == id && op.registered {
      FindIff(r, id, s.next);
    }
  }

  lemma Fresh(s: State)
    requires ListOk(s)
    ensures s.next !in s.mem
  {
  }

  lemma DeleteTells(s: State, r: State, most: seq<Op>, ops: seq<Op>, id: nat)
    requires Shape(s) && Shape(r) && ListOk(s) && ListOk(r) && Tells(s, most, id) && ops != [] && most == ops[..|ops| - 1]
    requires var op := ops[|ops| - 1]; op.Delete? && r == DeleteOp(s, op.id).(clock := s.clock + 1)
    ensures Tells(r, ops, id)
  {
    hide Find, ListOk, Without, HashDel;
    var op := ops[|ops| - 1];
    var f := Find(s.mem, s.list, id);
    SomeFound(s, id);
    SomeFound(r, id);
    var d := Find(s.mem, s.list, op.id);
    if d.Some? {
      FindIff(s, op.id, d.value);
    }
    if op.id == id {
      forall p | p in r.mem
        ensures r.mem[p].id != id
      {
        FindIff(s, id, p);
      }
    } else if f.Some? {
      FindIff(s, id, f.value);
      FindIff(r, id, f.value);
    }
  }

  /** A message that leaves the entry of `id` alone, in the registry and in the history. */
  lemma SameTells(s: State, r: State, most: seq<Op>, ops: seq<Op>, id: nat)
    requires Shape(s) && Shape(r) && ListOk(s) && ListOk(r) && Tells(s, most, id)
    requires Exists(ops, id) == Exists(most, id) && Number(ops, id) == Number(most, id) && LinkedAt(ops, id) == LinkedAt(most, id)
    requires forall p :: p in s.mem && s.mem[p].id == id ==> p in r.mem && r.mem[p] == s.mem[p]
    requires forall p :: p in r.mem && r.mem[p].id == id ==> p in s.mem
    requires forall p :: p in s.mem && p in r.mem ==> r.mem[p].id == s.mem[p].id
    ensures Tells(r, ops, id)
  {
    hide Find, ListOk, Exists, Number, LinkedAt;
    var f := Find(s.mem, s.list, id);
    SomeFound(s, id);
    SomeFound(r, id);
    if f.Some? {
      FindIff(s, id, f.value);
      FindIff(r, id, f.value);
    }
  }

  lemma LinkTells(h: Hash, s: State, r: State, most: seq<Op>, ops: seq<Op>, id: nat)
    requires Shape(s) && Shape(r) && ListOk(s) && ListOk(r) && Tells(s, most, id)
    requires ops != [] && most == ops[..|ops| - 1] && s.clock == |most|
    requires var op := ops[|ops| - 1]; op.Link? && r == LinkOp(h, s, op.id, op.num).(clock := s.clock + 1)
    ensures Tells(r, ops, id)
  {
    hide Find, ListOk, KindOf;
    var op := ops[|ops| - 1];
    KindsAgree(op.num);
    if Links(most, op, id) {
      LinkTakes(h, s, r, most, ops, id);
    } else {
      LinkSpares(h, s, r, most, op, id);
      SameTells(s, r, most, ops, id);
    }
  }

  lemma LinkTakes(h: Hash, s: State, r: State, most: seq<Op>, ops: seq<Op>, id: nat)
    requires Shape(s) && Shape(r) && ListOk(s) && ListOk(r) && Tells(s, most, id)
    requires ops != [] && most == ops[..|ops| - 1] && s.clock == |most|
    requires var op := ops[|ops| - 1]; Links(most, op, id) && r == LinkOp(h, s, op.id, op.num).(clock := s.clock + 1)
    ensures Tells(r, ops, id)
  {
    hide Find, ListOk, KindOf;
    var f := Find(s.mem, s.list, id);
    KindsAgree(ops[|ops| - 1].num);
    FindIff(s, id, f.value);
    FindIff(r, id, f.value);
  }

  lemma FreeToLink(s: State, most: seq<Op>, op: Op)
    requires Shape(s) && Tells(s, most, op.id) && op.Link? && Linkable(op.num)
    requires var f := Find(s.mem, s.list, op.id); f.Some? && !Linked(s.mem[f.value])
    ensures Links(most, op, op.id)
  {
    hide Find, Exists, LinkedAt;
    NumberInRange(most, op.id);
  }

  lemma {:induction false} NumberInRange(ops: seq<Op>, id: nat)
    ensures Number(ops, id).Some? ==> Linkable(Number(ops, id).value)
    decreases |ops|
  {
    if ops != [] {
      NumberInRange(ops[..|ops| - 1], id);
    }
  }

  lemma RelinkSpares(s: State, p: nat, num: nat, id: nat)
    requires p in s.mem && s.mem[p].id != id && KindOf(num).Some?
    ensures var mem := Relinked(s, p, num);
            && (forall q :: q in s.mem <==> q in mem) && (forall q :: q in s.mem ==> mem[q].id == s.mem[q].id)
            && (forall q :: q in s.mem && s.mem[q].id == id ==> mem[q] == s.mem[q])
  {
    hide KindOf;
  }

  lemma RelinkIs(h: Hash, s: State, id: nat, num: nat, p: nat)
    requires Shape(s) && Find(s.mem, s.list, id) == Some(p) && !Linked(s.mem[p]) && KindOf(num).Some?
    ensures LinkOp(h, s, id, num).mem == Relinked(s, p, num)
  {
    hide KindOf, Find;
  }

  lemma LinkSpares(h: Hash, s: State, r: State, most: seq<Op>, op: Op, id: nat)
    requires Shape(s) && Shape(r) && ListOk(s) && Tells(s, most, id)
    requires op.Link? && !Links(most, op, id) && r == LinkOp(h, s, op.id, op.num).(clock := s.clock + 1)
    ensures forall p :: p in s.mem <==> p in r.mem
    ensures forall p :: p in s.mem ==> r.mem[p].id == s.mem[p].id
    ensures forall p :: p in s.mem && s.mem[p].id == id ==> r.mem[p] == s.mem[p]
  {
    hide Find, ListOk, KindOf, Tells, Links, Relinked;
    KindsAgree(op.num);
    var f := Find(s.mem, s.list, op.id);
    if f.Some? && !Linked(s.mem[f.value]) && Linkable(op.num) {
      if op.id == id {
        FreeToLink(s, most, op);
      }
      FindIff(s, op.id, f.value);
      RelinkSpares(s, f.value, op.num, id);
      RelinkIs(h, s, op.id, op.num, f.value);
    } else {
      assert r.mem == s.mem;
    }
  }

  lemma UnlinkTells(s: State, r: State, most: seq<Op>, ops: seq<Op>, id: nat)
    requires Shape(s) && Shape(r) && ListOk(s) && ListOk(r) && Tells(s, most, id) && ops != [] && most == ops[..|ops| - 1]
    requires var op := ops[|ops| - 1]; op.Unlink? && r == UnlinkOp(s, op.id).(clock := s.clock + 1)
    ensures Tells(r, ops, id)
  {
    hide Find, ListOk, HashDel;
    var op := ops[|ops| - 1];
    var f := Find(s.mem, s.list, id);
    SomeFound(s, id);
    SomeFound(r, id);
    if f.Some? {
      FindIff(s, id, f.value);
      FindIff(r, id, f.value);
      FindIff(s, op.id, f.value);
    }
  }

  lemma ListsOk(h: Hash, ops: seq<Op>)
    ensures ListOk(Exec(h, ops))
  {
    hide ListOk, Exec;
    ExecInv(h, ops);
  }

  /**
   After every history the registry holds exactly the interfaces the history says exist, each with the
   number, the type and the time of linking the history says.
   */
  lemma {:induction false} FollowsHistory(h: Hash, ops: seq<Op>, id: nat)
    ensures Exec(h, ops).clock == |ops| && Tells(Exec(h, ops), ops, id)
    decreases |ops|
  {
    if ops != [] {
      hide ListOk, Tells, CreateOp, DeleteOp, LinkOp, UnlinkOp;
      var most := ops[..|ops| - 1];
      FollowsHistory(h, most, id);
      ListsOk(h, most);
      ListsOk(h, ops);
      var s, r := Exec(h, most), Exec(h, ops);
      match ops[|ops| - 1]
      case Create(_, _) => CreateTells(s, r, most, ops, id);
      case Delete(_) => DeleteTells(s, r, most, ops, id);
      case Link(_, _) => LinkTells(h, s, r, most, ops, id);
      case Unlink(_) => UnlinkTells(s, r, most, ops, id);
    }
  }

  /** Interface `id` holds `m` and no interface that holds it was linked to it later. */
  ghost predicate Newest(ops: seq<Op>, id: nat, m: nat) {
    && Number(ops, id) == Some(m)
    && forall other :: Number(ops, other) == Some(m) ==> LinkedAt(ops, other) <= LinkedAt(ops, id)
  }

  /** A live entry is the one the history knows under its id. */
  lemma EntryOf(h: Hash, ops: seq<Op>, p: nat)
    requires p in Exec(h, ops).mem
    ensures var e := Exec(h, ops).mem[p]; Exists(ops, e.id) && EntryTells(e, ops, e.id)
  {
    hide Exec, ListOk, Find, EntryTells;
    var s := Exec(h, ops);
    ListsOk(h, ops);
    FollowsHistory(h, ops, s.mem[p].id);
    FindIff(s, s.mem[p].id, p);
  }

  lemma HolderOf(h: Hash, ops: seq<Op>, id: nat, m: nat) returns (p: nat)
    requires Number(ops, id) == Some(m)
    ensures var s := Exec(h, ops);
            p in s.list && p in s.mem && s.mem[p].id == id && s.mem[p].num == m && s.mem[p].since == LinkedAt(ops, id)
  {
    hide Exec;
    FollowsHistory(h, ops, id);
    p := Find(Exec(h, ops).mem, Exec(h, ops).list, id).value;
  }

  /**
   A bucket look-up in terms of the history: it finds the interface most recently linked to the number of
   those that still hold it, and nothing exactly when none does.
   */
  lemma LookupFollowsHistory(h: Hash, ops: seq<Op>, m: nat)
    requires m != 0xFFFF_FFFF
    ensures var s := Exec(h, ops);
            && BucketLive(s, h(m))
            && (var r := Lookup(h, s, m);
                && (r.None? <==> forall id :: Number(ops, id) != Some(m))
                && (r.Some? ==> r.value in s.mem && Newest(ops, s.mem[r.value].id, m)))
  {
    hide Exec, Lookup, Number, LinkedAt, BucketLive;
    FoundHolds(h, ops, m);
    var s := Exec(h, ops);
    var r := Lookup(h, s, m);
    forall id | Number(ops, id) == Some(m)
      ensures r.Some? && LinkedAt(ops, id) <= s.mem[r.value].since
    {
      HoldersFound(h, ops, m, id);
    }
  }

  lemma FoundHolds(h: Hash, ops: seq<Op>, m: nat)
    requires m != 0xFFFF_FFFF
    ensures var s := Exec(h, ops);
            && BucketLive(s, h(m))
            && (var r := Lookup(h, s, m);
                r.Some? ==>
                  && r.value in s.mem && Number(ops, s.mem[r.value].id) == Some(m)
                  && s.mem[r.value].since == LinkedAt(ops, s.mem[r.value].id))
  {
    hide Exec, Lookup, Number, LinkedAt, KindOf;
    LookupIsNewestLinked(h, ops, m, 0);
    ListsMem(h, ops);
    var r := Lookup(h, Exec(h, ops), m);
    if r.Some? {
      EntryOf(h, ops, r.value);
    }
  }

  lemma HoldersFound(h: Hash, ops: seq<Op>, m: nat, id: nat)
    requires m != 0xFFFF_FFFF && Number(ops, id) == Some(m)
    ensures var s := Exec(h, ops);
            && BucketLive(s, h(m))
            && (var r := Lookup(h, s, m); r.Some? && r.value in s.mem && LinkedAt(ops, id) <= s.mem[r.value].since)
  {
    hide Exec, Lookup, Number, LinkedAt, KindOf;
    var q := HolderOf(h, ops, id, m);
    LookupIsNewestLinked(h, ops, m, q);
    ListsMem(h, ops);
  }

  lemma ListsMem(h: Hash, ops: seq<Op>)
    ensures forall p :: p in Exec(h, ops).list <==> p in Exec(h, ops).mem
  {
    hide Exec;
    ListsOk(h, ops);
  }

  /** What holds of every history holds of the registry object. */
  lemma RegistryTells(g: NetdevRegistry, id: nat)
    requires g.Valid()
    ensures Shape(g.Abs()) && Tells(g.Abs(), g.history, id)
  {
    hide Exec, Tells;
    FollowsHistory(g.h, g.history, id);
  }
}
