/** The list of netdev interfaces and the hash table over the numbers they are linked to. */
module Registry {

  import opened Options

  const HASH_SIZE: nat := 256
  const NO_NUMBER: nat := 0xFFFF_FFFF   // XP_NO_VIF and XP_NO_RIF as unsigned ints

  const MAX_FP: nat := 128
  const MIN_LAG: nat := 4096
  const MAX_LAG: nat := 5019
  const OFFSET_BD: nat := 65536
  const MAX_BD: nat := 65536 + 16384

  datatype Kind = Fp | Router | Lag

  /** The type a link to number `m` gives an interface; None if the number is in no range. */
  function KindOf(m: nat): Option<Kind> {
    if m < MAX_FP then Some(Fp)
    else if OFFSET_BD <= m < MAX_BD then Some(Router)
    else if MIN_LAG <= m < MAX_LAG then Some(Lag)
    else None
  }

  /**
   struct xp_netdev_priv: interface id, the vif/rif union, the type. `since` is history: the number
   of messages handled before the link.
   */
  datatype Entry = Entry(id: nat, num: nat, kind: Kind, since: nat)

  predicate Linked(e: Entry) { e.num != NO_NUMBER }

  /**
   The registry. Pointers are the keys of `mem`; the list and the hash buckets hold pointers, newest
   first. `clock` counts the messages handled, `next` is the next pointer to be allocated.
   */
  datatype State = State(mem: map<nat, Entry>, list: seq<nat>, buckets: seq<seq<nat>>, clock: nat, next: nat)

  /** Bucket of a number: any function into the table. */
  type Hash = h: nat -> nat | forall m: nat :: h(m) < HASH_SIZE witness (m: nat) => 0

  ghost predicate Shape(s: State) {
    |s.buckets| == HASH_SIZE && forall i :: 0 <= i < |s.list| ==> s.list[i] in s.mem
  }

  function Init(): (s: State)
    ensures Shape(s)
  {
    State(map[], [], seq(HASH_SIZE, _ => []), 0, 0)
  }

  /** The first list entry with interface id `id`. */
  function Find(mem: map<nat, Entry>, list: seq<nat>, id: nat): (r: Option<nat>)
    requires forall i :: 0 <= i < |list| ==> list[i] in mem
    ensures r.Some? ==> r.value in list && r.value in mem && mem[r.value].id == id
    ensures r.None? ==> forall i :: 0 <= i < |list| ==> mem[list[i]].id != id
  {
    if list == [] then None
    else if mem[list[0]].id == id then Some(list[0])
    else Find(mem, list[1..], id)
  }

  function Without(s: seq<nat>, p: nat): (r: seq<nat>)
    ensures forall q :: q in r <==> q in s && q != p
    ensures forall i :: 0 <= i < |r| ==> r[i] in s && r[i] != p
  {
    if s == [] then [] else if s[0] == p then Without(s[1..], p) else [s[0]] + Without(s[1..], p)
  }

  /** hash_del: out of whatever bucket the entry is in, if any. */
  function HashDel(buckets: seq<seq<nat>>, p: nat): (r: seq<seq<nat>>)
    ensures |r| == |buckets|
    ensures forall b :: 0 <= b < |buckets| ==> r[b] == Without(buckets[b], p)
  {
    seq(|buckets|, b requires 0 <= b < |buckets| => Without(buckets[b], p))
  }

  // ------------------------------------------------------------------ operations

  datatype Op =
    | Create(id: nat, registered: bool)
    | Delete(id: nat)
    | Link(id: nat, num: nat)
    | Unlink(id: nat)

  function CreateOp(s: State, id: nat, registered: bool): (r: State)
    requires Shape(s)
    ensures Shape(r)
  {
    if Find(s.mem, s.list, id).Some? || !registered then s
    else s.(mem := s.mem[s.next := Entry(id, NO_NUMBER, Fp, 0)], list := [s.next] + s.list, next := s.next + 1)
  }

  function DeleteOp(s: State, id: nat): (r: State)
    requires Shape(s)
    ensures Shape(r)
  {
    match Find(s.mem, s.list, id)
    case None => s
    case Some(p) => s.(mem := s.mem - {p}, list := Without(s.list, p), buckets := HashDel(s.buckets, p))
  }

  function LinkOp(h: Hash, s: State, id: nat, num: nat): (r: State)
    requires Shape(s)
    ensures Shape(r)
  {
    match Find(s.mem, s.list, id)
    case None => s
    case Some(p) =>
      var e := s.mem[p];
      if Linked(e) || KindOf(num).None? then s
      else
        s.(mem := s.mem[p := e.(num := num, kind := KindOf(num).value, since := s.clock)],
           buckets := s.buckets[h(num) := [p] + s.buckets[h(num)]],
           clock := s.clock + 1)
  }

  function UnlinkOp(s: State, id: nat): (r: State)
    requires Shape(s)
    ensures Shape(r)
  {
    match Find(s.mem, s.list, id)
    case None => s
    case Some(p) => s.(mem := s.mem[p := s.mem[p].(num := NO_NUMBER)], buckets := HashDel(s.buckets, p))
  }

  function Apply(h: Hash, s: State, op: Op): (r: State)
    requires Shape(s)
    ensures Shape(r)
  {
    Handle(h, s, op).(clock := s.clock + 1)
  }

  function Handle(h: Hash, s: State, op: Op): (r: State)
    requires Shape(s)
    ensures Shape(r)
  {
    match op
    case Create(id, registered) => CreateOp(s, id, registered)
    case Delete(id) => DeleteOp(s, id)
    case Link(id, num) => LinkOp(h, s, id, num)
    case Unlink(id) => UnlinkOp(s, id)
  }

  function Exec(h: Hash, ops: seq<Op>): (s: State)
    ensures Shape(s)
    decreases |ops|
  {
    if ops == [] then Init() else Apply(h, Exec(h, ops[..|ops| - 1]), ops[|ops| - 1])
  }

  // ------------------------------------------------------------------- invariant

  ghost predicate Distinct(s: seq<nat>) {
    forall i, j :: 0 <= i < j < |s| ==> s[i] != s[j]
  }

  /** The list holds every live entry once, and no interface id twice. */
  ghost predicate ListOk(s: State) {
    && Shape(s) && Distinct(s.list)
    && (forall p :: p in s.mem <==> p in s.list)
    && (forall p, q :: p in s.mem && q in s.mem && s.mem[p].id == s.mem[q].id ==> p == q)
    && (forall p :: p in s.mem ==> p < s.next)
  }

  /** Type and time of a linked entry. */
  ghost predicate EntriesOk(s: State) {
    forall p :: p in s.mem && Linked(s.mem[p]) ==> KindOf(s.mem[p].num) == Some(s.mem[p].kind) && s.mem[p].since < s.clock
  }

  /** Bucket `b` holds the linked entries whose number hashes to `b`, newest link first. */
  ghost predicate BucketOk(h: Hash, s: State, b: nat)
    requires |s.buckets| == HASH_SIZE && b < HASH_SIZE
  {
    && (forall p :: p in s.buckets[b] <==> p in s.mem && Linked(s.mem[p]) && h(s.mem[p].num) == b)
    && NewestFirst(s.mem, s.buckets[b])
  }

  ghost predicate NewestFirst(mem: map<nat, Entry>, s: seq<nat>) {
    forall i, j :: 0 <= i < j < |s| && s[i] in mem && s[j] in mem ==> mem[s[i]].since > mem[s[j]].since
  }

  ghost predicate Inv(h: Hash, s: State) {
    && Shape(s) && ListOk(s) && EntriesOk(s)
    && forall b :: 0 <= b < HASH_SIZE ==> BucketOk(h, s, b)
  }

  // ----------------------------------------------------- the invariant, step by step

  lemma {:induction false} WithoutNewest(mem: map<nat, Entry>, mem': map<nat, Entry>, s: seq<nat>, p: nat)
    requires NewestFirst(mem, s) && forall i :: 0 <= i < |s| ==> s[i] in mem
    requires forall q :: q in mem && q != p ==> q in mem' && mem'[q] == mem[q]
    ensures NewestFirst(mem', Without(s, p))
    decreases |s|
  {
    if s != [] {
      WithoutNewest(mem, mem', s[1..], p);
      var w := Without(s[1..], p);
      if s[0] != p {
        forall j | 0 <= j < |w|
          ensures w[j] in mem' && mem'[s[0]].since > mem'[w[j]].since
        {
          assert w[j] in s[1..];
          var k :| 0 <= k < |s[1..]| && s[1..][k] == w[j];
          assert s[k + 1] == w[j];
        }
        assert Without(s, p) == [s[0]] + w;
      }
    }
  }

  lemma {:induction false} WithoutDistinct(s: seq<nat>, p: nat)
    requires Distinct(s)
    ensures Distinct(Without(s, p))
    decreases |s|
  {
    if s != [] {
      WithoutDistinct(s[1..], p);
      var w := Without(s[1..], p);
      assert s[0] !in s[1..];
      forall j | 0 <= j < |w|
        ensures w[j] != s[0]
      {
        assert w[j] in s[1..];
      }
    }
  }

  lemma CreateList(h: Hash, s: State, id: nat)
    requires ListOk(s) && EntriesOk(s) && Find(s.mem, s.list, id).None?
    ensures ListOk(CreateOp(s, id, true)) && EntriesOk(CreateOp(s, id, true))
  {
    hide KindOf, Find;
    var r := CreateOp(s, id, true);
    assert s.next !in s.mem;
    forall p, q | p in r.mem && q in r.mem && r.mem[p].id == r.mem[q].id
      ensures p == q
    {
      assert p in s.mem ==> p in s.list;
      assert q in s.mem ==> q in s.list;
    }
  }

  lemma CreateInv(h: Hash, s: State, id: nat, registered: bool)
    requires Inv(h, s)
    ensures Inv(h, CreateOp(s, id, registered))
  {
    hide ListOk, EntriesOk, Find;
    var r := CreateOp(s, id, registered);
    if Find(s.mem, s.list, id).None? && registered {
      CreateList(h, s, id);
      forall b | 0 <= b < HASH_SIZE
        ensures BucketOk(h, r, b)
      {
        assert BucketOk(h, s, b);
        CreateBucket(h, s, id, b);
      }
    }
  }

  lemma CreateBucket(h: Hash, s: State, id: nat, b: nat)
    requires ListOk(s) && b < HASH_SIZE && BucketOk(h, s, b) && Find(s.mem, s.list, id).None?
    ensures BucketOk(h, CreateOp(s, id, true), b)
  {
    assert s.next !in s.mem;
  }

  lemma DeleteList(s: State, id: nat, p: nat)
    requires ListOk(s) && EntriesOk(s) && Find(s.mem, s.list, id) == Some(p)
    ensures ListOk(DeleteOp(s, id)) && EntriesOk(DeleteOp(s, id))
  {
    WithoutDistinct(s.list, p);
  }

  lemma DropBucket(h: Hash, s: State, mem': map<nat, Entry>, p: nat, b: nat, r: State)
    requires |s.buckets| == HASH_SIZE && b < HASH_SIZE && BucketOk(h, s, b)
    requires forall q :: q in s.mem && q != p ==> q in mem' && mem'[q] == s.mem[q]
    requires forall q :: q in mem' && q != p ==> q in s.mem
    requires p in mem' ==> !Linked(mem'[p])
    requires r.mem == mem' && r.buckets == HashDel(s.buckets, p)
    ensures BucketOk(h, r, b)
  {
    WithoutNewest(s.mem, mem', s.buckets[b], p);
  }

  lemma DeleteInv(h: Hash, s: State, id: nat)
    requires Inv(h, s)
    ensures Inv(h, DeleteOp(s, id))
  {
    hide ListOk, EntriesOk, BucketOk, Find;
    var f := Find(s.mem, s.list, id);
    if f.Some? {
      var r := DeleteOp(s, id);
      DeleteList(s, id, f.value);
      forall b | 0 <= b < HASH_SIZE
        ensures BucketOk(h, r, b)
      {
        DropBucket(h, s, r.mem, f.value, b, r);
      }
    }
  }

  /** Changing an entry without its id keeps the list in order. */
  lemma SameIds(s: State, r: State)
    requires ListOk(s) && |r.buckets| == HASH_SIZE && r.list == s.list && r.next == s.next
    requires forall p :: p in s.mem <==> p in r.mem
    requires forall p :: p in s.mem ==> r.mem[p].id == s.mem[p].id
    ensures ListOk(r)
  {
  }

  lemma UnlinkList(s: State, id: nat, p: nat)
    requires ListOk(s) && EntriesOk(s) && Find(s.mem, s.list, id) == Some(p)
    ensures ListOk(UnlinkOp(s, id)) && EntriesOk(UnlinkOp(s, id))
  {
    hide KindOf;
    SameIds(s, UnlinkOp(s, id));
  }

  lemma UnlinkInv(h: Hash, s: State, id: nat)
    requires Inv(h, s)
    ensures Inv(h, UnlinkOp(s, id))
  {
    hide ListOk, EntriesOk, BucketOk, Find;
    var f := Find(s.mem, s.list, id);
    if f.Some? {
      var r := UnlinkOp(s, id);
      UnlinkList(s, id, f.value);
      forall b | 0 <= b < HASH_SIZE
        ensures BucketOk(h, r, b)
      {
        DropBucket(h, s, r.mem, f.value, b, r);
      }
    }
  }

  /** The entry table after a link. */
  function Relinked(s: State, p: nat, num: nat): map<nat, Entry>
    requires p in s.mem && KindOf(num).Some?
  {
    s.mem[p := s.mem[p].(num := num, kind := KindOf(num).value, since := s.clock)]
  }

  lemma LinkEntries(s: State, r: State, p: nat, num: nat)
    requires EntriesOk(s) && p in s.mem && KindOf(num).Some? && r.mem == Relinked(s, p, num) && r.clock == s.clock + 1
    ensures EntriesOk(r)
  {
    hide KindOf;
  }

  lemma LinkList(s: State, r: State, p: nat, num: nat)
    requires ListOk(s) && p in s.mem && KindOf(num).Some? && r.mem == Relinked(s, p, num)
    requires |r.buckets| == HASH_SIZE && r.list == s.list && r.next == s.next
    ensures ListOk(r)
  {
    hide KindOf, ListOk;
    SameIds(s, r);
  }

  lemma LinkBucket(h: Hash, s: State, id: nat, num: nat, p: nat, b: nat)
    requires Shape(s) && EntriesOk(s) && Find(s.mem, s.list, id) == Some(p)
    requires !Linked(s.mem[p]) && KindOf(num).Some? && b < HASH_SIZE && BucketOk(h, s, b)
    ensures BucketOk(h, LinkOp(h, s, id, num), b)
  {
    var r := LinkOp(h, s, id, num);
    var old_ := s.buckets[b];
    assert p !in old_;
    forall i | 0 <= i < |old_|
      ensures old_[i] in s.mem && old_[i] != p && r.mem[old_[i]] == s.mem[old_[i]] && s.mem[old_[i]].since < s.clock
    {
      assert old_[i] in old_;
    }
    if b == h(num) {
      assert r.buckets[b] == [p] + old_;
    }
  }

  lemma LinkInv(h: Hash, s: State, id: nat, num: nat)
    requires Inv(h, s)
    ensures Inv(h, LinkOp(h, s, id, num))
  {
    hide ListOk, EntriesOk, BucketOk, Find;
    var f := Find(s.mem, s.list, id);
    if f.Some? && !Linked(s.mem[f.value]) && KindOf(num).Some? {
      var r := LinkOp(h, s, id, num);
      LinkList(s, r, f.value, num);
      LinkEntries(s, r, f.value, num);
      forall b | 0 <= b < HASH_SIZE
        ensures BucketOk(h, r, b)
      {
        LinkBucket(h, s, id, num, f.value, b);
      }
    }
  }

  lemma HandleInv(h: Hash, s: State, op: Op)
    requires Inv(h, s)
    ensures Inv(h, Handle(h, s, op))
  {
    hide CreateOp, DeleteOp, LinkOp, UnlinkOp, ListOk, EntriesOk, BucketOk;
    match op
    case Create(id, registered) => CreateInv(h, s, id, registered);
    case Delete(id) => DeleteInv(h, s, id);
    case Link(id, num) => LinkInv(h, s, id, num);
    case Unlink(id) => UnlinkInv(h, s, id);
  }

  /** After every sequence of messages, failed registrations included, list and hash table agree. */
  lemma {:induction false} ExecInv(h: Hash, ops: seq<Op>)
    ensures Inv(h, Exec(h, ops))
    decreases |ops|
  {
    hide Handle, Inv;
    if ops == [] {
      InitInv(h);
    } else {
      var most, op := ops[..|ops| - 1], ops[|ops| - 1];
      ExecInv(h, most);
      var s := Exec(h, most);
      HandleInv(h, s, op);
      Clocks(h, s, op);
      TickInv(h, Handle(h, s, op), s.clock + 1);
    }
  }

  lemma Clocks(h: Hash, s: State, op: Op)
    requires Shape(s)
    ensures Handle(h, s, op).clock <= s.clock + 1
  {
    hide Find, Without, HashDel, KindOf;
  }

  /** Time passes. */
  lemma TickInv(h: Hash, s: State, clock: nat)
    requires Inv(h, s) && s.clock <= clock
    ensures Inv(h, s.(clock := clock))
  {
    hide NewestFirst, KindOf;
    var r := s.(clock := clock);
    forall b | 0 <= b < HASH_SIZE
      ensures BucketOk(h, r, b)
    {
      assert BucketOk(h, s, b);
    }
  }

  lemma InitInv(h: Hash)
    ensures Inv(h, Init())
  {
  }

  // ---------------------------------------------------------------------- lookup

  /** hash_for_each_possible: the first entry of the bucket with number `m`. */
  function Scan(mem: map<nat, Entry>, bucket: seq<nat>, m: nat): (r: Option<nat>)
    requires forall i :: 0 <= i < |bucket| ==> bucket[i] in mem
    ensures r.Some? ==> r.value in bucket && mem[r.value].num == m
  {
    if bucket == [] then None
    else if mem[bucket[0]].num == m then Some(bucket[0])
    else Scan(mem, bucket[1..], m)
  }

  lemma {:induction false} ScanFirst(mem: map<nat, Entry>, bucket: seq<nat>, m: nat, q: nat)
    requires forall i :: 0 <= i < |bucket| ==> bucket[i] in mem
    requires NewestFirst(mem, bucket) && q in bucket && mem[q].num == m
    ensures var r := Scan(mem, bucket, m); r.Some? && (r.value == q || mem[r.value].since > mem[q].since)
    decreases |bucket|
  {
    if mem[bucket[0]].num == m {
      var k :| 0 <= k < |bucket| && bucket[k] == q;
    } else {
      ScanFirst(mem, bucket[1..], m, q);
    }
  }

  ghost predicate BucketLive(s: State, b: nat)
    requires |s.buckets| == HASH_SIZE && b < HASH_SIZE
  {
    forall i :: 0 <= i < |s.buckets[b]| ==> s.buckets[b][i] in s.mem
  }

  function Lookup(h: Hash, s: State, m: nat): Option<nat>
    requires |s.buckets| == HASH_SIZE && BucketLive(s, h(m))
  {
    Scan(s.mem, s.buckets[h(m)], m)
  }

  lemma BucketsLive(h: Hash, s: State, b: nat)
    requires Inv(h, s) && b < HASH_SIZE
    ensures BucketLive(s, b)
  {
    assert BucketOk(h, s, b);
  }

  /**
   A bucket lookup finds, whatever the hash function and the history, the most recently linked live
   interface with that number, and nothing exactly when a scan of the whole list would find none.
   */
  lemma LookupIsNewestLinked(h: Hash, ops: seq<Op>, m: nat, q: nat)
    requires m != NO_NUMBER
    ensures var s := Exec(h, ops);
            && BucketLive(s, h(m))
            && (var r := Lookup(h, s, m);
                && (r.Some? ==> r.value in s.list && s.mem[r.value].num == m && KindOf(m) == Some(s.mem[r.value].kind))
                && (q in s.list && s.mem[q].num == m ==>
                      r.Some? && (r.value == q || s.mem[r.value].since > s.mem[q].since)))
  {
    hide Exec;
    ExecInv(h, ops);
    var s := Exec(h, ops);
    BucketsLive(h, s, h(m));
    assert BucketOk(h, s, h(m));
    if q in s.list && s.mem[q].num == m {
      ScanFirst(s.mem, s.buckets[h(m)], m, q);
    }
  }

  /** Interface ids are unique; an entry is hashed, and only in its bucket, exactly when it is linked. */
  lemma HashedIffLinked(h: Hash, ops: seq<Op>, p: nat, q: nat, b: nat)
    requires b < HASH_SIZE
    ensures var s := Exec(h, ops);
            && (p in s.list && q in s.list && s.mem[p].id == s.mem[q].id ==> p == q)
            && (p in s.buckets[b] <==> p in s.list && Linked(s.mem[p]) && h(s.mem[p].num) == b)
            && (p in s.list && Linked(s.mem[p]) ==> KindOf(s.mem[p].num) == Some(s.mem[p].kind))
  {
    hide Exec;
    ExecInv(h, ops);
    assert BucketOk(h, Exec(h, ops), b);
  }

  // ---------------------------------------------------------------------- class

  /** xp_netdev_list and xp_active_netdev_htable. */
  class NetdevRegistry {
    const h: Hash
    var mem: map<nat, Entry>
    var list: seq<nat>
    var buckets: seq<seq<nat>>
    var clock: nat
    var next: nat
    ghost var history: seq<Op>

    ghost function Abs(): State
      reads this
    {
      State(mem, list, buckets, clock, next)
    }

    ghost predicate Valid()
      reads this
    {
      Abs() == Exec(h, history)
    }

    constructor (h: Hash)
      ensures Valid() && this.h == h && history == []
    {
      this.h := h;
      mem, list, clock, next, history := map[], [], 0, 0, [];
      buckets := seq(HASH_SIZE, _ => []);
    }

    ghost method Record(op: Op, was: State)
      requires was == Exec(h, history) && Abs() == Apply(h, was, op)
      modifies this`history
      ensures Valid() && history == old(history) + [op]
    {
      assert (history + [op])[..|history|] == history;
      history := history + [op];
    }

    /** list_for_each until the interface id matches. */
    method FindEntry(id: nat) returns (r: Option<nat>)
      requires Valid()
      ensures Shape(Abs()) && r == Find(mem, list, id)
    {
      hide Exec;
      assert Shape(Abs());
      var i := 0;
      while i < |list|
        invariant 0 <= i <= |list| && Find(mem, list, id) == Find(mem, list[i..], id)
      {
        if mem[list[i]].id == id {
          return Some(list[i]);
        }
        assert list[i..][1..] == list[i + 1..];
        i := i + 1;
      }
      r := None;
    }

    /** xp_nl_msg_if_create; `registered` is the outcome of register_netdev. */
    method IfCreate(id: nat, registered: bool)
      requires Valid()
      modifies this
      ensures Valid() && history == old(history) + [Create(id, registered)]
    {
      hide Exec, Find;
      ghost var was := Abs();
      var f := FindEntry(id);
      if f.None? && registered {
        mem := mem[next := Entry(id, NO_NUMBER, Fp, 0)];
        list := [next] + list;
        next := next + 1;
      }
      clock := clock + 1;
      Record(Create(id, registered), was);
    }

    /** xp_nl_msg_if_delete. */
    method IfDelete(id: nat)
      requires Valid()
      modifies this
      ensures Valid() && history == old(history) + [Delete(id)]
    {
      hide Exec, Find;
      ghost var was := Abs();
      var f := FindEntry(id);
      if f.Some? {
        buckets := HashDel(buckets, f.value);
        list := Without(list, f.value);
        mem := mem - {f.value};
      }
      clock := clock + 1;
      Record(Delete(id), was);
    }

    /** xp_nl_msg_if_link. */
    method IfLink(id: nat, num: nat)
      requires Valid()
      modifies this
      ensures Valid() && history == old(history) + [Link(id, num)]
    {
      hide Exec, Find;
      ghost var was := Abs();
      var f := FindEntry(id);
      if f.Some? && mem[f.value].num == NO_NUMBER {
        var kind := None;
        if num < MAX_FP {
          kind := Some(Fp);
        } else if OFFSET_BD <= num < MAX_BD {
          kind := Some(Router);
        } else if MIN_LAG <= num < MAX_LAG {
          kind := Some(Lag);
        }
        if kind.Some? {
          mem := mem[f.value := mem[f.value].(num := num, kind := kind.value, since := clock)];
          buckets := buckets[h(num) := [f.value] + buckets[h(num)]];
        }
      }
      clock := clock + 1;
      Record(Link(id, num), was);
    }

    /** xp_nl_msg_if_unlink. */
    method IfUnlink(id: nat)
      requires Valid()
      modifies this
      ensures Valid() && history == old(history) + [Unlink(id)]
    {
      hide Exec, Find;
      ghost var was := Abs();
      var f := FindEntry(id);
      if f.Some? {
        buckets := HashDel(buckets, f.value);
        mem := mem[f.value := mem[f.value].(num := NO_NUMBER)];
      }
      clock := clock + 1;
      Record(Unlink(id), was);
    }

    /** hash_for_each_possible until the number matches. */
    method LookupNumber(m: nat) returns (r: Option<nat>)
      requires Valid()
      ensures BucketLive(Abs(), h(m)) && r == Lookup(h, Abs(), m)
    {
      hide Exec;
      ExecInv(h, history);
      BucketsLive(h, Abs(), h(m));
      var bucket := buckets[h(m)];
      var i := 0;
      while i < |bucket|
        invariant 0 <= i <= |bucket| && Scan(mem, bucket, m) == Scan(mem, bucket[i..], m)
      {
        if mem[bucket[i]].num == m {
          return Some(bucket[i]);
        }
        assert bucket[i..][1..] == bucket[i + 1..];
        i := i + 1;
      }
      r := None;
    }
  }
}
