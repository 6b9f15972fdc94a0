/** Set-up and teardown of the queues: who owns which block of DMA memory, and who gives it back. */
module QueueMemory {

  import opened Options
  import Bits

  const NUM_QUEUES: nat := 64
  const RX_NUM_DESCS: nat := 10
  const TX_NUM_DESCS: nat := 10
  const DESC_SIZE: nat := 32
  const PAGE_SIZE: nat := 4096
  const PAGE_SHIFT: nat := 12
  const MAX_PACKET: nat := 16384

  datatype Dir = Rx | Tx

  /** What a block was allocated for: history that tells the driver's blocks from all others. */
  datatype Tag = Other | RingOf(dir: Dir, q: nat) | BufOf(dir: Dir, q: nat, i: nat)

  datatype Block = Block(size: nat, tag: Tag)

  function Descs(dir: Dir): nat { if dir.Rx? then RX_NUM_DESCS else TX_NUM_DESCS }

  /** Size of the memory of `n` descriptors. */
  function RingBytes(n: nat): nat { Bits.CeilLen(n * DESC_SIZE, PAGE_SHIFT) }

  /** The size a block is allocated at. */
  function SizeOf(t: Tag): nat {
    match t
    case Other => 0
    case RingOf(dir, _) => RingBytes(Descs(dir))
    case BufOf(dir, _, _) => if dir.Rx? then MAX_PACKET else PAGE_SIZE
  }

  /** The sizes in numbers: 16 KiB per receive buffer, a page per transmit buffer and per ring of ten. */
  lemma Sizes(q: nat, i: nat)
    ensures SizeOf(BufOf(Rx, q, i)) == 16384 && SizeOf(BufOf(Tx, q, i)) == 4096
    ensures SizeOf(RingOf(Rx, q)) == 4096 && SizeOf(RingOf(Tx, q)) == 4096
    ensures Descs(Rx) == 10 && Descs(Tx) == 10 && NUM_QUEUES == 64
  {
    hide RingBytes;
    RingPages(10);
  }

  /** buf_sta: a buffer with the length noted for it. */
  datatype Stored = Stored(va: nat, len: nat)

  /** q->va and the buf_sta of each descriptor. */
  datatype Queue = Queue(va: Option<nat>, bufs: seq<Option<Stored>>)

  /**
   Both directions give their ring back with the length of a receive ring. That is the length it was
   allocated with if and only if the two descriptor counts fill the same number of pages.
   */
  lemma RingSizesAgreeIff(rx: nat, tx: nat)
    requires rx < 0x1_0000_0000 && tx < 0x1_0000_0000
    ensures RingBytes(rx) == RingBytes(tx) <==> (rx + 127) / 128 == (tx + 127) / 128
  {
    hide RingBytes;
    RingPages(rx);
    RingPages(tx);
  }

  lemma RingPages(n: nat)
    requires n < 0x1_0000_0000
    ensures RingBytes(n) == PAGE_SIZE * ((n + 127) / 128)
  {
    hide Bits.CeilLen, Bits.Pow2;
    Powers();
    Bits.CeilLenIsCeiling(n * DESC_SIZE, PAGE_SHIFT);
    var size := RingBytes(n);
    assert size == PAGE_SIZE * (size / PAGE_SIZE);
  }

  lemma Powers()
    ensures Bits.Pow2(12) == 4096 && Bits.Pow2(64) > 0x100_0000_0000
  {
    assert Bits.Pow2(4) == 16;
    assert Bits.Pow2(8) == 256;
    assert Bits.Pow2(12) == 4096;
    assert Bits.Pow2(16) == 0x1_0000;
    assert Bits.Pow2(20) == 0x10_0000;
    assert Bits.Pow2(24) == 0x100_0000;
    assert Bits.Pow2(28) == 0x1000_0000;
    assert Bits.Pow2(32) == 0x1_0000_0000;
    assert Bits.Pow2(36) == 0x10_0000_0000;
    assert Bits.Pow2(40) == 0x100_0000_0000;
    assert Bits.Pow2(44) == 0x1000_0000_0000;
    assert Bits.Pow2(48) >= Bits.Pow2(44) && Bits.Pow2(52) >= Bits.Pow2(48);
    assert Bits.Pow2(56) >= Bits.Pow2(52) && Bits.Pow2(60) >= Bits.Pow2(56) && Bits.Pow2(64) >= Bits.Pow2(60);
  }

  predicate Of(t: Tag, dir: Dir) { !t.Other? && t.dir == dir }

  /**
   The pointer the driver keeps for a block and the length it gives it back with: the length noted for
   a receive buffer, a page for a transmit buffer, the length of a receive ring for either ring.
   */
  function Kept(qs: seq<Queue>, t: Tag): Option<Stored> {
    match t
    case Other => None
    case RingOf(_, q) => if q < |qs| && qs[q].va.Some? then Some(Stored(qs[q].va.value, RingBytes(RX_NUM_DESCS))) else None
    case BufOf(dir, q, i) =>
      if q < |qs| && i < |qs[q].bufs| && qs[q].bufs[i].Some? then Some(FreedAs(dir, qs[q].bufs[i].value)) else None
  }

  function FreedAs(dir: Dir, b: Stored): Stored { if dir.Rx? then b else b.(len := PAGE_SIZE) }

  /**
   The live blocks of direction `dir` are those tagged in `owned`, each where the driver keeps it and
   with the length it is going to be given back with.
   */
  ghost predicate Exact(live: map<nat, Block>, qs: seq<Queue>, dir: Dir, owned: set<Tag>) {
    && (forall t :: t in owned ==>
          && Of(t, dir) && Kept(qs, t).Some? && Kept(qs, t).value.va in live
          && live[Kept(qs, t).value.va] == Block(Kept(qs, t).value.len, t))
    && (forall p :: p in live && Of(live[p].tag, dir) ==>
          && live[p].tag in owned && live[p].size == SizeOf(live[p].tag)
          && Kept(qs, live[p].tag).Some? && Kept(qs, live[p].tag).value.va == p)
  }

  /** Blocks of the other direction or of nobody here stay as they are. */
  ghost predicate Untouched(was: map<nat, Block>, now: map<nat, Block>, dir: Dir) {
    && (forall p :: p in was && !Of(was[p].tag, dir) ==> p in now && now[p] == was[p])
    && (forall p :: p in now && !Of(now[p].tag, dir) ==> p in was && was[p] == now[p])
  }

  /** Owning the same blocks again is having the same memory again. */
  lemma SameBlocks(was: map<nat, Block>, now: map<nat, Block>, qs: seq<Queue>, qs': seq<Queue>, dir: Dir, owned: set<Tag>)
    requires Exact(was, qs, dir, owned) && Exact(now, qs', dir, owned) && Untouched(was, now, dir)
    requires forall t :: t in owned ==> Kept(qs, t) == Kept(qs', t)
    ensures now == was
  {
    forall p | p in was
      ensures p in now && now[p] == was[p]
    {
      if Of(was[p].tag, dir) {
        var t := was[p].tag;
        assert t in owned && Kept(qs', t).value.va == p;
      }
    }
    forall p | p in now
      ensures p in was
    {
      if Of(now[p].tag, dir) {
        var t := now[p].tag;
        assert t in owned && Kept(qs, t).value.va == p;
      }
    }
  }

  /** dma_alloc_coherent and dma_free_coherent. */
  class Heap {
    var live: map<nat, Block>
    var next: nat
    ghost var failures: seq<Tag>     // history: the allocations that failed

    ghost predicate Valid()
      reads this
    {
      forall p :: p in live ==> p < next
    }

    constructor ()
      ensures Valid() && live == map[] && failures == []
    {
      live, next, failures := map[], 0, [];
    }

    /** An allocation fails whenever it likes. */
    method Alloc(t: Tag) returns (r: Option<nat>)
      requires Valid()
      modifies this
      ensures Valid()
      ensures r.None? ==> live == old(live) && failures == old(failures) + [t]
      ensures r.Some? ==> r.value !in old(live) && live == old(live)[r.value := Block(SizeOf(t), t)] && failures == old(failures)
    {
      var ok: bool := *;
      if ok {
        live := live[next := Block(SizeOf(t), t)];
        r := Some(next);
        next := next + 1;
      } else {
        failures := failures + [t];
        r := None;
      }
    }

    /** Only a live block may be freed, and with the size it was allocated at. */
    method Free(p: nat, size: nat)
      requires Valid() && p in live && live[p].size == size
      modifies this`live
      ensures Valid() && live == old(live) - {p}
    {
      live := live - {p};
    }
  }

  ghost function BufTags(bufs: seq<Option<Stored>>, dir: Dir, q: nat, n: nat): (r: set<Tag>)
    requires n <= |bufs|
    ensures forall t :: t in r <==> t.BufOf? && t.dir == dir && t.q == q && t.i < n && bufs[t.i].Some?
  {
    if n == 0 then {}
    else if bufs[n - 1].Some? then BufTags(bufs, dir, q, n - 1) + {BufOf(dir, q, n - 1)}
    else BufTags(bufs, dir, q, n - 1)
  }

  /** The tags of queue `q` of which the first `n` buffers have been set up. */
  ghost function Tags(qs: seq<Queue>, dir: Dir, q: nat, n: nat): set<Tag>
    requires q < |qs| && n <= |qs[q].bufs|
  {
    {RingOf(dir, q)} + BufTags(qs[q].bufs, dir, q, n)
  }

  /** Forgetting or setting a pointer that is not owned does not matter. */
  lemma SlotChange(live: map<nat, Block>, qs: seq<Queue>, qs': seq<Queue>, dir: Dir, owned: set<Tag>)
    requires Exact(live, qs, dir, owned) && forall t :: t in owned ==> Kept(qs', t) == Kept(qs, t)
    ensures Exact(live, qs', dir, owned)
  {
  }

  lemma BufTagsStep(bufs: seq<Option<Stored>>, dir: Dir, q: nat, n: nat)
    requires n < |bufs|
    ensures BufTags(bufs, dir, q, n + 1) == BufTags(bufs, dir, q, n) + if bufs[n].Some? then {BufOf(dir, q, n)} else {}
  {
  }

  lemma KeptOf(live: map<nat, Block>, qs: seq<Queue>, dir: Dir, owned: set<Tag>, t: Tag)
    requires Exact(live, qs, dir, owned) && t in owned
    ensures Kept(qs, t).Some?
  {
  }

  lemma UnownedSlot(live: map<nat, Block>, qs: seq<Queue>, dir: Dir, owned: set<Tag>, t: Tag)
    requires Exact(live, qs, dir, owned) && Kept(qs, t).None?
    ensures t !in owned
  {
  }

  ghost predicate NoneOf(owned: set<Tag>, q: nat) {
    forall t :: t in owned && !t.Other? ==> t.q != q
  }

  /** The tags of the queues from `a` up to `k`, all completely set up. */
  ghost function AllTags(qs: seq<Queue>, dir: Dir, a: nat, k: nat): set<Tag>
    requires a <= k <= |qs| && forall q :: 0 <= q < |qs| ==> |qs[q].bufs| == RX_NUM_DESCS
    decreases k - a
  {
    if a == k then {} else Tags(qs, dir, a, Descs(dir)) + AllTags(qs, dir, a + 1, k)
  }

  lemma {:induction false} AllTagsQueues(qs: seq<Queue>, dir: Dir, a: nat, k: nat)
    requires a <= k <= |qs| && forall q :: 0 <= q < |qs| ==> |qs[q].bufs| == RX_NUM_DESCS
    ensures forall t :: t in AllTags(qs, dir, a, k) ==> !t.Other? && a <= t.q < k
    decreases k - a
  {
    if a < k {
      AllTagsQueues(qs, dir, a + 1, k);
    }
  }

  lemma {:induction false} AllTagsSame(qs: seq<Queue>, qs': seq<Queue>, dir: Dir, a: nat, k: nat)
    requires a <= k <= |qs| == |qs'|
    requires forall q :: 0 <= q < |qs| ==> |qs[q].bufs| == RX_NUM_DESCS && |qs'[q].bufs| == RX_NUM_DESCS
    requires forall q :: a <= q < k ==> qs'[q] == qs[q]
    ensures AllTags(qs', dir, a, k) == AllTags(qs, dir, a, k)
    decreases k - a
  {
    hide BufTags;
    if a < k {
      AllTagsSame(qs, qs', dir, a + 1, k);
    }
  }

  lemma {:induction false} AllTagsLast(qs: seq<Queue>, dir: Dir, a: nat, k: nat)
    requires a <= k < |qs| && forall q :: 0 <= q < |qs| ==> |qs[q].bufs| == RX_NUM_DESCS
    ensures AllTags(qs, dir, a, k + 1) == AllTags(qs, dir, a, k) + Tags(qs, dir, k, Descs(dir))
    decreases k - a
  {
    hide BufTags;
    if a < k {
      AllTagsLast(qs, dir, a + 1, k);
    }
  }

  /** A failed allocation that set-up notices: any on receive, only that of a ring on transmit. */
  predicate Noticed(dir: Dir, t: Tag) { dir.Rx? || t.RingOf? }

  ghost predicate NoneNoticed(dir: Dir, failed: seq<Tag>) {
    forall i :: 0 <= i < |failed| ==> !Noticed(dir, failed[i])
  }

  /** The allocations that failed between two histories. */
  function Since(was: seq<Tag>, now: seq<Tag>): seq<Tag> {
    if was <= now then now[|was|..] else []
  }

  lemma NothingSince(dir: Dir, was: seq<Tag>)
    ensures NoneNoticed(dir, Since(was, was))
  {
  }

  lemma SinceAppend(dir: Dir, a: seq<Tag>, b: seq<Tag>, c: seq<Tag>)
    requires a <= b <= c
    ensures NoneNoticed(dir, Since(a, c)) <==> NoneNoticed(dir, Since(a, b)) && NoneNoticed(dir, Since(b, c))
  {
    assert Since(a, c) == Since(a, b) + Since(b, c);
    var x, y := Since(a, b), Since(b, c);
    if NoneNoticed(dir, x + y) {
      assert forall i :: 0 <= i < |x| ==> (x + y)[i] == x[i];
      assert forall i :: 0 <= i < |y| ==> (x + y)[|x| + i] == y[i];
    }
  }

  /** The queues of one direction in struct xpnet_private. */
  class Queues {
    const dir: Dir
    const heap: Heap
    var qs: seq<Queue>
    var num: nat              // num_rxqueues or num_txqueues

    ghost predicate Valid()
      reads this, heap
    {
      heap.Valid() && |qs| == NUM_QUEUES && forall q :: 0 <= q < NUM_QUEUES ==> |qs[q].bufs| == RX_NUM_DESCS
    }

    constructor (dir: Dir, heap: Heap)
      requires heap.Valid()
      ensures Valid() && this.dir == dir && this.heap == heap
    {
      this.dir, this.heap := dir, heap;
      qs := seq(NUM_QUEUES, _ => Queue(None, seq(RX_NUM_DESCS, _ => None)));
      num := 0;
    }

    /**
     xpnet_rx_queue_uninit and xpnet_tx_queue_uninit: give back the buffers of the first `idx`
     descriptors that have one, then the descriptors.
     */
    method QueueUninit(q: nat, idx: nat, ghost owned: set<Tag>)
      requires Valid() && q < NUM_QUEUES && idx <= Descs(dir)
      requires Exact(heap.live, qs, dir, owned) && Tags(qs, dir, q, idx) <= owned
      modifies this`qs, heap`live
      ensures Valid() && Exact(heap.live, qs, dir, owned - old(Tags(qs, dir, q, idx)))
      ensures Untouched(old(heap.live), heap.live, dir)
      ensures forall k :: 0 <= k < NUM_QUEUES && k != q ==> qs[k] == old(qs)[k]
    {
      hide Exact, BufTags;
      ghost var all := Tags(qs, dir, q, idx);
      ghost var bufs := qs[q].bufs;
      var i := 0;
      assert owned - BufTags(bufs, dir, q, 0) == owned;
      while i < idx
        invariant 0 <= i <= idx && Valid() && Exact(heap.live, qs, dir, owned - BufTags(bufs, dir, q, i))
        invariant Untouched(old(heap.live), heap.live, dir)
        invariant qs[q].va == old(qs)[q].va
        invariant forall k :: i <= k < RX_NUM_DESCS ==> qs[q].bufs[k] == bufs[k]
        invariant forall k :: 0 <= k < NUM_QUEUES && k != q ==> qs[k] == old(qs)[k]
      {
        BufTagsStep(bufs, dir, q, i);
        FreeBuffer(q, i, owned - BufTags(bufs, dir, q, i));
        i := i + 1;
        assert owned - BufTags(bufs, dir, q, i - 1) - (if bufs[i - 1].Some? then {BufOf(dir, q, i - 1)} else {})
               == owned - BufTags(bufs, dir, q, i);
      }
      var t := RingOf(dir, q);
      ghost var left := owned - BufTags(bufs, dir, q, idx);
      assert t in left;
      KeptOf(heap.live, qs, dir, left, t);
      FreeKept(t, qs[q].va.value, RingBytes(RX_NUM_DESCS), left);
      assert left - {t} == owned - all;
    }

    /** One turn of the loop: free the buffer of descriptor `i`, if it has one, and forget it. */
    method FreeBuffer(q: nat, i: nat, ghost owned: set<Tag>)
      requires Valid() && q < NUM_QUEUES && i < Descs(dir) && Exact(heap.live, qs, dir, owned)
      requires qs[q].bufs[i].Some? ==> BufOf(dir, q, i) in owned
      modifies this`qs, heap`live
      ensures Valid() && Untouched(old(heap.live), heap.live, dir)
      ensures Exact(heap.live, qs, dir, owned - if old(qs)[q].bufs[i].Some? then {BufOf(dir, q, i)} else {})
      ensures qs == old(qs)[q := old(qs)[q].(bufs := old(qs)[q].bufs[i := None])]
    {
      hide Exact;
      var b := qs[q].bufs[i];
      ghost var left := owned;
      if b.Some? {
        var t := BufOf(dir, q, i);
        FreeKept(t, b.value.va, FreedAs(dir, b.value).len, owned);
        left := owned - {t};
      } else {
        UnownedSlot(heap.live, qs, dir, owned, BufOf(dir, q, i));
      }
      ghost var was := qs;
      qs := qs[q := qs[q].(bufs := qs[q].bufs[i := None])];
      SlotChange(heap.live, was, qs, dir, left);
      assert owned - {} == owned;
    }

    /** Free the block kept for tag `t` with the length the driver has for it; its pointer is stale afterwards. */
    method FreeKept(ghost t: Tag, p: nat, size: nat, ghost owned: set<Tag>)
      requires heap.Valid() && Exact(heap.live, qs, dir, owned) && t in owned && Kept(qs, t) == Some(Stored(p, size))
      modifies heap`live
      ensures heap.Valid() && Exact(heap.live, qs, dir, owned - {t}) && Untouched(old(heap.live), heap.live, dir)
      ensures heap.live == old(heap.live) - {p}
    {
      heap.Free(p, size);
    }

    /** Put a freshly allocated block into the driver's hands. */
    lemma Store(was: map<nat, Block>, old_: seq<Queue>, p: nat, t: Tag, owned: set<Tag>)
      requires Exact(was, old_, dir, owned) && Of(t, dir) && t !in owned && p !in was
      requires heap.live == was[p := Block(SizeOf(t), t)] && Kept(qs, t) == Some(Stored(p, SizeOf(t)))
      requires forall u :: u in owned ==> Kept(qs, u) == Kept(old_, u)
      ensures Exact(heap.live, qs, dir, owned + {t}) && Untouched(was, heap.live, dir)
    {
    }

    /** dma_alloc_coherent for the descriptors of queue `q`. */
    method AllocRing(q: nat, ghost owned: set<Tag>) returns (ok: bool)
      requires Valid() && q < NUM_QUEUES && Exact(heap.live, qs, dir, owned) && NoneOf(owned, q)
      modifies this`qs, heap
      ensures Valid() && Untouched(old(heap.live), heap.live, dir)
      ensures heap.failures == old(heap.failures) + if ok then [] else [RingOf(dir, q)]
      ensures Exact(heap.live, qs, dir, if ok then owned + {RingOf(dir, q)} else owned)
      ensures forall k :: 0 <= k < NUM_QUEUES && k != q ==> qs[k] == old(qs)[k]
      ensures qs[q].bufs == old(qs)[q].bufs && (!ok ==> heap.live == old(heap.live))
    {
      var r := heap.Alloc(RingOf(dir, q));
      ghost var was := qs;
      qs := qs[q := qs[q].(va := r)];
      ok := r.Some?;
      if ok {
        Store(old(heap.live), was, r.value, RingOf(dir, q), owned);
      } else {
        SlotChange(heap.live, was, qs, dir, owned);
      }
    }

    /** dma_alloc_coherent for the buffer of descriptor `i`; what it returns is kept, null or not. */
    method AllocBuffer(q: nat, i: nat, ghost owned: set<Tag>) returns (ok: bool)
      requires Valid() && q < NUM_QUEUES && i < Descs(dir)
      requires Exact(heap.live, qs, dir, owned) && BufOf(dir, q, i) !in owned
      modifies this`qs, heap
      ensures Valid() && Untouched(old(heap.live), heap.live, dir)
      ensures heap.failures == old(heap.failures) + if ok then [] else [BufOf(dir, q, i)]
      ensures Exact(heap.live, qs, dir, if ok then owned + {BufOf(dir, q, i)} else owned)
      ensures qs[q].bufs[i].Some? == ok
      ensures qs == old(qs)[q := old(qs)[q].(bufs := old(qs)[q].bufs[i := qs[q].bufs[i]])]
    {
      var r := heap.Alloc(BufOf(dir, q, i));
      ghost var was := qs;
      var b := if r.None? then None else Some(Stored(r.value, if dir.Rx? then MAX_PACKET else 0));
      qs := qs[q := qs[q].(bufs := qs[q].bufs[i := b])];
      ok := r.Some?;
      if ok {
        Store(old(heap.live), was, r.value, BufOf(dir, q, i), owned);
      } else {
        SlotChange(heap.live, was, qs, dir, owned);
      }
    }

    /**
     xpnet_rx_queue_init. Any failed allocation makes it fail, and then it has given back whatever
     it had allocated.
     */
    method RxQueueInit(q: nat, ghost owned: set<Tag>) returns (ok: bool)
      requires Valid() && dir.Rx? && Exact(heap.live, qs, dir, owned) && NoneOf(owned, q)
      modifies this`qs, heap
      ensures Valid() && Untouched(old(heap.live), heap.live, dir)
      ensures old(heap.failures) <= heap.failures
      ensures ok <==> q < NUM_QUEUES && heap.failures == old(heap.failures)
      ensures ok ==> Exact(heap.live, qs, dir, owned + Tags(qs, dir, q, Descs(dir)))
      ensures ok ==> forall i :: 0 <= i < Descs(dir) ==> qs[q].bufs[i].Some?
      ensures !ok ==> Exact(heap.live, qs, dir, owned)
      ensures forall k :: 0 <= k < NUM_QUEUES && k != q ==> qs[k] == old(qs)[k]
    {
      hide Exact, BufTags;
      if q >= NUM_QUEUES {
        return false;
      }
      ok := AllocRing(q, owned);
      if !ok {
        return;
      }
      var n := 0;
      assert owned + {RingOf(dir, q)} == owned + Tags(qs, dir, q, 0);
      while n < Descs(dir)
        invariant 0 <= n <= Descs(dir) && Valid() && ok
        invariant Exact(heap.live, qs, dir, owned + Tags(qs, dir, q, n))
        invariant Untouched(old(heap.live), heap.live, dir) && heap.failures == old(heap.failures)
        invariant forall i :: 0 <= i < n ==> qs[q].bufs[i].Some?
        invariant forall k :: 0 <= k < NUM_QUEUES && k != q ==> qs[k] == old(qs)[k]
      {
        ghost var tags := Tags(qs, dir, q, n);
        ghost var before := qs[q].bufs;
        NotYet(owned, qs, dir, q, n);
        ok := AllocBuffer(q, n, owned + tags);
        BufTagsPrefix(before, qs[q].bufs, dir, q, n);
        if !ok {
          QueueUninit(q, n, owned + tags);
          assert owned + tags - tags == owned by { Disjoint(owned, before, dir, q, n); }
          return;
        }
        BufTagsStep(qs[q].bufs, dir, q, n);
        assert owned + tags + {BufOf(dir, q, n)} == owned + Tags(qs, dir, q, n + 1);
        n := n + 1;
      }
    }

    /**
     xpnet_tx_queue_init. The check after a buffer allocation looks at the descriptor, not at the
     buffer, so only a queue number out of range or the allocation of the descriptors can make it fail.
     The range is the number of queues asked for; tx_queue itself has 64.
     */
    method TxQueueInit(q: nat, ghost owned: set<Tag>) returns (ok: bool)
      requires Valid() && dir.Tx? && (q < num ==> q < NUM_QUEUES) && Exact(heap.live, qs, dir, owned) && NoneOf(owned, q)
      modifies this`qs, heap
      ensures Valid() && Untouched(old(heap.live), heap.live, dir)
      ensures old(heap.failures) <= heap.failures
      ensures var failed := heap.failures[|old(heap.failures)|..];
              && (ok <==> q < num && RingOf(dir, q) !in failed)
              && (forall t :: t in failed ==> t == RingOf(dir, q) || t.BufOf?)
              && (ok ==> forall i :: 0 <= i < Descs(dir) ==> (qs[q].bufs[i].None? <==> BufOf(dir, q, i) in failed))
      ensures Exact(heap.live, qs, dir, if ok then owned + Tags(qs, dir, q, Descs(dir)) else owned)
      ensures forall k :: 0 <= k < NUM_QUEUES && k != q ==> qs[k] == old(qs)[k]
    {
      hide Exact, BufTags;
      if q >= num {
        return false;
      }
      ok := AllocRing(q, owned);
      if !ok {
        return;
      }
      ghost var f0 := |heap.failures|;
      assert owned + {RingOf(dir, q)} == owned + Tags(qs, dir, q, 0);
      for n := 0 to Descs(dir)
        invariant Valid() && Exact(heap.live, qs, dir, owned + Tags(qs, dir, q, n))
        invariant Untouched(old(heap.live), heap.live, dir) && old(heap.failures) <= heap.failures
        invariant forall t :: t in heap.failures[f0..] ==> t.BufOf? && t.dir == dir && t.q == q && t.i < n
        invariant forall i :: 0 <= i < n ==> (qs[q].bufs[i].None? <==> BufOf(dir, q, i) in heap.failures[f0..])
        invariant forall k :: 0 <= k < NUM_QUEUES && k != q ==> qs[k] == old(qs)[k]
      {
        ghost var tags := Tags(qs, dir, q, n);
        ghost var before, log := qs[q].bufs, heap.failures[f0..];
        NotYet(owned, qs, dir, q, n);
        var got := AllocBuffer(q, n, owned + tags);
        assert heap.failures[f0..] == log + if got then [] else [BufOf(dir, q, n)];
        BufTagsPrefix(before, qs[q].bufs, dir, q, n);
        BufTagsStep(qs[q].bufs, dir, q, n);
        assert (if got then owned + tags + {BufOf(dir, q, n)} else owned + tags) == owned + Tags(qs, dir, q, n + 1);
      }
    }

    /** xpnet_rx_teardown and xpnet_tx_teardown. */
    method Teardown(count: nat)
      requires Valid() && count <= NUM_QUEUES && Exact(heap.live, qs, dir, AllTags(qs, dir, 0, count))
      modifies this`qs, heap`live
      ensures Valid() && Exact(heap.live, qs, dir, {}) && Untouched(old(heap.live), heap.live, dir)
    {
      hide Exact, BufTags;
      for i := 0 to count
        invariant Valid() && Exact(heap.live, qs, dir, AllTags(qs, dir, i, count))
        invariant Untouched(old(heap.live), heap.live, dir)
      {
        ghost var was := qs;
        ghost var mine, rest := Tags(qs, dir, i, Descs(dir)), AllTags(qs, dir, i + 1, count);
        QueueUninit(i, Descs(dir), mine + rest);
        AllTagsQueues(was, dir, i + 1, count);
        TagsQueue(was, dir, i, Descs(dir));
        assert mine + rest - mine == rest;
        AllTagsSame(was, qs, dir, i + 1, count);
      }
    }

    /**
     xpnet_rx_queue_setup and xpnet_tx_queue_setup. If it fails, the live DMA memory is what it was
     before the call; if it succeeds, the driver owns exactly the blocks of its queues. It succeeds
     exactly if it was asked for no more than 64 queues and no allocation it looks at failed. Transmit
     set-up checks its queue numbers only against what it was asked for: asked for more than 64, and
     without a failure it notices, it runs past the end of tx_queue.
     */
    method Setup(count: nat) returns (r: SetupResult)
      requires Valid() && Exact(heap.live, qs, dir, {})
      modifies this, heap
      ensures Valid() && Untouched(old(heap.live), heap.live, dir) && num == count
      ensures r.Failed? ==> heap.live == old(heap.live) && Exact(heap.live, qs, dir, {})
      ensures r.Ready? ==> count <= NUM_QUEUES && Exact(heap.live, qs, dir, AllTags(qs, dir, 0, count))
      ensures r.Overrun? ==> dir.Tx? && count > NUM_QUEUES && Exact(heap.live, qs, dir, AllTags(qs, dir, 0, NUM_QUEUES))
      ensures old(heap.failures) <= heap.failures
      ensures var fine := NoneNoticed(dir, Since(old(heap.failures), heap.failures));
              && (r.Ready? <==> count <= NUM_QUEUES && fine)
              && (r.Overrun? <==> dir.Tx? && count > NUM_QUEUES && fine)
    {
      hide Exact, BufTags, NoneNoticed, Since;
      num := count;
      var i, ok := InitAll(count);
      if !ok {
        Teardown(i);
        SameBlocks(old(heap.live), heap.live, old(qs), qs, dir, {});
        return Failed;
      }
      r := if i < count then Overrun else Ready;
    }

    /** The loop over the queues: `i` of them are set up when it stops. */
    method InitAll(count: nat) returns (i: nat, ok: bool)
      requires Valid() && Exact(heap.live, qs, dir, {}) && num == count
      modifies this`qs, heap
      ensures Valid() && Untouched(old(heap.live), heap.live, dir) && i <= NUM_QUEUES
      ensures Exact(heap.live, qs, dir, AllTags(qs, dir, 0, i)) && old(heap.failures) <= heap.failures
      ensures ok ==> i == count || (dir.Tx? && i == NUM_QUEUES < count)
      ensures ok <==> NoneNoticed(dir, Since(old(heap.failures), heap.failures)) && (dir.Rx? ==> count <= NUM_QUEUES)
    {
      hide Exact, BufTags, NoneNoticed, Since;
      NothingSince(dir, heap.failures);
      i, ok := 0, true;
      while i < count && !(dir.Tx? && i == NUM_QUEUES)
        invariant i <= count && i <= NUM_QUEUES && Valid() && num == count && ok
        invariant Exact(heap.live, qs, dir, AllTags(qs, dir, 0, i))
        invariant Untouched(old(heap.live), heap.live, dir)
        invariant old(heap.failures) <= heap.failures && NoneNoticed(dir, Since(old(heap.failures), heap.failures))
      {
        ghost var before := heap.failures;
        ok := QueueInit(i);
        SinceAppend(dir, old(heap.failures), before, heap.failures);
        if !ok {
          return;
        }
        i := i + 1;
      }
    }

    /** Queue `i` is set up after those before it. */
    method QueueInit(i: nat) returns (ok: bool)
      requires Valid() && i <= NUM_QUEUES && i < num && (dir.Tx? ==> i < NUM_QUEUES)
      requires Exact(heap.live, qs, dir, AllTags(qs, dir, 0, i))
      modifies this`qs, heap
      ensures Valid() && Untouched(old(heap.live), heap.live, dir) && (ok ==> i < NUM_QUEUES)
      ensures Exact(heap.live, qs, dir, AllTags(qs, dir, 0, if ok then i + 1 else i))
      ensures old(heap.failures) <= heap.failures
      ensures ok <==> i < NUM_QUEUES && NoneNoticed(dir, Since(old(heap.failures), heap.failures))
    {
      hide Exact, BufTags;
      ghost var was, owned := qs, AllTags(qs, dir, 0, i);
      AllTagsQueues(qs, dir, 0, i);
      if dir.Rx? {
        ok := RxQueueInit(i, owned);
      } else {
        ok := TxQueueInit(i, owned);
      }
      NoticedIff(old(heap.failures), heap.failures, i);
      AllTagsSame(was, qs, dir, 0, i);
      if ok {
        AllTagsLast(qs, dir, 0, i);
      }
    }

    /** In terms of what one queue's set-up says of its failures. */
    lemma NoticedIff(was: seq<Tag>, now: seq<Tag>, i: nat)
      requires was <= now
      requires dir.Tx? ==> forall t :: t in now[|was|..] ==> t == RingOf(dir, i) || t.BufOf?
      ensures NoneNoticed(dir, Since(was, now)) <==> if dir.Rx? then now == was else RingOf(dir, i) !in now[|was|..]
    {
      var f := now[|was|..];
      if dir.Rx? {
        if f != [] {
          assert Noticed(dir, f[0]);
        }
      } else if RingOf(dir, i) in f {
        var k :| 0 <= k < |f| && f[k] == RingOf(dir, i);
        assert Noticed(dir, f[k]);
      } else {
        assert forall k :: 0 <= k < |f| ==> f[k] in f;
      }
    }

    /** Set-up and a full teardown leave the DMA memory as it was, unless set-up ran out of its array. */
    method SetupThenTeardown(count: nat) returns (r: SetupResult)
      requires Valid() && Exact(heap.live, qs, dir, {})
      modifies this, heap
      ensures Valid() && old(heap.failures) <= heap.failures
      ensures r.Overrun? <==> dir.Tx? && count > NUM_QUEUES && NoneNoticed(dir, Since(old(heap.failures), heap.failures))
      ensures !r.Overrun? ==> heap.live == old(heap.live)
    {
      hide Exact, AllTags, NoneNoticed, Since;
      r := Setup(count);
      if r.Ready? {
        Teardown(count);
        SameBlocks(old(heap.live), heap.live, old(qs), qs, dir, {});
      }
    }
  }

  /** Ready, failed with an error code, or run past the end of tx_queue. */
  datatype SetupResult = Ready | Failed | Overrun

  lemma NotYet(owned: set<Tag>, qs: seq<Queue>, dir: Dir, q: nat, n: nat)
    requires NoneOf(owned, q) && q < |qs| && n < |qs[q].bufs|
    ensures BufOf(dir, q, n) !in owned + Tags(qs, dir, q, n)
  {
  }

  lemma TagsQueue(qs: seq<Queue>, dir: Dir, q: nat, n: nat)
    requires q < |qs| && n <= |qs[q].bufs|
    ensures forall t :: t in Tags(qs, dir, q, n) ==> !t.Other? && t.q == q
  {
  }

  lemma Disjoint(owned: set<Tag>, bufs: seq<Option<Stored>>, dir: Dir, q: nat, n: nat)
    requires NoneOf(owned, q) && n <= |bufs|
    ensures owned !! {RingOf(dir, q)} + BufTags(bufs, dir, q, n)
  {
  }

  lemma {:induction false} BufTagsPrefix(a: seq<Option<Stored>>, b: seq<Option<Stored>>, dir: Dir, q: nat, n: nat)
    requires n <= |a| == |b| && forall i :: 0 <= i < n ==> a[i] == b[i]
    ensures BufTags(a, dir, q, n) == BufTags(b, dir, q, n)
    decreases n
  {
    if n > 0 {
      BufTagsPrefix(a, b, dir, q, n - 1);
    }
  }
}
