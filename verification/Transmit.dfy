/**
 The layers of a transmit, from the netdev down to the queue, and who frees which packet buffer.
 */
module Transmit {

  import opened Shards
  import opened TxMachine
  import opened TxOutcome
  import Q = TxQueue
  import D = Descriptors
  import TxRuns

  const HEADER_LEN: nat := 24     // sizeof(xphTxHdr)
  const UDP_HEADER: nat := 8

  datatype NetdevTx = TxOk | TxBusy

  /** A socket buffer: its data, the room before it, and whether it has fragments. */
  datatype Buffer = Buffer(data: seq<Byte>, headroom: nat, fragmented: bool)

  /** The live socket buffers. */
  class Pool {
    var live: map<nat, Buffer>
    var next: nat

    ghost predicate Valid()
      reads this
    {
      forall p :: p in live ==> p < next
    }

    constructor ()
      ensures Valid() && live == map[]
    {
      live, next := map[], 0;
    }

    /** dev_kfree_skb_any on a buffer: it must be live, so none is freed twice. */
    method Free(p: nat)
      requires Valid() && p in live
      modifies this`live
      ensures Valid() && live == old(live) - {p}
    {
      live := live - {p};
    }

    /** skb_copy_expand with room for the header; the copy is taken to succeed. */
    method CopyExpand(p: nat, headroom: nat) returns (c: nat)
      requires Valid() && p in live
      modifies this
      ensures Valid() && c !in old(live)
      ensures live == old(live)[c := Buffer(old(live)[p].data, headroom, old(live)[p].fragmented)]
    {
      c := next;
      live := live[c := Buffer(live[p].data, headroom, live[p].fragmented)];
      next := next + 1;
    }

    /** skb_push and the copy of the header into the space it makes. */
    method Push(p: nat, header: seq<Byte>)
      requires Valid() && p in live && |header| <= live[p].headroom
      modifies this`live
      ensures Valid() && live == old(live)[p := Pushed(old(live)[p], header)]
    {
      live := live[p := Pushed(live[p], header)];
    }
  }

  function Pushed(b: Buffer, header: seq<Byte>): Buffer
    requires |header| <= b.headroom
  {
    b.(data := header + b.data, headroom := b.headroom - |header|)
  }

  /** A network interface: whether it is up, and whether its transmit queue is stopped. */
  class Netdev {
    var up: bool
    var stopped: bool

    constructor ()
      ensures !up && stopped
    {
      up, stopped := false, true;
    }

    /** xp_ndo_open: the only place that starts the queue. */
    method Open()
      modifies this`stopped
      ensures !stopped
    {
      stopped := false;
    }

    /** xp_ndo_stop. */
    method Stop()
      modifies this`stopped
      ensures stopped
    {
      stopped := true;
    }
  }

  class Driver {
    const q: Q.Queue
    const pool: Pool
    var dmaTrigger: bool

    ghost predicate Valid()
      reads this, q, pool
    {
      q.Valid() && q.pc.Idle? && pool.Valid()
    }

    constructor (q: Q.Queue, pool: Pool)
      requires q.Valid() && q.pc.Idle? && pool.Valid()
      ensures Valid() && this.q == q && this.pool == pool && !dmaTrigger
    {
      this.q, this.pool, dmaTrigger := q, pool, false;
    }

    /** The packet `b` would be refused: the DMA engine is on and the queue as it stands says BUSY. */
    ghost predicate Refuses(b: Buffer)
      requires Valid()
      reads this, q, pool
    {
      dmaTrigger && OutcomeOf(q.c, q.Abs(), Skb(b.data, b.fragmented)) == Busy
    }

    /** What the queue gains if `b` is offered to it. */
    ghost function Gains(b: Buffer): seq<seq<Byte>>
      requires Valid()
      reads this, q, pool
    {
      if dmaTrigger && OutcomeOf(q.c, q.Abs(), Skb(b.data, b.fragmented)) == Sent then [b.data] else []
    }

    /**
     xpnet_start_xmit over xpnet_hard_start_xmit. TX_BUSY exactly when the queue as the call finds it
     refuses the packet, and then the buffer has not been touched; otherwise it has been freed,
     whether the packet was queued or dropped.
     */
    method StartXmit(p: nat) returns (rc: NetdevTx)
      requires Valid() && p in pool.live
      modifies q, pool`live
      ensures Valid()
      ensures rc.TxBusy? <==> old(Refuses(pool.live[p]))
      ensures pool.live == if rc.TxOk? then old(pool.live) - {p} else old(pool.live)
      ensures q.accepted == old(q.accepted) + old(Gains(pool.live[p]))
    {
      hide OutcomeOf;
      if !dmaTrigger {
        pool.Free(p);
        return TxOk;
      }
      var out := q.HardStartXmit(Skb(pool.live[p].data, pool.live[p].fragmented));
      if out.Busy? {
        return TxBusy;
      }
      pool.Free(p);
      q.TxComplete(out);
      rc := TxOk;
    }

    /** The packet that goes to the queue for buffer `b`: the header, then the data. */
    function Framed(b: Buffer, header: seq<Byte>): Buffer {
      Buffer(header + b.data, if b.headroom < |header| then 0 else b.headroom - |header|, b.fragmented)
    }

    /**
     xp_ndo_start_xmit. TX_BUSY exactly when the interface is up and the queue refuses header and data.
     TX_OK: the caller's buffer is gone, and so is the copy if one was made. TX_BUSY: the caller's
     buffer is live and no copy is left behind; it is as the caller gave it if and only if a copy was
     made, which is when its headroom is too small; otherwise it has grown by the header. The netdev's
     queue is then stopped.
     */
    method NdoStartXmit(dev: Netdev, p: nat, header: seq<Byte>) returns (rc: NetdevTx)
      requires Valid() && p in pool.live && |header| == 24
      modifies q, pool, dev`stopped
      ensures Valid()
      ensures rc.TxBusy? <==> dev.up && old(Refuses(Framed(pool.live[p], header)))
      ensures dev.stopped == (old(dev.stopped) || rc.TxBusy?)
      ensures rc.TxOk? ==> pool.live == old(pool.live) - {p}
      ensures rc.TxBusy? ==>
        pool.live == if old(pool.live)[p].headroom < 24 then old(pool.live)
                     else old(pool.live)[p := Pushed(old(pool.live)[p], header)]
      ensures q.accepted == old(q.accepted) + if dev.up then old(Gains(Framed(pool.live[p], header))) else []
    {
      hide OutcomeOf;
      if !dev.up {
        pool.Free(p);
        return TxOk;
      }
      rc := SendFramed(p, header);
      if rc.TxBusy? {
        dev.stopped := true;
      }
    }

    /** The middle of xp_ndo_start_xmit: a copy if there is no room, the header, and who frees what. */
    method SendFramed(p: nat, header: seq<Byte>) returns (rc: NetdevTx)
      requires Valid() && p in pool.live && |header| == 24
      modifies q, pool
      ensures Valid()
      ensures rc.TxBusy? <==> old(Refuses(Framed(pool.live[p], header)))
      ensures rc.TxOk? ==> pool.live == old(pool.live) - {p}
      ensures rc.TxBusy? ==>
        pool.live == if old(pool.live)[p].headroom < 24 then old(pool.live)
                     else old(pool.live)[p := Pushed(old(pool.live)[p], header)]
      ensures q.accepted == old(q.accepted) + old(Gains(Framed(pool.live[p], header)))
    {
      hide OutcomeOf;
      if pool.live[p].headroom < HEADER_LEN {
        var c := pool.CopyExpand(p, HEADER_LEN);
        pool.Push(c, header);
        rc := StartXmit(c);
        if rc.TxOk? {
          pool.Free(p);
        } else {
          pool.Free(c);
        }
      } else {
        pool.Push(p, header);
        rc := StartXmit(p);
      }
    }

    /**
     A packet offered again after TX_BUSY. BUSY has stopped the netdev's queue, so that takes an
     xp_ndo_open, with the device at work in between. The first attempt is refused exactly when the queue
     says so; what the second one then adds to the queue is the packet with its header if the first made
     a copy, and otherwise the packet with its header twice.
     */
    method Retry(dev: Netdev, p: nat, header: seq<Byte>) returns (first: NetdevTx, second: NetdevTx)
      requires Valid() && p in pool.live && |header| == 24 && dev.up
      modifies q, pool, dev`stopped
      ensures Valid()
      ensures first.TxBusy? <==> old(Refuses(Framed(pool.live[p], header)))
      ensures dev.stopped == if first.TxBusy? then second.TxBusy? else old(dev.stopped)
      ensures first.TxBusy? && q.accepted != old(q.accepted) ==>
        q.accepted == old(q.accepted) +
          [if old(pool.live)[p].headroom < 24 then header + old(pool.live)[p].data
           else header + (header + old(pool.live)[p].data)]
    {
      hide OutcomeOf;
      first := NdoStartXmit(dev, p, header);
      second := first;
      if first.TxBusy? {
        q.DeviceRuns();
        dev.Open();
        second := NdoStartXmit(dev, p, header);
      }
    }

    /** The buffer of a datagram without its UDP header. */
    function Stripped(b: Buffer): Buffer
      requires |b.data| >= 8
    {
      b.(data := b.data[8..], headroom := b.headroom + 8)
    }

    /**
     xp_packet_send: the buffer dequeued from the socket, without its UDP header, goes straight to
     xpnet_start_xmit. It leaks exactly when the queue as it stands refuses it, since nobody frees it.
     */
    method PacketSend(p: nat) returns (rc: NetdevTx)
      requires Valid() && p in pool.live && |pool.live[p].data| >= 8
      modifies q, pool
      ensures Valid()
      ensures p in pool.live <==> old(Refuses(Stripped(pool.live[p])))
      ensures pool.live.Keys == old(pool.live.Keys) - if p in pool.live then {} else {p}
      ensures q.accepted == old(q.accepted) + old(Gains(Stripped(pool.live[p])))
    {
      hide OutcomeOf;
      var b := pool.live[p];
      pool.live := pool.live[p := b.(data := b.data[UDP_HEADER..], headroom := b.headroom + UDP_HEADER)];
      rc := StartXmit(p);
    }
  }

  /**
   The header sent twice, under the A0 flag: a run in which header and data are refused and the retry,
   with the header pushed again, is accepted.
   */
  lemma HeaderTwiceHappens(c: D.Config, buf: seq<seq<Byte>>, p: seq<Byte>, header: seq<Byte>, data: seq<Byte>)
    returns (steps: seq<Step>, more: seq<Step>)
    requires Allocated(c, buf) && c.a0 && 0 < |p| <= (c.n - 1) * SEGMENT
    requires |header| == 24 && 2 * 24 + |data| <= SEGMENT
    ensures OutcomeOf(c, After(c, buf, steps), Skb(header + data, false)) == Busy
    ensures |more| > 0 && more[0] == Xmit(Skb(header + data, false))
    ensures After(c, buf, steps + more).accepted == [p, header + (header + data)]
  {
    hide OutcomeOf, After;
    steps, more := TxRuns.RefusedThenAccepted(c, buf, p, header + data, header + (header + data));
  }
}
