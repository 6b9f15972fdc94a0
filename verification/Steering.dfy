/** xp_rx_skb_process: from a receive header to the socket or the netdevs that get the packet. */
module Steering {

  import opened Bits
  import opened Options
  import R = Registry
  import H = RegistryHistory
  import T = Traps

  /** The fields of xphRxHdr the driver looks at. */
  datatype Header = Header(port: nat, vif2: nat, vif1: nat, vif0: nat, bd0: nat, bd1: nat, rcMsb: nat, rcLsb: nat)

  /** The fields have the widths of the header's bit fields. */
  predicate Widths(x: Header) {
    && x.port < 256 && x.vif2 < 256 && x.vif1 < 256 && x.vif0 < 16
    && x.bd0 < 256 && x.bd1 < 256 && x.rcMsb < 256 && x.rcLsb < 4
  }

  datatype Info = Info(port: nat, intf: nat, rif: nat, rc: nat)

  /** xp_rx_skb_info_get. */
  function InfoGet(x: Header): Info {
    var intf := Or(Shl(Or(Shl(x.vif2, 8), x.vif1), 4), x.vif0);
    var bd := Or(Shl(x.bd0, 8), x.bd1);
    Info(x.port, intf, if bd < R.OFFSET_BD then bd + R.OFFSET_BD else bd, Or(Shl(x.rcMsb, 2), x.rcLsb))
  }

  lemma {:induction false} OrComm(a: nat, b: nat)
    ensures Or(a, b) == Or(b, a)
  {
    if a > 0 && b > 0 {
      OrComm(a / 2, b / 2);
    }
  }

  lemma Concatenates(hi: nat, lo: nat, k: nat)
    requires lo < Pow2(k)
    ensures Or(Shl(hi, k), lo) == hi * Pow2(k) + lo
  {
    OrComm(Shl(hi, k), lo);
    OrDisjoint(lo, hi, k);
    ShlIsMul(hi, k);
  }

  /** The shifts and ors put the fields side by side. */
  lemma InfoIs(x: Header)
    requires Widths(x)
    ensures var i := InfoGet(x);
            && i.port == x.port < 256
            && i.intf == (x.vif2 * 256 + x.vif1) * 16 + x.vif0 < 0x10_0000
            && i.rif == 65536 + x.bd0 * 256 + x.bd1 && 65536 <= i.rif < 131072
            && i.rc == x.rcMsb * 4 + x.rcLsb < 1024
  {
    hide Or, Shl;
    assert Pow2(8) == 256 && Pow2(4) == 16 && Pow2(2) == 4;
    Concatenates(x.vif2, x.vif1, 8);
    Concatenates(x.vif2 * 256 + x.vif1, x.vif0, 4);
    Concatenates(x.bd0, x.bd1, 8);
    Concatenates(x.rcMsb, x.rcLsb, 2);
  }

  /** The number looked up first: the port, if the interface is a front-panel port or a LAG. */
  function VifKey(i: Info): nat {
    if i.intf < R.MAX_FP || R.MIN_LAG <= i.intf < R.MAX_LAG then i.port else R.NO_NUMBER
  }

  function Hit(r: Option<nat>): seq<nat> {
    if r.None? then [] else [r.value]
  }

  /** The netdevs that get a copy, as pointers. */
  ghost function Netdevs(h: R.Hash, ops: seq<R.Op>, i: Info): seq<nat> {
    var s := R.Exec(h, ops);
    R.ExecInv(h, ops);
    R.BucketsLive(h, s, h(VifKey(i)));
    R.BucketsLive(h, s, h(i.rif));
    (if VifKey(i) != R.NO_NUMBER then Hit(R.Lookup(h, s, VifKey(i))) else []) + Hit(R.Lookup(h, s, i.rif))
  }

  /** xp_rx_skb_netdev_process, the netdev part. */
  method NetdevProcess(g: R.NetdevRegistry, i: Info) returns (to: seq<nat>)
    requires g.Valid()
    ensures to == Netdevs(g.h, g.history, i)
  {
    hide R.Exec, R.Lookup;
    var vif := R.NO_NUMBER;
    to := [];
    if i.intf < R.MAX_FP || R.MIN_LAG <= i.intf < R.MAX_LAG {
      vif := i.port;
    }
    if vif != R.NO_NUMBER {
      var e := g.LookupNumber(vif);
      to := Hit(e);
    }
    var f := g.LookupNumber(i.rif);
    to := to + Hit(f);
  }

  /**
   In every state the registry can get into and for every header, a packet reaches at most two
   netdevs and never the same one twice: one front-panel port at most, one router interface at most.
   */
  lemma NoDuplicateDelivery(h: R.Hash, ops: seq<R.Op>, x: Header)
    requires Widths(x)
    ensures var to := Netdevs(h, ops, InfoGet(x));
            && |to| <= 2
            && (|to| == 2 ==> to[0] != to[1])
            && (forall k :: 0 <= k < |to| ==> to[k] in R.Exec(h, ops).list)
            && (forall k :: 0 <= k < |to| ==> !R.Exec(h, ops).mem[to[k]].kind.Lag?)
  {
    hide R.Exec, InfoGet, R.Lookup, R.BucketLive, R.KindOf, VifKey, Widths;
    InfoIs(x);
    var i := InfoGet(x);
    PortHit(h, ops, i);
    RifHit(h, ops, i.rif);
    var s := R.Exec(h, ops);
    var vif := if VifKey(i) != R.NO_NUMBER then Hit(R.Lookup(h, s, VifKey(i))) else [];
    var rif := Hit(R.Lookup(h, s, i.rif));
    Joined(s, vif, rif);
    assert Netdevs(h, ops, i) == vif + rif;
  }

  lemma Joined(s: R.State, vif: seq<nat>, rif: seq<nat>)
    requires R.Shape(s) && |vif| <= 1 && |rif| <= 1
    requires forall p :: p in vif ==> p in s.list && s.mem[p].kind == R.Fp
    requires forall p :: p in rif ==> p in s.list && s.mem[p].kind == R.Router
    ensures var to := vif + rif;
            && |to| <= 2 && (|to| == 2 ==> to[0] != to[1])
            && (forall k :: 0 <= k < |to| ==> to[k] in s.list && !s.mem[to[k]].kind.Lag?)
  {
    assert |vif| == 1 ==> vif[0] in vif;
    assert |rif| == 1 ==> rif[0] in rif;
  }

  lemma PortHit(h: R.Hash, ops: seq<R.Op>, i: Info)
    requires i.port < 256
    ensures var s := R.Exec(h, ops);
            VifKey(i) != R.NO_NUMBER ==>
              && R.BucketLive(s, h(VifKey(i)))
              && forall p :: p in Hit(R.Lookup(h, s, VifKey(i))) ==> p in s.list && s.mem[p].kind == R.Fp
  {
    hide R.Exec, R.Lookup, R.KindOf;
    if VifKey(i) != R.NO_NUMBER {
      HitIs(h, ops, VifKey(i));
      PortKind(VifKey(i));
    }
  }

  lemma RifHit(h: R.Hash, ops: seq<R.Op>, m: nat)
    requires R.OFFSET_BD <= m != R.NO_NUMBER
    ensures var s := R.Exec(h, ops);
            && R.BucketLive(s, h(m))
            && forall p :: p in Hit(R.Lookup(h, s, m)) ==> p in s.list && s.mem[p].kind == R.Router
  {
    hide R.Exec, R.Lookup, R.KindOf;
    HitIs(h, ops, m);
    RifKind(m);
  }

  /** What a lookup that finds something has found. */
  lemma HitIs(h: R.Hash, ops: seq<R.Op>, m: nat)
    requires m != R.NO_NUMBER
    ensures var s := R.Exec(h, ops);
            && R.BucketLive(s, h(m))
            && (var r := R.Lookup(h, s, m);
                r.Some? ==> r.value in s.list && s.mem[r.value].num == m && R.KindOf(m) == Some(s.mem[r.value].kind))
  {
    hide R.Exec, R.Lookup;
    R.LookupIsNewestLinked(h, ops, m, 0);
  }

  lemma PortKind(m: nat)
    requires m < 256
    ensures R.KindOf(m) == None || R.KindOf(m) == Some(R.Fp)
  {
  }

  lemma RifKind(m: nat)
    requires R.OFFSET_BD <= m
    ensures R.KindOf(m) == None || R.KindOf(m) == Some(R.Router)
  {
  }

  /** An interface linked to a LAG number never gets a packet: the key looked up for a LAG is the port. */
  lemma LagNeverReceives(h: R.Hash, ops: seq<R.Op>, x: Header, p: nat)
    requires Widths(x) && p in R.Exec(h, ops).list
    requires R.MIN_LAG <= R.Exec(h, ops).mem[p].num < R.MAX_LAG
    ensures p !in Netdevs(h, ops, InfoGet(x))
  {
    hide R.Exec, InfoGet, R.Lookup;
    InfoIs(x);
    var i := InfoGet(x);
    if VifKey(i) != R.NO_NUMBER {
      R.LookupIsNewestLinked(h, ops, VifKey(i), p);
    }
    R.LookupIsNewestLinked(h, ops, i.rif, p);
  }

  /** Some header reaches interface `p`. */
  ghost predicate CanReceive(h: R.Hash, ops: seq<R.Op>, p: nat) {
    exists x :: Widths(x) && p in Netdevs(h, ops, InfoGet(x))
  }

  /** Interface `p` is linked, not to a LAG number, and no live interface was linked to its number later. */
  ghost predicate Selectable(s: R.State, p: nat)
    requires R.Shape(s) && p in s.list
  {
    && R.Linked(s.mem[p]) && !s.mem[p].kind.Lag?
    && !exists q :: q in s.list && s.mem[q].num == s.mem[p].num && s.mem[q].since > s.mem[p].since
  }

  /** A look-up that finds `p` has found the newest interface of its number. */
  lemma FoundIsNewest(h: R.Hash, ops: seq<R.Op>, m: nat, p: nat)
    requires m != R.NO_NUMBER && p in R.Exec(h, ops).list
    ensures var s := R.Exec(h, ops);
            && R.BucketLive(s, h(m))
            && (R.Lookup(h, s, m) == Some(p) ==>
                  && s.mem[p].num == m && R.KindOf(m) == Some(s.mem[p].kind)
                  && forall q :: q in s.list && s.mem[q].num == m ==> s.mem[q].since <= s.mem[p].since)
  {
    hide R.Exec, R.Lookup;
    var s := R.Exec(h, ops);
    HitIs(h, ops, m);
    if R.Lookup(h, s, m) == Some(p) {
      forall q | q in s.list && s.mem[q].num == m
        ensures s.mem[q].since <= s.mem[p].since
      {
        R.LookupIsNewestLinked(h, ops, m, q);
      }
    }
  }

  lemma ReceiverSelectable(h: R.Hash, ops: seq<R.Op>, x: Header, p: nat)
    requires Widths(x) && p in R.Exec(h, ops).list && p in Netdevs(h, ops, InfoGet(x))
    ensures Selectable(R.Exec(h, ops), p)
  {
    hide R.Exec, InfoGet, R.Lookup, R.KindOf;
    InfoIs(x);
    var i := InfoGet(x);
    if VifKey(i) != R.NO_NUMBER {
      FoundIsNewest(h, ops, VifKey(i), p);
      PortKind(VifKey(i));
    }
    FoundIsNewest(h, ops, i.rif, p);
    RifKind(i.rif);
  }

  /** A header that selects `p`: its port, or its bridge domain with an interface that is no port. */
  lemma HeaderFor(h: R.Hash, ops: seq<R.Op>, p: nat)
    requires p in R.Exec(h, ops).list && Selectable(R.Exec(h, ops), p)
    ensures CanReceive(h, ops, p)
  {
    hide R.Exec, InfoGet, R.Lookup;
    var s := R.Exec(h, ops);
    var m := s.mem[p].num;
    R.HashedIffLinked(h, ops, p, p, h(m));
    R.LookupIsNewestLinked(h, ops, m, p);
    var x := if m < R.MAX_FP then Header(m, 0, 0, 0, 0, 0, 0, 0)
             else Header(0, 255, 255, 0, (m - R.OFFSET_BD) / 256, (m - R.OFFSET_BD) % 256, 0, 0);
    InfoIs(x);
    assert p in Netdevs(h, ops, InfoGet(x));
  }

  /**
   An interface can receive packets if and only if it is linked to a front-panel port or a router
   interface and is the newest one linked to that number.
   */
  lemma ReceivesIff(h: R.Hash, ops: seq<R.Op>, p: nat)
    requires p in R.Exec(h, ops).list
    ensures CanReceive(h, ops, p) <==> Selectable(R.Exec(h, ops), p)
  {
    hide R.Exec, InfoGet, Selectable, Netdevs;
    forall x | Widths(x) && p in Netdevs(h, ops, InfoGet(x))
      ensures Selectable(R.Exec(h, ops), p)
    {
      ReceiverSelectable(h, ops, x, p);
    }
    if Selectable(R.Exec(h, ops), p) {
      HeaderFor(h, ops, p);
    }
  }

  /** Interface `p` is the one most recently linked to number `m` of those that still hold it. */
  ghost predicate NewestAt(s: R.State, p: nat, m: nat)
    requires R.Shape(s) && p in s.list
  {
    && s.mem[p].num == m
    && !exists q :: q in s.list && s.mem[q].num == m && s.mem[q].since > s.mem[p].since
  }

  /** The interface a packet came in on, out of the three fields of the header. */
  function Ivif(x: Header): nat { (x.vif2 * 256 + x.vif1) * 16 + x.vif0 }

  /**
   Who gets a packet. An interface does if and only if it is the newest one linked to the ingress port and
   the packet came in on a front-panel port or a LAG, or it is the newest one linked to the router
   interface of the packet's bridge domain.
   */
  lemma DeliveredIff(h: R.Hash, ops: seq<R.Op>, x: Header, p: nat)
    requires Widths(x) && p in R.Exec(h, ops).list
    ensures var s := R.Exec(h, ops);
            p in Netdevs(h, ops, InfoGet(x)) <==>
              || ((Ivif(x) < 128 || 4096 <= Ivif(x) < 5019) && NewestAt(s, p, x.port))
              || NewestAt(s, p, 65536 + 256 * x.bd0 + x.bd1)
  {
    hide R.Exec, InfoGet, R.Lookup, NewestAt, Netdevs, Widths, VifKey;
    InfoIs(x);
    var i := InfoGet(x);
    NetdevsAre(h, ops, i, p);
    FoundIff(h, ops, x.port, p);
    FoundIff(h, ops, i.rif, p);
  }

  /** The two look-ups behind the list of netdevs, with the ranges in numbers. */
  lemma NetdevsAre(h: R.Hash, ops: seq<R.Op>, i: Info, p: nat)
    requires i.port != 0xFFFF_FFFF
    ensures var s := R.Exec(h, ops);
            && R.BucketLive(s, h(i.port)) && R.BucketLive(s, h(i.rif))
            && (p in Netdevs(h, ops, i) <==>
                  || ((i.intf < 128 || 4096 <= i.intf < 5019) && R.Lookup(h, s, i.port) == Some(p))
                  || R.Lookup(h, s, i.rif) == Some(p))
  {
    hide R.Exec, R.Lookup, R.Inv, R.BucketLive;
    var s := R.Exec(h, ops);
    R.ExecInv(h, ops);
    R.BucketsLive(h, s, h(i.port));
    R.BucketsLive(h, s, h(i.rif));
  }

  lemma FoundIff(h: R.Hash, ops: seq<R.Op>, m: nat, p: nat)
    requires m != 0xFFFF_FFFF && p in R.Exec(h, ops).list
    ensures var s := R.Exec(h, ops); R.BucketLive(s, h(m)) && (R.Lookup(h, s, m) == Some(p) <==> NewestAt(s, p, m))
  {
    hide R.Exec, R.Lookup, R.KindOf;
    FoundIsNewest(h, ops, m, p);
    R.LookupIsNewestLinked(h, ops, m, p);
  }

  lemma NewestIff(h: R.Hash, ops: seq<R.Op>, p: nat, m: nat)
    requires m != 0xFFFF_FFFF && p in R.Exec(h, ops).list
    ensures var s := R.Exec(h, ops); NewestAt(s, p, m) <==> H.Newest(ops, s.mem[p].id, m)
  {
    hide R.Exec, H.Number, H.LinkedAt, H.Exists;
    var s := R.Exec(h, ops);
    H.ListsMem(h, ops);
    H.EntryOf(h, ops, p);
    if NewestAt(s, p, m) {
      forall other | H.Number(ops, other) == Some(m)
        ensures H.LinkedAt(ops, other) <= H.LinkedAt(ops, s.mem[p].id)
      {
        var q := H.HolderOf(h, ops, other, m);
      }
    }
    if H.Newest(ops, s.mem[p].id, m) {
      forall q | q in s.list && s.mem[q].num == m
        ensures s.mem[q].since <= s.mem[p].since
      {
        H.EntryOf(h, ops, q);
      }
    }
  }

  /** The same in terms of the messages alone: which interface id gets a packet after which history. */
  lemma DeliveredByHistory(h: R.Hash, ops: seq<R.Op>, x: Header, p: nat)
    requires Widths(x) && p in R.Exec(h, ops).list
    ensures var id := R.Exec(h, ops).mem[p].id;
            p in Netdevs(h, ops, InfoGet(x)) <==>
              || ((Ivif(x) < 128 || 4096 <= Ivif(x) < 5019) && H.Newest(ops, id, x.port))
              || H.Newest(ops, id, 65536 + 256 * x.bd0 + x.bd1)
  {
    hide R.Exec, InfoGet, Netdevs, NewestAt, H.Newest;
    DeliveredIff(h, ops, x, p);
    NewestIff(h, ops, p, x.port);
    NewestIff(h, ops, p, 65536 + 256 * x.bd0 + x.bd1);
  }

  /** Where the packet ended up. */
  datatype Outcome = ToCallback | ToSocket(sock: nat) | ToNetdevs(mirrored: bool, to: seq<nat>) | Dropped

  /**
   xp_rx_skb_process: the trap table decides on the channel, and a packet for the netdev channel goes
   to the interfaces its header selects.
   */
  method SkbProcess(traps: T.TrapTable, g: R.NetdevRegistry, mirror: bool, x: Header) returns (o: Outcome)
    requires traps.Valid() && g.Valid()
    modifies traps
    ensures traps.Valid() && traps.history == old(traps.history) + [T.Packet(InfoGet(x).rc)]
    ensures o == match T.RouteOf(old(traps.history), InfoGet(x).rc)
                 case Callback => ToCallback
                 case Socket(sock) => ToSocket(sock)
                 case Netdev => ToNetdevs(mirror, Netdevs(g.h, g.history, InfoGet(x)))
                 case Discard => Dropped
  {
    hide R.Exec, T.Exec;
    var i := InfoGet(x);
    var r := traps.Route(i.rc);
    match r
    case Callback => o := ToCallback;
    case Socket(sock) => o := ToSocket(sock);
    case Netdev =>
      var to := NetdevProcess(g, i);
      o := ToNetdevs(mirror, to);
    case Discard => o := Dropped;
  }
}
