/**
 Cutting a packet into 4 KiB shards, the word swap of A0-uncompressed devices, and what a
 receiver of the framed shards gets back.
 */
module Shards {

  type Byte = x: nat | x < 256

  const SEGMENT: nat := 4096     // XPNET_MAX_DMA_SIZE, and the size of a shard buffer
  const SHORT_PACKET: nat := 128

  // ---------------------------------------------------------------- word swap

  /** 32-bit words touched by a swap over `size` bytes: `(size - 1) / 4 + 1`. */
  function Words(size: nat): nat
    requires size >= 1
  {
    (size - 1) / 4 + 1
  }

  /** The first `words` words with their four bytes reversed. */
  function SwapWords(s: seq<Byte>, words: nat): (r: seq<Byte>)
    requires 4 * words <= |s|
    ensures |r| == |s|
  {
    seq(|s|, i requires 0 <= i < |s| => if i < 4 * words then s[i / 4 * 4 + 3 - i % 4] else s[i])
  }

  function Swapped(s: seq<Byte>, size: nat): (r: seq<Byte>)
    requires 1 <= size && 4 * Words(size) <= |s|
    ensures |r| == |s|
  {
    SwapWords(s, Words(size))
  }

  /** The swap is its own inverse and leaves the bytes behind the last word alone. */
  lemma SwapInvolution(s: seq<Byte>, size: nat)
    requires 1 <= size && 4 * Words(size) <= |s|
    ensures Swapped(Swapped(s, size), size) == s
    ensures Swapped(s, size)[4 * Words(size)..] == s[4 * Words(size)..]
    ensures size <= 4 * Words(size) < size + 4
    ensures forall i :: 0 <= i < 4 * Words(size) ==> Swapped(s, size)[i] == s[i / 4 * 4 + 3 - i % 4]
  {
    var r := Swapped(s, size);
    forall i | 0 <= i < |s|
      ensures Swapped(r, size)[i] == s[i]
    {
      if i < 4 * Words(size) {
        var j := i / 4 * 4 + 3 - i % 4;
        assert j / 4 == i / 4 && j % 4 == 3 - i % 4;
        assert j / 4 * 4 + 3 - j % 4 == i;
      }
    }
  }

  /** Last value of the loop counter of __xpnet_endian_swap32, `(buf_size - 1) / 4` in u32. */
  function SwapLimit(size: nat): nat
    requires size < 0x1_0000_0000
  {
    (if size == 0 then 0xFFFF_FFFF else size - 1) / 4
  }

  /**
   The 16-bit loop counter passes the limit after some number of increments exactly when
   the size is between 1 and 262140: the swap never ends for an empty buffer.
   */
  lemma SwapTerminates(size: nat)
    requires size < 0x1_0000_0000
    ensures (exists steps: nat :: steps % 0x1_0000 > SwapLimit(size)) <==> 1 <= size <= 262140
  {
    if 1 <= size <= 262140 {
      assert 65535 % 0x1_0000 > SwapLimit(size);
    } else {
      forall steps: nat
        ensures steps % 0x1_0000 <= SwapLimit(size)
      {
      }
    }
  }

  /** Four bytes reversed: __builtin_bswap32 on the little-endian word at `b`. */
  function BSwap(s: seq<Byte>, b: nat): (r: seq<Byte>)
    requires b + 4 <= |s|
    ensures |r| == |s|
  {
    s[..b] + [s[b + 3], s[b + 2], s[b + 1], s[b]] + s[b + 4..]
  }

  lemma SwapOneMore(s: seq<Byte>, words: nat)
    requires 4 * words + 4 <= |s|
    ensures SwapWords(s, words + 1) == BSwap(SwapWords(s, words), 4 * words)
  {
    var l, r := SwapWords(s, words + 1), BSwap(SwapWords(s, words), 4 * words);
    forall i | 0 <= i < |s|
      ensures l[i] == r[i]
    {
      if 4 * words <= i < 4 * words + 4 {
        assert i / 4 == words;
      }
    }
  }

  lemma SwapNone(s: seq<Byte>)
    ensures SwapWords(s, 0) == s
  {
  }

  method SwapWord(base: array<Byte>, b: nat)
    requires b + 4 <= base.Length
    modifies base
    ensures base[..] == BSwap(old(base[..]), b)
  {
    base[b], base[b + 1], base[b + 2], base[b + 3] := base[b + 3], base[b + 2], base[b + 1], base[b];
  }

  /**
   __xpnet_endian_swap32, in place. `ends` is false where the source's loop never ends, and nothing is
   said of the buffer then.
   */
  method EndianSwap32(base: array<Byte>, size: nat, swap: bool) returns (ends: bool)
    requires size < 0x1_0000_0000 && (swap && 1 <= size <= 262140 ==> 4 * Words(size) <= base.Length)
    modifies base
    ensures ends <==> !swap || exists steps: nat :: steps % 0x1_0000 > SwapLimit(size)
    ensures ends ==> base[..] == if swap then Swapped(old(base[..]), size) else old(base[..])
  {
    SwapTerminates(size);
    if !swap {
      return true;
    }
    if size == 0 || size > 262140 {
      return false;
    }
    SwapLoop(base, size);
    ends := true;
  }

  /** `x++` of a uint16_t. */
  function Next16(x: nat): (r: nat)
    ensures x < 0xFFFF ==> r == x + 1
  {
    (x + 1) % 0x1_0000
  }

  /** The loop over the words, with its 16-bit counter. */
  method SwapLoop(base: array<Byte>, size: nat)
    requires 1 <= size <= 262140 && 4 * Words(size) <= base.Length
    modifies base
    ensures base[..] == Swapped(old(base[..]), size)
  {
    hide Next16, SwapWords, BSwap;
    ghost var was := base[..];
    var chr := 0;
    SwapNone(was);
    while chr <= SwapLimit(size)
      invariant chr <= Words(size)
      invariant base[..] == SwapWords(was, chr)
    {
      SwapOneMore(was, chr);
      SwapWord(base, 4 * chr);
      chr := Next16(chr);
    }
  }

  // ------------------------------------------------------------------ sharding

  function NumShards(len: nat): nat {
    (len + SEGMENT - 1) / SEGMENT
  }

  /** Bytes copied into shard `k`. */
  function ChunkLen(len: nat, k: nat): nat
    requires k < NumShards(len)
  {
    if len - k * SEGMENT < SEGMENT then len - k * SEGMENT else SEGMENT
  }

  function Chunk(pkt: seq<Byte>, k: nat): (r: seq<Byte>)
    requires k < NumShards(|pkt|)
    ensures |r| == ChunkLen(|pkt|, k) && 1 <= |r| <= SEGMENT
  {
    pkt[k * SEGMENT..k * SEGMENT + ChunkLen(|pkt|, k)]
  }

  /** The length programmed into the descriptor of shard `k`. */
  function ShardLen(len: nat, k: nat): (r: nat)
    requires k < NumShards(len)
    ensures 1 <= r <= SEGMENT && 4 * Words(r) <= SEGMENT
  {
    if len < SHORT_PACKET then SHORT_PACKET else ChunkLen(len, k)
  }

  function Zeros(k: nat): (r: seq<Byte>)
    ensures |r| == k
  {
    seq(k, _ => 0)
  }

  /** memset of the first 128 bytes for a short packet. */
  function Cleared(old_: seq<Byte>, len: nat): (r: seq<Byte>)
    requires |old_| == SEGMENT
    ensures |r| == SEGMENT
  {
    if len < SHORT_PACKET then Zeros(SHORT_PACKET) + old_[SHORT_PACKET..] else old_
  }

  /** A shard buffer after __xpnet_skb_to_shards put shard `k` of `pkt` into it. */
  function ShardBuffer(old_: seq<Byte>, pkt: seq<Byte>, k: nat, swap: bool): (r: seq<Byte>)
    requires k < NumShards(|pkt|) && |old_| == SEGMENT
    ensures |r| == SEGMENT
  {
    var copied := Chunk(pkt, k) + Cleared(old_, |pkt|)[ChunkLen(|pkt|, k)..];
    if swap then Swapped(copied, ShardLen(|pkt|, k)) else copied
  }

  /**
   What a device puts on the wire for a buffer of `len` bytes: a device that needs the
   swap fetches whole words and swaps them back.
   */
  function Wire(buf: seq<Byte>, len: nat, swap: bool): (r: seq<Byte>)
    requires |buf| == SEGMENT && 1 <= len <= SEGMENT
  {
    (if swap then Swapped(buf, len) else buf)[..len]
  }

  /** The bytes of shard `k`, with a short packet padded with zeros. */
  function FrameData(pkt: seq<Byte>, k: nat): (r: seq<Byte>)
    requires k < NumShards(|pkt|)
    ensures |r| == ShardLen(|pkt|, k)
  {
    if |pkt| < SHORT_PACKET then pkt + Zeros(SHORT_PACKET - |pkt|) else Chunk(pkt, k)
  }

  /** Whatever the buffer held before, the wire carries exactly the shard's bytes. */
  lemma WireOfShard(old_: seq<Byte>, pkt: seq<Byte>, k: nat, swap: bool)
    requires k < NumShards(|pkt|) && |old_| == SEGMENT
    ensures Wire(ShardBuffer(old_, pkt, k, swap), ShardLen(|pkt|, k), swap) == FrameData(pkt, k)
  {
    var copied := Chunk(pkt, k) + Cleared(old_, |pkt|)[ChunkLen(|pkt|, k)..];
    SwapInvolution(copied, ShardLen(|pkt|, k));
    assert copied[..ShardLen(|pkt|, k)] == FrameData(pkt, k);
  }

  // ------------------------------------------------------------------- framing

  /**
   Frame `k` of packet `p`, byte by byte. A packet of less than 128 bytes goes out as one frame of 128,
   with zeros behind it; a longer one as frames of 4096 bytes and the rest.
   */
  ghost predicate Carries(f: Frame, p: seq<Byte>, k: nat) {
    if |p| < 128 then
      && k == 0 && f.sop && f.eop && |f.data| == 128
      && (forall i :: 0 <= i < 128 ==> f.data[i] == if i < |p| then p[i] else 0)
    else
      && 4096 * k < |p| && f.sop == (k == 0) && f.eop == (|p| <= 4096 * k + 4096)
      && |f.data| == (if f.eop then |p| - 4096 * k else 4096)
      && (forall i :: 0 <= i < |f.data| ==> f.data[i] == p[4096 * k + i])
  }

  /** Every packet becomes ceil(len / 4096) frames, and each carries what it should. */
  lemma FrameCarries(p: seq<Byte>, k: nat)
    requires 0 < |p|
    ensures 4096 * (NumShards(|p|) - 1) < |p| <= 4096 * NumShards(|p|)
    ensures k < NumShards(|p|) ==> Carries(FrameAt(p, k), p, k) && ShardLen(|p|, k) == |FrameAt(p, k).data|
  {
  }

  /** One descriptor's worth on the wire. */
  datatype Frame = Frame(sop: bool, eop: bool, data: seq<Byte>)

  function FrameAt(pkt: seq<Byte>, k: nat): Frame
    requires k < NumShards(|pkt|)
  {
    Frame(k == 0, k == NumShards(|pkt|) - 1, FrameData(pkt, k))
  }

  function Frames(pkt: seq<Byte>): (r: seq<Frame>)
    ensures |r| == NumShards(|pkt|)
  {
    seq(NumShards(|pkt|), k requires 0 <= k < NumShards(|pkt|) => FrameAt(pkt, k))
  }

  function AllFrames(pkts: seq<seq<Byte>>): seq<Frame> {
    if pkts == [] then [] else AllFrames(pkts[..|pkts| - 1]) + Frames(pkts[|pkts| - 1])
  }

  /** What a receiver sees of a packet. */
  function Padded(pkt: seq<Byte>): (r: seq<Byte>)
    ensures |pkt| <= |r| && r[..|pkt|] == pkt
    ensures forall i :: |pkt| <= i < |r| ==> r[i] == 0
    ensures |r| == if |pkt| < SHORT_PACKET then SHORT_PACKET else |pkt|
  {
    if |pkt| < SHORT_PACKET then pkt + Zeros(SHORT_PACKET - |pkt|) else pkt
  }

  function PaddedAll(pkts: seq<seq<Byte>>): (r: seq<seq<Byte>>)
    ensures |r| == |pkts|
    ensures forall i :: 0 <= i < |pkts| ==> r[i] == Padded(pkts[i])
  {
    seq(|pkts|, i requires 0 <= i < |pkts| => Padded(pkts[i]))
  }

  /** A receiver: collect from SOP on, deliver at EOP; `acc` is the packet under way. */
  function Deframe(acc: seq<Byte>, frames: seq<Frame>): seq<seq<Byte>>
    decreases |frames|
  {
    if frames == [] then []
    else
      var f := frames[0];
      var got := (if f.sop then [] else acc) + f.data;
      if f.eop then [got] + Deframe([], frames[1..]) else Deframe(got, frames[1..])
  }

  /** What has been collected but not delivered. */
  function Leftover(acc: seq<Byte>, frames: seq<Frame>): seq<Byte>
    decreases |frames|
  {
    if frames == [] then acc
    else
      var f := frames[0];
      var got := (if f.sop then [] else acc) + f.data;
      Leftover(if f.eop then [] else got, frames[1..])
  }

  lemma {:induction false} DeframeConcat(acc: seq<Byte>, a: seq<Frame>, b: seq<Frame>)
    ensures Deframe(acc, a + b) == Deframe(acc, a) + Deframe(Leftover(acc, a), b)
    ensures Leftover(acc, a + b) == Leftover(Leftover(acc, a), b)
    decreases |a|
  {
    if a == [] {
      assert a + b == b;
    } else {
      var f := a[0];
      var got := (if f.sop then [] else acc) + f.data;
      assert (a + b)[1..] == a[1..] + b && (a + b)[0] == f;
      DeframeConcat(if f.eop then [] else got, a[1..], b);
    }
  }

  /** Every shard but the last carries a full segment, and together they are the packet. */
  lemma {:induction false} ShardsRoundTrip(pkt: seq<Byte>, k: nat, acc: seq<Byte>)
    requires k < NumShards(|pkt|)
    requires k > 0 ==> acc == pkt[..k * SEGMENT]
    ensures forall j :: 0 <= j < NumShards(|pkt|) - 1 ==> |FrameData(pkt, j)| == SEGMENT
    ensures Deframe(acc, Frames(pkt)[k..]) == [Padded(pkt)]
    ensures Leftover(acc, Frames(pkt)[k..]) == []
    decreases NumShards(|pkt|) - k
  {
    hide Frames, FrameData, Padded;
    var rest := Frames(pkt)[k..];
    FramesFrom(pkt, k);
    var got := (if k == 0 then [] else acc) + FrameData(pkt, k);
    Collected(pkt, k, acc);
    if k < NumShards(|pkt|) - 1 {
      ShardsRoundTrip(pkt, k + 1, got);
    }
  }

  lemma FramesFrom(pkt: seq<Byte>, k: nat)
    requires k < NumShards(|pkt|)
    ensures var rest := Frames(pkt)[k..];
            rest != [] && rest[0] == FrameAt(pkt, k) && rest[1..] == Frames(pkt)[k + 1..]
    ensures forall j :: 0 <= j < NumShards(|pkt|) - 1 ==> |FrameData(pkt, j)| == SEGMENT
  {
  }

  /** The data of shard `k` behind that of the shards before it. */
  lemma Collected(pkt: seq<Byte>, k: nat, acc: seq<Byte>)
    requires k < NumShards(|pkt|) && (k > 0 ==> acc == pkt[..k * SEGMENT])
    ensures var got := (if k == 0 then [] else acc) + FrameData(pkt, k);
            got == if k == NumShards(|pkt|) - 1 then Padded(pkt) else pkt[..(k + 1) * SEGMENT]
  {
  }

  /** The frames of a sequence of packets deframe to the packets, in order. */
  lemma {:induction false} DeframeAll(pkts: seq<seq<Byte>>)
    requires forall i :: 0 <= i < |pkts| ==> |pkts[i]| > 0
    ensures Deframe([], AllFrames(pkts)) == PaddedAll(pkts)
    ensures Leftover([], AllFrames(pkts)) == []
  {
    if pkts != [] {
      var most, last := pkts[..|pkts| - 1], pkts[|pkts| - 1];
      DeframeAll(most);
      DeframeConcat([], AllFrames(most), Frames(last));
      ShardsRoundTrip(last, 0, []);
      assert Frames(last)[0..] == Frames(last);
      assert PaddedAll(pkts) == PaddedAll(most) + [Padded(last)];
    }
  }

  /** A prefix of the wire deframes to a prefix of the packets: nothing torn, swapped or repeated. */
  lemma DeframePrefix(pkts: seq<seq<Byte>>, m: nat)
    requires forall i :: 0 <= i < |pkts| ==> |pkts[i]| > 0
    requires m <= |AllFrames(pkts)|
    ensures Deframe([], AllFrames(pkts)[..m]) <= PaddedAll(pkts)
  {
    hide Deframe, AllFrames, PaddedAll, Leftover;
    var fs := AllFrames(pkts);
    DeframeAll(pkts);
    DeframeConcat([], fs[..m], fs[m..]);
    assert fs == fs[..m] + fs[m..];
  }

  lemma AllFramesAppend(pkts: seq<seq<Byte>>, p: seq<Byte>)
    ensures AllFrames(pkts + [p]) == AllFrames(pkts) + Frames(p)
  {
    assert (pkts + [p])[..|pkts|] == pkts;
  }
}
