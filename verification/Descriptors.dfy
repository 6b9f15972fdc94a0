/** Descriptors in DMA memory, shared by driver and device. */
module Descriptors {

  import Bits

  /** qword[0..3]: flags, length, buffer address, address of the next descriptor. */
  datatype Desc = Desc(w0: nat, w1: nat, w2: nat, w3: nat)

  predicate Own(d: Desc) { Bits.Bit(d.w0, 4) }
  predicate Err(d: Desc) { Bits.Bit(d.w0, 0) }

  /** The ownership bit is bit 4 of the flag word, the error bit is bit 0. */
  lemma FlagPositions(d: Desc)
    ensures Own(d) <==> d.w0 / 16 % 2 == 1
    ensures Err(d) <==> d.w0 % 2 == 1
  {
    Bits.ShrLow(d.w0, 4);
    assert Bits.Pow2(4) == 16;
  }

  const OWNERSHIP: nat := 16
  const SOP: nat := 8
  const EOP: nat := 4
  const DESC_SIZE: nat := 32

  /**
   What set-up fixes: the number of descriptors, the A0 hardware flag, whether the device
   needs word-swapped data, the DMA address of the ring and of each shard buffer.
   */
  datatype Config = Config(n: nat, a0: bool, swap: bool, base: nat, dma: seq<nat>)

  ghost predicate ValidConfig(c: Config) {
    c.n >= 2 && c.base > 0 && |c.dma| == c.n && DistinctPages(c)
  }

  ghost predicate DistinctPages(c: Config) {
    forall i, j :: 0 <= i < j < |c.dma| ==> c.dma[i] != c.dma[j]
  }

  function DescAddr(c: Config, i: nat): nat { c.base + DESC_SIZE * i }
}
