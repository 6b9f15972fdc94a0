/** xp_dev_reg_read and xp_dev_reg_write on a little-endian register file. */
module RegisterFile {

  import opened Bits
  import opened Shards
  import Ring

  /** Little-endian number in the `k` bytes at `a`. */
  function Get(m: seq<Byte>, a: nat, k: nat): nat
    requires a + k <= |m|
    decreases k
  {
    if k == 0 then 0 else m[a] + 256 * Get(m, a + 1, k - 1)
  }

  /** The `k` bytes at `a` replaced by the low bytes of `v`. */
  function Put(m: seq<Byte>, a: nat, k: nat, v: nat): (r: seq<Byte>)
    requires a + k <= |m|
    ensures |r| == |m|
    decreases k
  {
    if k == 0 then m else Put(m[a := v % 256], a + 1, k - 1, v / 256)
  }

  /** 256^k, the values of a unit of `k` bytes. */
  function Range(k: nat): (r: nat)
    ensures r > 0
  {
    if k == 0 then 1 else 256 * Range(k - 1)
  }

  /** Successive units of `k` bytes from `a` on. */
  function GetAll(m: seq<Byte>, a: nat, k: nat, count: nat): (r: seq<nat>)
    requires a + k * count <= |m|
    ensures |r| == count
  {
    if count == 0 then [] else GetAll(m, a, k, count - 1) + [Get(m, a + k * (count - 1), k)]
  }

  function PutAll(m: seq<Byte>, a: nat, k: nat, vs: seq<nat>): (r: seq<Byte>)
    requires a + k * |vs| <= |m|
    ensures |r| == |m|
    decreases |vs|
  {
    if vs == [] then m
    else Put(PutAll(m, a, k, vs[..|vs| - 1]), a + k * (|vs| - 1), k, vs[|vs| - 1])
  }

  // ------------------------------------------------------------------ one unit

  /** A unit's bytes change and no others. */
  lemma {:induction false} PutFrame(m: seq<Byte>, a: nat, k: nat, v: nat)
    requires a + k <= |m|
    ensures Put(m, a, k, v)[..a] == m[..a] && Put(m, a, k, v)[a + k..] == m[a + k..]
    decreases k
  {
    if k > 0 {
      var m' := m[a := v % 256];
      PutFrame(m', a + 1, k - 1, v / 256);
      var r := Put(m', a + 1, k - 1, v / 256);
      assert r[..a] == r[..a + 1][..a] == m'[..a + 1][..a] == m[..a];
    }
  }

  /** Reading depends on the bytes read. */
  lemma {:induction false} GetFrame(m: seq<Byte>, m': seq<Byte>, a: nat, k: nat)
    requires a + k <= |m| == |m'| && forall i :: a <= i < a + k ==> m[i] == m'[i]
    ensures Get(m, a, k) == Get(m', a, k)
    decreases k
  {
    if k > 0 {
      GetFrame(m, m', a + 1, k - 1);
    }
  }

  /** Reading a unit back gives the written value cut to the unit. */
  lemma {:induction false} GetPut(m: seq<Byte>, a: nat, k: nat, v: nat)
    requires a + k <= |m|
    ensures Get(Put(m, a, k, v), a, k) == v % Range(k)
    decreases k
  {
    if k > 0 {
      var m' := m[a := v % 256];
      GetPut(m', a + 1, k - 1, v / 256);
      PutFrame(m', a + 1, k - 1, v / 256);
      var r := Put(m', a + 1, k - 1, v / 256);
      assert r[a] == r[..a + 1][a] == m'[..a + 1][a] == v % 256;
      ModRange(v, k);
    }
  }

  lemma ModRange(v: nat, k: nat)
    requires k > 0
    ensures v % Range(k) == v % 256 + 256 * (v / 256 % Range(k - 1))
  {
    var r := Range(k - 1);
    var q, t := v / 256 / r, v / 256 % r;
    assert v / 256 == q * r + t;
    assert v == q * (256 * r) + (256 * t + v % 256) by {
      assert v == 256 * (v / 256) + v % 256;
      assert 256 * (q * r) == q * (256 * r);
    }
    Ring.ModUnique(v, q, 256 * t + v % 256, 256 * r);
  }

  lemma {:induction false} GetBound(m: seq<Byte>, a: nat, k: nat)
    requires a + k <= |m|
    ensures Get(m, a, k) < Range(k)
    decreases k
  {
    if k > 0 {
      GetBound(m, a + 1, k - 1);
    }
  }

  /** The word the small-unit write stores: `(value & ~mask) | (v & mask)`. */
  function Merge(value: nat, v: nat, bits: nat): nat
    requires bits <= 32
  {
    Or(And(v, Pow2(bits) - 1), And(value, Shl(Pow2(32 - bits) - 1, bits)))
  }

  lemma MergeIsSum(value: nat, v: nat, bits: nat)
    requires bits <= 32 && value < Pow2(32)
    ensures Merge(value, v, bits) == Low(v, bits) + (value - Low(value, bits))
  {
    hide And, Or, Low, Shr, Shl, Pow2;
    AndMask(v, bits);
    AndHigh(value, Pow2(32 - bits) - 1, bits);
    AndMask(Shr(value, bits), 32 - bits);
    TopBits(value, bits);
    Split(v, bits);
    Split(value, bits);
    OrDisjoint(Low(v, bits), Shr(value, bits), bits);
  }

  lemma TopBits(value: nat, bits: nat)
    requires bits <= 32 && value < Pow2(32)
    ensures Low(Shr(value, bits), 32 - bits) == Shr(value, bits)
  {
    ShrOfLow(value, bits, 32 - bits);
    LowSmall(value, 32);
  }

  lemma Ranges()
    ensures Range(1) == Pow2(8) == 256 && Range(2) == Pow2(16) == 0x1_0000 && Range(4) == Pow2(32) == WORD32
  {
    assert Pow2(8) == 256;
    assert Pow2(16) == 256 * Pow2(8) by { assert Pow2(12) == 16 * Pow2(8); }
    assert Pow2(24) == 256 * Pow2(16) by { assert Pow2(20) == 16 * Pow2(16); }
    assert Pow2(32) == 256 * Pow2(24) by { assert Pow2(28) == 16 * Pow2(24); }
  }

  function Word(b0: nat, b1: nat, b2: nat, b3: nat): nat {
    b0 + 256 * (b1 + 256 * (b2 + 256 * b3))
  }

  /** Replacing the lowest byte, or the lowest two, of a word of four. */
  lemma WordBytes(b0: nat, b1: nat, b2: nat, b3: nat, x: nat)
    requires b0 < 256 && b1 < 256 && b2 < 256 && b3 < 256 && x < 256
    ensures Word(b0, b1, b2, b3) % 256 == b0 && Word(b0, b1, b2, b3) % 0x1_0000 == b0 + 256 * b1
    ensures var w := Word(x, b1, b2, b3); w % 256 == x && w / 256 % 256 == b1 && w / 256 / 256 % 256 == b2 && w / 256 / 256 / 256 % 256 == b3
  {
    var h := b1 + 256 * (b2 + 256 * b3);
    assert Word(b0, b1, b2, b3) == b0 + 256 * h && Word(x, b1, b2, b3) / 256 == h;
    assert h / 256 == b2 + 256 * b3 && h % 256 == b1;
    assert Word(b0, b1, b2, b3) == b0 + 256 * b1 + 0x1_0000 * (b2 + 256 * b3);
  }

  lemma GetFour(m: seq<Byte>, a: nat)
    requires a + 4 <= |m|
    ensures Get(m, a, 4) == Word(m[a], m[a + 1], m[a + 2], m[a + 3])
  {
    assert Get(m, a + 4, 0) == 0 && Get(m, a + 3, 1) == m[a + 3];
    assert Get(m, a + 2, 2) == m[a + 2] as nat + 256 * (m[a + 3] as nat);
  }

  lemma PutSmall(m: seq<Byte>, a: nat, v: nat)
    requires a + 2 <= |m|
    ensures Put(m, a, 1, v) == m[a := v % 256]
    ensures Put(m, a, 2, v) == m[a := v % 256][a + 1 := v / 256 % 256]
  {
    var m' := m[a := v % 256];
    assert Put(m', a + 1, 0, v / 256) == m';
    assert Put(m', a + 1, 1, v / 256) == Put(m'[a + 1 := v / 256 % 256], a + 2, 0, v / 256 / 256);
  }

  /** A word that differs from the stored one in its low byte, or its low two bytes, only. */
  lemma MergedWord(g: nat, k: nat, v: nat, w: nat, b0: nat, b1: nat, b2: nat, b3: nat)
    requires b0 < 256 && b1 < 256 && b2 < 256 && b3 < 256 && g == Word(b0, b1, b2, b3) && (k == 1 || k == 2)
    requires w == if k == 1 then v % 256 + (g - g % 256) else v % 0x1_0000 + (g - g % 0x1_0000)
    ensures w == Word(v % 256, if k == 1 then b1 else v / 256 % 256, b2, b3)
  {
    WordBytes(b0, b1, b2, b3, 0);
    assert v % 0x1_0000 == v % 256 + 256 * (v / 256 % 256);
  }

  lemma PutLow(m: seq<Byte>, a: nat, k: nat, v: nat, w: nat)
    requires a + 4 <= |m| && (k == 1 || k == 2)
    requires var g := Get(m, a, 4); w == if k == 1 then v % 256 + (g - g % 256) else v % 0x1_0000 + (g - g % 0x1_0000)
    ensures Put(m, a, 4, w) == Put(m, a, k, v)
  {
    hide Put, Get, Word;
    GetFour(m, a);
    var x, y := v % 256, if k == 1 then m[a + 1] as nat else v / 256 % 256;
    MergedWord(Get(m, a, 4), k, v, w, m[a], m[a + 1], m[a + 2], m[a + 3]);
    WordBytes(m[a], y, m[a + 2], m[a + 3], x);
    StoreBytes(m, a, w);
    PutSmall(m, a, v);
    SameFour(m, a, x, y, m[a + 2], m[a + 3]);
  }

  lemma SameFour(m: seq<Byte>, a: nat, x: Byte, y: Byte, z: Byte, u: Byte)
    requires a + 4 <= |m| && z == m[a + 2] && u == m[a + 3]
    ensures m[a := x][a + 1 := y][a + 2 := z][a + 3 := u] == m[a := x][a + 1 := y]
    ensures y == m[a + 1] ==> m[a := x][a + 1 := y] == m[a := x]
  {
  }

  /** The 32-bit read-modify-write of a small unit is a write of that unit alone. */
  lemma SmallUnitWrite(m: seq<Byte>, a: nat, k: nat, v: nat)
    requires a + 4 <= |m| && (k == 1 || k == 2)
    ensures Put(m, a, 4, Merge(Get(m, a, 4), v, 8 * k)) == Put(m, a, k, v)
  {
    hide Merge, Put, Get, Pow2, Range, Low;
    Ranges();
    GetBound(m, a, 4);
    var g := Get(m, a, 4);
    MergeIsSum(g, v, 8 * k);
    ShrLow(g, 8 * k);
    ShrLow(v, 8 * k);
    PutLow(m, a, k, v, Merge(g, v, 8 * k));
  }

  // ------------------------------------------------------------------- methods

  const EINVAL: int := 22

  /** xp_dev_reg_read. */
  method RegRead(mem: array<Byte>, addr: nat, size: nat, count: nat) returns (rc: int, values: seq<nat>)
    requires size in {1, 2, 4} ==> addr + size * count <= mem.Length
    ensures rc == if size in {1, 2, 4} then 0 else -22
    ensures size in {1, 2, 4} ==> values == GetAll(mem[..], addr, size, count)
    ensures size !in {1, 2, 4} ==> values == []
  {
    hide Get;
    rc, values := 0, [];
    if size != 1 && size != 2 && size != 4 {
      return -EINVAL, [];
    }
    for i := 0 to count
      invariant addr + size * i <= mem.Length
      invariant values == GetAll(mem[..], addr, size, i)
    {
      values := values + [Get(mem[..], addr + size * i, size)];
    }
  }

  /** A 32-bit store. */
  method Store(mem: array<Byte>, a: nat, v: nat)
    requires a + 4 <= mem.Length
    modifies mem
    ensures mem[..] == Put(old(mem[..]), a, 4, v)
  {
    ghost var was := mem[..];
    mem[a] := v % 256;
    mem[a + 1] := v / 256 % 256;
    mem[a + 2] := v / 256 / 256 % 256;
    mem[a + 3] := v / 256 / 256 / 256 % 256;
    StoreBytes(was, a, v);
  }

  lemma StoreBytes(m: seq<Byte>, a: nat, v: nat)
    requires a + 4 <= |m|
    ensures Put(m, a, 4, v) ==
            m[a := v % 256][a + 1 := v / 256 % 256][a + 2 := v / 256 / 256 % 256][a + 3 := v / 256 / 256 / 256 % 256]
  {
    var m1 := m[a := v % 256];
    var m2 := m1[a + 1 := v / 256 % 256];
    var m3 := m2[a + 2 := v / 256 / 256 % 256];
    assert Put(m, a, 4, v) == Put(m1, a + 1, 3, v / 256);
    assert Put(m1, a + 1, 3, v / 256) == Put(m2, a + 2, 2, v / 256 / 256);
    assert Put(m2, a + 2, 2, v / 256 / 256) == Put(m3, a + 3, 1, v / 256 / 256 / 256);
  }

  /**
   xp_dev_reg_write: small units go through a 32-bit read-modify-write, which needs the whole word
   of the last unit to be mapped.
   */
  method RegWrite(mem: array<Byte>, values: seq<nat>, addr: nat, size: nat) returns (rc: int)
    requires size in {1, 2, 4} && values != [] ==> addr + size * (|values| - 1) + 4 <= mem.Length
    modifies mem
    ensures rc == if size in {1, 2, 4} then 0 else -22
    ensures size in {1, 2, 4} && values != [] ==> mem[..] == PutAll(old(mem[..]), addr, size, values)
    ensures size !in {1, 2, 4} || values == [] ==> mem[..] == old(mem[..])
  {
    hide Put, Get, Merge;
    if size != 1 && size != 2 && size != 4 {
      return -EINVAL;
    }
    ghost var was := mem[..];
    for i := 0 to |values|
      invariant addr + size * i <= mem.Length || i == 0
      invariant i > 0 ==> mem[..] == PutAll(was, addr, size, values[..i])
      invariant i == 0 ==> mem[..] == was
    {
      var a := addr + size * i;
      UnitFits(addr, size, i, |values|, mem.Length);
      ghost var before := mem[..];
      if size == 4 {
        Store(mem, a, values[i]);
      } else {
        SmallUnitWrite(before, a, size, values[i]);
        Store(mem, a, Merge(Get(mem[..], a, 4), values[i], 8 * size));
      }
      assert values[..i + 1][..i] == values[..i];
    }
    assert values[..|values|] == values;
    rc := 0;
  }

  lemma UnitFits(addr: nat, size: nat, i: nat, n: nat, length: nat)
    requires i < n && 1 <= size <= 4 && addr + size * (n - 1) + 4 <= length
    ensures addr + size * i + 4 <= length && addr + size * (i + 1) <= length
  {
    assert size * i <= size * (n - 1);
    assert size * (i + 1) == size * i + size;
  }

  // ---------------------------------------------------------------- properties

  /** A write changes only the addressed bytes. */
  lemma {:induction false} WriteFrame(m: seq<Byte>, a: nat, k: nat, vs: seq<nat>, i: nat)
    requires a + k * |vs| <= |m| && i < |m| && !(a <= i < a + k * |vs|)
    ensures PutAll(m, a, k, vs)[i] == m[i]
    decreases |vs|
  {
    hide Put;
    if vs != [] {
      var n := |vs| - 1;
      assert k * |vs| == k * n + k;
      WriteFrame(m, a, k, vs[..n], i);
      var r := PutAll(m, a, k, vs[..n]);
      PutFrame(r, a + k * n, k, vs[n]);
      var p := Put(r, a + k * n, k, vs[n]);
      if i < a {
        assert p[..a + k * n][i] == r[..a + k * n][i];
      } else {
        assert p[a + k * n + k..][i - (a + k * n + k)] == r[a + k * n + k..][i - (a + k * n + k)];
      }
    }
  }

  function Truncated(vs: seq<nat>, k: nat): seq<nat> {
    if vs == [] then [] else Truncated(vs[..|vs| - 1], k) + [vs[|vs| - 1] % Range(k)]
  }

  /** Reading the written range back returns the values cut to the unit size. */
  lemma {:induction false} WriteReadRoundTrip(m: seq<Byte>, a: nat, k: nat, vs: seq<nat>)
    requires a + k * |vs| <= |m|
    ensures GetAll(PutAll(m, a, k, vs), a, k, |vs|) == Truncated(vs, k)
    decreases |vs|
  {
    hide Put, Get, Range;
    if vs != [] {
      var n := |vs| - 1;
      assert k * |vs| == k * n + k;
      var r := PutAll(m, a, k, vs[..n]);
      var p := Put(r, a + k * n, k, vs[n]);
      WriteReadRoundTrip(m, a, k, vs[..n]);
      PutFrame(r, a + k * n, k, vs[n]);
      forall i | 0 <= i < a + k * n
        ensures p[i] == r[i]
      {
        assert p[..a + k * n][i] == r[..a + k * n][i];
      }
      GetAllFrame(r, p, a, k, n);
      GetPut(r, a + k * n, k, vs[n]);
      assert Truncated(vs, k) == Truncated(vs[..n], k) + [vs[n] % Range(k)];
    }
  }

  lemma {:induction false} GetAllFrame(m: seq<Byte>, m': seq<Byte>, a: nat, k: nat, count: nat)
    requires a + k * count <= |m| == |m'| && forall i :: 0 <= i < a + k * count ==> m[i] == m'[i]
    ensures GetAll(m, a, k, count) == GetAll(m', a, k, count)
    decreases count
  {
    if count > 0 {
      assert k * count == k * (count - 1) + k;
      GetAllFrame(m, m', a, k, count - 1);
      GetFrame(m, m', a + k * (count - 1), k);
    }
  }

  // -------------------------------------------------------------------- in numbers

  /** A unit is the little-endian number in its bytes. */
  lemma UnitBytes(m: seq<Byte>, a: nat)
    ensures a + 1 <= |m| ==> Get(m, a, 1) == m[a]
    ensures a + 2 <= |m| ==> Get(m, a, 2) == (m[a] as nat) + 256 * (m[a + 1] as nat)
    ensures a + 4 <= |m| ==>
      Get(m, a, 4) == (m[a] as nat) + 256 * (m[a + 1] as nat) + 65536 * (m[a + 2] as nat) + 16777216 * (m[a + 3] as nat)
  {
    if a + 4 <= |m| {
      GetFour(m, a);
    }
  }

  /** The i-th value read is the i-th unit of the range. */
  lemma {:induction false} UnitAt(m: seq<Byte>, a: nat, k: nat, count: nat, i: nat)
    requires a + k * count <= |m| && i < count
    ensures a + k * i + k <= |m| && GetAll(m, a, k, count)[i] == Get(m, a + k * i, k)
    decreases count
  {
    hide Get;
    assert k * count == k * (count - 1) + k;
    if i < count - 1 {
      UnitAt(m, a, k, count - 1, i);
    }
  }

  /** And the i-th value that comes back after a write is the low byte, word or double word of the i-th written. */
  lemma {:induction false} TruncatedAt(vs: seq<nat>, k: nat, i: nat)
    requires i < |vs| && k in {1, 2, 4}
    ensures |Truncated(vs, k)| == |vs|
    ensures Truncated(vs, k)[i] == vs[i] % (if k == 1 then 256 else if k == 2 then 65536 else 4294967296)
    decreases |vs|
  {
    RangeIs();
    var n := |vs| - 1;
    if i < n {
      TruncatedAt(vs[..n], k, i);
    } else if n > 0 {
      TruncatedAt(vs[..n], k, 0);
    }
  }

  lemma RangeIs()
    ensures Range(1) == 256 && Range(2) == 65536 && Range(4) == 4294967296
  {
    assert Range(3) == 256 * 65536;
  }
}
