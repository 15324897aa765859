/** Blocks as the file system reads them: bytes, bits of the free map, little-endian words of an
    indirect block. */
module BlockFormat {

  const BSIZE: nat := 1024
  const BPB: nat := 8192 // BSIZE * 8: bits of the free map per block
  const NDIRECT: nat := 12
  const NINDIRECT: nat := 256 // BSIZE / 4
  const MAXFILE: nat := 268 // NDIRECT + NINDIRECT
  const MAXBYTES: nat := 274432 // MAXFILE * BSIZE

  type Bytes = seq<int>

  ghost predicate IsBlock(b: Bytes) {
    |b| == BSIZE && forall i :: 0 <= i < BSIZE ==> 0 <= b[i] < 256
  }

  function Zeros(): (b: Bytes)
    ensures IsBlock(b)
  {
    seq(BSIZE, _ => 0)
  }

  // ----- Bits: x & (1 << k), x |= 1 << k, x &= ~(1 << k) -----

  predicate BitOf(x: nat, k: nat) {
    if k == 0 then x % 2 == 1 else BitOf(x / 2, k - 1)
  }

  function OrBit(x: nat, k: nat): nat {
    if k == 0 then (if x % 2 == 1 then x else x + 1) else 2 * OrBit(x / 2, k - 1) + x % 2
  }

  function ClearBit(x: nat, k: nat): nat {
    if k == 0 then (if x % 2 == 1 then x - 1 else x) else 2 * ClearBit(x / 2, k - 1) + x % 2
  }

  lemma {:induction false} OrBitAt(x: nat, k: nat, j: nat)
    ensures BitOf(OrBit(x, k), j) <==> j == k || BitOf(x, j)
  {
    if k > 0 && j > 0 {
      OrBitAt(x / 2, k - 1, j - 1);
    }
  }

  lemma {:induction false} ClearBitAt(x: nat, k: nat, j: nat)
    ensures BitOf(ClearBit(x, k), j) <==> j != k && BitOf(x, j)
  {
    if k > 0 && j > 0 {
      ClearBitAt(x / 2, k - 1, j - 1);
    }
  }

  function Pow2(k: nat): nat {
    if k == 0 then 1 else 2 * Pow2(k - 1)
  }

  lemma {:induction false} BitRange(x: nat, k: nat, n: nat)
    requires x < Pow2(n) && k < n
    ensures OrBit(x, k) < Pow2(n) && ClearBit(x, k) < Pow2(n)
  {
    var half := Pow2(n - 1);
    assert Pow2(n) == 2 * half;
    if k > 0 {
      assert x / 2 < half;
      BitRange(x / 2, k - 1, n - 1);
      assert OrBit(x, k) == 2 * OrBit(x / 2, k - 1) + x % 2 && ClearBit(x, k) == 2 * ClearBit(x / 2, k - 1) + x % 2;
    }
  }

  // ----- Words of an indirect block -----

  function Word(b: Bytes, j: nat): int
    requires 4 * j + 3 < |b|
  {
    b[4 * j] + 256 * b[4 * j + 1] + 65536 * b[4 * j + 2] + 16777216 * b[4 * j + 3]
  }

  function SetBytes(b: Bytes, i: nat, x: int, y: int, z: int, w: int): Bytes
    requires i + 3 < |b|
  {
    b[i := x][i + 1 := y][i + 2 := z][i + 3 := w]
  }

  function SetWord(b: Bytes, j: nat, v: nat): Bytes
    requires 4 * j + 3 < |b| && v < 0x1_0000_0000
  {
    SetBytes(b, 4 * j, v % 256, v / 256 % 256, v / 65536 % 256, v / 16777216)
  }

  lemma SetBytesAt(b: Bytes, i: nat, x: int, y: int, z: int, w: int)
    requires i + 3 < |b|
    ensures var c := SetBytes(b, i, x, y, z, w);
            && |c| == |b| && c[i] == x && c[i + 1] == y && c[i + 2] == z && c[i + 3] == w
            && forall k :: 0 <= k < |b| && !(i <= k < i + 4) ==> c[k] == b[k]
  {
  }

  /** A 32-bit value is made of its four bytes. */
  lemma Halves(v: nat)
    ensures v == v % 256 + 256 * (v / 256)
    ensures v / 256 == v / 256 % 256 + 256 * (v / 65536)
    ensures v / 65536 == v / 65536 % 256 + 256 * (v / 16777216)
  {
  }

  lemma FourBytes(v: nat)
    requires v < 0x1_0000_0000
    ensures v == v % 256 + 256 * (v / 256 % 256) + 65536 * (v / 65536 % 256) + 16777216 * (v / 16777216)
    ensures 0 <= v / 16777216 < 256
  {
    Halves(v);
  }

  lemma WordAt(b: Bytes, j: nat, v: nat, k: nat)
    requires IsBlock(b) && j < NINDIRECT && k < NINDIRECT && v < 0x1_0000_0000
    ensures IsBlock(SetWord(b, j, v))
    ensures Word(SetWord(b, j, v), k) == if k == j then v else Word(b, k)
  {
    FourBytes(v);
    SetBytesAt(b, 4 * j, v % 256, v / 256 % 256, v / 65536 % 256, v / 16777216);
  }

  lemma LowByte(x: int, r: int, y: int, q: int)
    requires 0 <= x < 256 && 0 <= y < 256 && x + 256 * r == y + 256 * q
    ensures x == y && r == q
  {
  }

  /** The bytes of a word can be read back. */
  lemma WordBytes(b: Bytes, c: Bytes, j: nat)
    requires IsBlock(b) && IsBlock(c) && j < NINDIRECT && Word(b, j) == Word(c, j)
    ensures forall k :: 4 * j <= k < 4 * j + 4 ==> b[k] == c[k]
  {
    var i := 4 * j;
    LowByte(b[i], b[i + 1] + 256 * (b[i + 2] + 256 * b[i + 3]), c[i], c[i + 1] + 256 * (c[i + 2] + 256 * c[i + 3]));
    LowByte(b[i + 1], b[i + 2] + 256 * b[i + 3], c[i + 1], c[i + 2] + 256 * c[i + 3]);
    LowByte(b[i + 2], b[i + 3], c[i + 2], c[i + 3]);
  }

  /** A block is determined by its words. */
  lemma WordsDetermine(b: Bytes, c: Bytes)
    requires IsBlock(b) && IsBlock(c) && forall j {:trigger Word(b, j)} :: 0 <= j < NINDIRECT ==> Word(b, j) == Word(c, j)
    ensures b == c
  {
    forall k | 0 <= k < BSIZE
      ensures b[k] == c[k]
    {
      assert Word(b, k / 4) == Word(c, k / 4);
      WordBytes(b, c, k / 4);
    }
  }
}
