/** Indirect blocks as bytes, and what allocating a block does to the blocks of files. */
module BlockMapping {
  import opened BlockFormat
  import opened FreeMap
  import opened BlockTree

  /** ptrs is what the indirect blocks hold. */
  ghost predicate PtrRep(blocks: seq<Bytes>, ptrs: map<int, seq<int>>) {
    forall a :: a in ptrs ==> 0 <= a < |blocks| && PtrBlock(blocks[a], ptrs[a])
  }

  ghost predicate PtrBlock(b: Bytes, s: seq<int>) {
    && |s| == NINDIRECT && IsBlock(b)
    && forall j {:trigger s[j]} :: 0 <= j < NINDIRECT ==> s[j] == Word(b, j) && 0 <= s[j] < 0x1_0000_0000
  }

  lemma ZeroPtrs()
    ensures PtrBlock(Zeros(), seq(NINDIRECT, _ => 0))
  {
  }

  lemma SetPtr(b: Bytes, s: seq<int>, j: nat, v: nat)
    requires PtrBlock(b, s) && j < NINDIRECT && v < 0x1_0000_0000
    ensures IsBlock(SetWord(b, j, v)) && PtrBlock(SetWord(b, j, v), s[j := v])
  {
    WordAt(b, j, v, 0);
    forall k | 0 <= k < NINDIRECT
      ensures s[j := v][k] == Word(SetWord(b, j, v), k)
    {
      WordAt(b, j, v, k);
      assert s[k] == Word(b, k);
    }
  }

  /** The slot of file block bn. */
  function FileSlot(bn: nat): nat {
    if bn < NDIRECT then bn else bn + 1
  }

  /** Data blocks other than those in s hold what they held. */
  ghost predicate SameBut(sb: Super, b0: seq<Bytes>, b1: seq<Bytes>, s: set<int>) {
    |b0| == |b1| == sb.size && forall x :: sb.datastart <= x < sb.size && x !in s ==> b1[x] == b0[x]
  }

  lemma PtrKept(sb: Super, b0: seq<Bytes>, b1: seq<Bytes>, s: set<int>, ptrs: map<int, seq<int>>)
    requires PtrRep(b0, ptrs) && SameBut(sb, b0, b1, s)
    requires forall a :: a in ptrs ==> sb.datastart <= a < sb.size && a !in s
    ensures PtrRep(b1, ptrs)
  {
  }

  // ----- What an allocation does to the data blocks of files -----

  /** No data place changes: neither its block nor what the block holds. */
  ghost predicate Quiet(f0: Place -> int, b0: seq<Bytes>, f1: Place -> int, b1: seq<Bytes>) {
    && |b0| == |b1|
    && (forall q: Place :: q.k != INDIRECT ==> f1(q) == f0(q))
    && (forall q: Place :: q.k != INDIRECT && 0 < f0(q) < |b0| ==> b1[f0(q)] == b0[f0(q)])
  }

  /** Data place p now has block addr, zeroed if it had none; addr == 0 means it still has none.
      No other data place changes. */
  ghost predicate Mapped(f0: Place -> int, b0: seq<Bytes>, f1: Place -> int, b1: seq<Bytes>, p: Place, addr: int) {
    && |b0| == |b1|
    && f1(p) == addr && (f0(p) != 0 ==> addr == f0(p))
    && (f0(p) == 0 && 0 < addr < |b1| ==> b1[addr] == Zeros())
    && (forall q: Place :: q.k != INDIRECT && q != p ==> f1(q) == f0(q))
    && (forall q: Place :: q.k != INDIRECT && 0 < f0(q) < |b0| ==> b1[f0(q)] == b0[f0(q)])
  }

  lemma QuietMapped(f0: Place -> int, b0: seq<Bytes>, f: Place -> int, b: seq<Bytes>, f1: Place -> int, b1: seq<Bytes>, p: Place, addr: int)
    requires Quiet(f0, b0, f, b) && Mapped(f, b, f1, b1, p, addr) && p.k != INDIRECT
    ensures Mapped(f0, b0, f1, b1, p, addr)
  {
    forall q: Place | q.k != INDIRECT && 0 < f0(q) < |b0|
      ensures b1[f0(q)] == b0[f0(q)]
    {
      assert f(q) == f0(q);
    }
  }

  lemma AttachQuiet(sb: Super, used: seq<bool>, t: Tree, i: int, b: int, b0: seq<Bytes>, b1: seq<Bytes>)
    requires Attachable(sb, used, t, Place(i, INDIRECT), b) && SameBut(sb, b0, b1, {b})
    ensures Quiet(t.Slots(), b0, Attach(t, Place(i, INDIRECT), b).Slots(), b1)
  {
    var t' := Attach(t, Place(i, INDIRECT), b);
    AttachShape(t, Place(i, INDIRECT), b);
    forall q: Place | q.k != INDIRECT
      ensures t'.Slots()(q) == t.Slots()(q)
      ensures t.Slots()(q) != 0 ==> b1[t.Slots()(q)] == b0[t.Slots()(q)]
    {
      if t.Has(q) {
        AttachSlots(sb, used, t, Place(i, INDIRECT), b, q);
        if t.Slot(q) != 0 {
          SlotOwned(sb, used, t, q);
        }
      }
    }
  }

  lemma AttachMapped(sb: Super, used: seq<bool>, t: Tree, p: Place, b: int, b0: seq<Bytes>, b1: seq<Bytes>)
    requires Attachable(sb, used, t, p, b) && p.k != INDIRECT && b < |b1| && b1[b] == Zeros()
    requires SameBut(sb, b0, b1, {b, t.addrs[p.ino][INDIRECT]})
    ensures Mapped(t.Slots(), b0, Attach(t, p, b).Slots(), b1, p, b)
  {
    var t' := Attach(t, p, b);
    AttachShape(t, p, b);
    AttachSlots(sb, used, t, p, b, p);
    var ip := Place(p.ino, INDIRECT);
    forall q: Place | q.k != INDIRECT
      ensures q != p ==> t'.Slots()(q) == t.Slots()(q)
      ensures t.Slots()(q) != 0 ==> b1[t.Slots()(q)] == b0[t.Slots()(q)]
    {
      if t.Has(q) {
        AttachSlots(sb, used, t, p, b, q);
        if t.Slot(q) != 0 {
          SlotOwned(sb, used, t, q);
          if t.Slot(q) == t.Slot(ip) {
            OneOwner(sb, used, t, q, ip);
          }
        }
      }
    }
  }

  lemma PtrSet(blocks: seq<Bytes>, ptrs: map<int, seq<int>>, a: int, b: Bytes, s: seq<int>)
    requires PtrRep(blocks, ptrs) && 0 <= a < |blocks| && PtrBlock(b, s)
    ensures PtrRep(blocks[a := b], ptrs[a := s])
  {
  }

  /** A free block is no indirect block. */
  lemma NotPtr(sb: Super, used: seq<bool>, t: Tree, b: int)
    requires t.Ok(sb, used) && sb.datastart <= b < sb.size && !used[b]
    ensures b !in t.ptrs
    ensures forall a :: a in t.ptrs ==> sb.datastart <= a < sb.size && a != b
  {
  }

  // ----- bmap as a whole -----

  /** The file system as bmap sees it: the tree, the block contents, and the blocks logged so far. */
  datatype View = View(t: Tree, blocks: seq<Bytes>, logged: set<int>)

  ghost function DataSlot(v: View, i: int, bn: nat): int {
    v.t.Slots()(Place(i, FileSlot(bn)))
  }

  ghost function Ind(v: View, i: int): int {
    if v.t.Shape() && 0 <= i < |v.t.addrs| then v.t.addrs[i][INDIRECT] else 0
  }

  /** Every block logged since l0 is in touched or is ind. */
  ghost predicate Within(l0: set<int>, l1: set<int>, touched: set<int>, ind: int) {
    forall x {:trigger x in l1} :: x in l1 ==> x in l0 || x in touched || x == ind >= 0
  }

  /** The indirect block, if bmap(i, bn) goes through it; -1 otherwise. */
  ghost function IndUsed(v: View, i: int, bn: nat): int {
    if bn < NDIRECT then -1 else Ind(v, i)
  }

  /** The inodes other than i are as they were. */
  ghost predicate OthersKept(a0: seq<seq<int>>, a1: seq<seq<int>>, i: int) {
    |a1| == |a0| && forall j {:trigger a1[j]} :: 0 <= j < |a0| && j != i ==> a1[j] == a0[j]
  }

  /** From v0 bmap(i, bn) returns addr in v1; apart from the indirect block the blocks it logged are in touched. */
  ghost predicate BmapPost(v0: View, v1: View, i: int, bn: nat, addr: int, touched: set<int>) {
    && OthersKept(v0.t.addrs, v1.t.addrs, i)
    && Mapped(v0.t.Slots(), v0.blocks, v1.t.Slots(), v1.blocks, Place(i, FileSlot(bn)), addr)
    && (DataSlot(v0, i, bn) != 0 ==> v1 == v0)
    && addr in touched
    && |touched| <= 1 + (if DataSlot(v0, i, bn) == 0 then 1 else 0) + (if bn >= NDIRECT && Ind(v0, i) == 0 then 1 else 0)
    && Within(v0.logged, v1.logged, touched, IndUsed(v1, i, bn))
    && (Ind(v0, i) != 0 || bn < NDIRECT ==> Ind(v1, i) == Ind(v0, i))
  }

  /** Nothing happens: the block is there, or the disk is full. */
  lemma BmapSame(v: View, i: int, bn: nat)
    ensures BmapPost(v, v, i, bn, DataSlot(v, i, bn), {DataSlot(v, i, bn)})
  {
  }

  /** A block is allocated for the data place itself. */
  lemma BmapAttach(sb: Super, used: seq<bool>, v0: View, v1: View, i: int, bn: nat, b: int)
    requires bn < MAXFILE && Attachable(sb, used, v0.t, Place(i, FileSlot(bn)), b)
    requires v1.t == Attach(v0.t, Place(i, FileSlot(bn)), b)
    requires b < |v1.blocks| && v1.blocks[b] == Zeros() && SameBut(sb, v0.blocks, v1.blocks, {b, Ind(v0, i)})
    requires Within(v0.logged, v1.logged, {sb.MapBlock(b), b}, IndUsed(v0, i, bn))
    ensures BmapPost(v0, v1, i, bn, b, {sb.MapBlock(b), b})
  {
    AttachMapped(sb, used, v0.t, Place(i, FileSlot(bn)), b, v0.blocks, v1.blocks);
    AttachShape(v0.t, Place(i, FileSlot(bn)), b);
  }

  /** The indirect block is allocated first, then bmap goes on from there. */
  lemma BmapThrough(sb: Super, used: seq<bool>, v0: View, v: View, v1: View, i: int, bn: nat, b: int, addr: int, touched: set<int>)
    requires NDIRECT <= bn < MAXFILE && Attachable(sb, used, v0.t, Place(i, INDIRECT), b)
    requires v.t == Attach(v0.t, Place(i, INDIRECT), b) && SameBut(sb, v0.blocks, v.blocks, {b})
    requires Within(v0.logged, v.logged, {sb.MapBlock(b)}, b)
    requires BmapPost(v, v1, i, bn, addr, touched)
    ensures BmapPost(v0, v1, i, bn, addr, touched + {sb.MapBlock(b)})
  {
    AttachQuiet(sb, used, v0.t, i, b, v0.blocks, v.blocks);
    AttachShape(v0.t, Place(i, INDIRECT), b);
    QuietMapped(v0.t.Slots(), v0.blocks, v.t.Slots(), v.blocks, v1.t.Slots(), v1.blocks, Place(i, FileSlot(bn)), addr);
    assert DataSlot(v, i, bn) == DataSlot(v0, i, bn) == 0;
    assert Ind(v, i) == b && Ind(v1, i) == b;
  }
}
