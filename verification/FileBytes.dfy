/** A file is a sequence of bytes: what reading and patching blocks means for it. */
module FileBytes {
  import opened BlockFormat
  import opened BlockTree
  import opened BlockMapping

  ghost predicate Fits(f: Place -> int, blocks: seq<Bytes>, p: Place) {
    0 < f(p) < |blocks| && |blocks[f(p)]| == BSIZE
  }

  /** The place of the block that holds byte o of inode i. */
  function PlaceOf(i: int, o: nat): Place {
    Place(i, FileSlot(o / 1024))
  }

  ghost function ByteAt(f: Place -> int, blocks: seq<Bytes>, i: int, o: nat): int {
    if Fits(f, blocks, PlaceOf(i, o)) then blocks[f(PlaceOf(i, o))][o % 1024] else 0
  }

  /** The contents of inode i. */
  ghost function Content(f: Place -> int, blocks: seq<Bytes>, i: int, size: nat): (s: seq<int>)
    ensures |s| == size
  {
    seq(size, o requires 0 <= o < size => ByteAt(f, blocks, i, o))
  }

  /** All files as sequences of bytes. */
  ghost function AllFiles(f: Place -> int, blocks: seq<Bytes>, sizes: seq<int>): (r: seq<seq<int>>)
    requires forall j :: 0 <= j < |sizes| ==> 0 <= sizes[j]
    ensures |r| == |sizes| && forall j :: 0 <= j < |sizes| ==> |r[j]| == sizes[j]
  {
    seq(|sizes|, j requires 0 <= j < |sizes| => Content(f, blocks, j, sizes[j]))
  }

  /** s with d written at off, extended if d goes beyond its end. */
  function Patch(s: seq<int>, off: nat, d: seq<int>): (r: seq<int>)
    requires off <= |s|
  {
    s[..off] + d + if off + |d| < |s| then s[off + |d|..] else []
  }

  lemma PatchAt(s: seq<int>, off: nat, d: seq<int>, o: nat)
    requires off <= |s| && o < |Patch(s, off, d)|
    ensures |Patch(s, off, d)| == if off + |d| < |s| then |s| else off + |d|
    ensures Patch(s, off, d)[o] == if off <= o < off + |d| then d[o - off] else if o < |s| then s[o] else 0
  {
  }

  lemma PlaceInjective(i: int, o: nat, j: int, u: nat)
    ensures PlaceOf(i, o) == PlaceOf(j, u) <==> i == j && o / 1024 == u / 1024
    ensures PlaceOf(i, o).k != INDIRECT
  {
  }

  /** bmap leaves every byte of every mapped block alone. */
  lemma MappedByte(f0: Place -> int, b0: seq<Bytes>, f1: Place -> int, b1: seq<Bytes>, p: Place, addr: int, i: int, o: nat)
    requires Mapped(f0, b0, f1, b1, p, addr) && Fits(f0, b0, PlaceOf(i, o))
    ensures Fits(f1, b1, PlaceOf(i, o)) && ByteAt(f1, b1, i, o) == ByteAt(f0, b0, i, o)
  {
    PlaceInjective(i, o, i, o);
  }

  /** Writing block f(p) changes the bytes of that file block and no others. */
  lemma PatchedByte(f: Place -> int, b: seq<Bytes>, i: int, off: nat, v: Bytes, j: int, o: nat)
    requires Fits(f, b, PlaceOf(i, off)) && |v| == BSIZE
    requires f(PlaceOf(j, o)) == f(PlaceOf(i, off)) ==> PlaceOf(j, o) == PlaceOf(i, off)
    ensures ByteAt(f, b[f(PlaceOf(i, off)) := v], j, o)
         == if j == i && o / 1024 == off / 1024 then v[o % 1024] else ByteAt(f, b, j, o)
  {
    PlaceInjective(i, off, j, o);
  }

  /** A run of m bytes from off stays inside one block. */
  lemma InBlock(off: nat, m: nat, o: nat)
    requires 0 < m <= 1024 - off % 1024
    ensures off <= o < off + m <==> o / 1024 == off / 1024 && off % 1024 <= o % 1024 < off % 1024 + m
    ensures off <= o < off + m ==> o - off == o % 1024 - off % 1024
  {
  }

  // ----- Writing d at off in file i -----

  /** Every byte that was there keeps its value, except that bytes off.. of file i are now d. */
  ghost predicate Written(f0: Place -> int, b0: seq<Bytes>, f1: Place -> int, b1: seq<Bytes>, i: int, off: nat, d: seq<int>) {
    forall j, o: nat {:trigger ByteAt(f1, b1, j, o)} {:trigger PlaceOf(j, o)} ::
      Fits(f0, b0, PlaceOf(j, o)) || (j == i && off <= o < off + |d|) ==>
        && Fits(f1, b1, PlaceOf(j, o))
        && ByteAt(f1, b1, j, o) == if j == i && off <= o < off + |d| then d[o - off] else ByteAt(f0, b0, j, o)
  }

  lemma MappedWritten(f0: Place -> int, b0: seq<Bytes>, f1: Place -> int, b1: seq<Bytes>, p: Place, addr: int, i: int, off: nat)
    requires Mapped(f0, b0, f1, b1, p, addr)
    ensures Written(f0, b0, f1, b1, i, off, [])
  {
    forall j, o: nat | Fits(f0, b0, PlaceOf(j, o))
      ensures Fits(f1, b1, PlaceOf(j, o)) && ByteAt(f1, b1, j, o) == ByteAt(f0, b0, j, o)
    {
      MappedByte(f0, b0, f1, b1, p, addr, j, o);
    }
  }

  /** The block with d written at r. */
  function Splice(b: Bytes, r: nat, d: seq<int>): (v: Bytes)
    requires r + |d| <= |b|
    ensures |v| == |b|
    ensures forall k :: 0 <= k < |b| ==> v[k] == if r <= k < r + |d| then d[k - r] else b[k]
  {
    b[..r] + d + b[r + |d|..]
  }

  lemma SpliceWritten(f: Place -> int, b: seq<Bytes>, i: int, off: nat, d: seq<int>)
    requires Fits(f, b, PlaceOf(i, off)) && 0 < |d| <= 1024 - off % 1024
    requires forall p, q :: f(p) == f(q) && f(p) != 0 ==> p == q
    ensures var a := f(PlaceOf(i, off)); Written(f, b, f, b[a := Splice(b[a], off % 1024, d)], i, off, d)
  {
    var a := f(PlaceOf(i, off));
    var v := Splice(b[a], off % 1024, d);
    forall j, o: nat | Fits(f, b, PlaceOf(j, o)) || (j == i && off <= o < off + |d|)
      ensures Fits(f, b[a := v], PlaceOf(j, o))
      ensures ByteAt(f, b[a := v], j, o) == if j == i && off <= o < off + |d| then d[o - off] else ByteAt(f, b, j, o)
    {
      InBlock(off, |d|, o);
      PlaceInjective(i, off, j, o);
      PatchedByte(f, b, i, off, v, j, o);
    }
  }

  lemma {:induction false} WrittenTwice(
    f0: Place -> int, b0: seq<Bytes>, f1: Place -> int, b1: seq<Bytes>, f2: Place -> int, b2: seq<Bytes>,
    i: int, off: nat, d: seq<int>, e: seq<int>)
    requires Written(f0, b0, f1, b1, i, off, d) && Written(f1, b1, f2, b2, i, off + |d|, e)
    ensures Written(f0, b0, f2, b2, i, off, d + e)
  {
    forall j, o: nat | Fits(f0, b0, PlaceOf(j, o)) || (j == i && off <= o < off + |d + e|)
      ensures Fits(f2, b2, PlaceOf(j, o))
      ensures ByteAt(f2, b2, j, o) == if j == i && off <= o < off + |d + e| then (d + e)[o - off] else ByteAt(f0, b0, j, o)
    {
      assert PlaceOf(j, o) == PlaceOf(j, o);
    }
  }

  /** All the blocks of inode i below size are there. */
  ghost predicate Whole(f: Place -> int, blocks: seq<Bytes>, i: int, size: int) {
    forall o: nat {:trigger PlaceOf(i, o)} :: o < size ==> Fits(f, blocks, PlaceOf(i, o))
  }

  /** Writing d at off patches the contents of file i ... */
  lemma {:induction false} WrittenContent(f0: Place -> int, b0: seq<Bytes>, f1: Place -> int, b1: seq<Bytes>, i: int, size: nat, off: nat, d: seq<int>)
    requires Written(f0, b0, f1, b1, i, off, d) && Whole(f0, b0, i, size) && off <= size
    ensures var size' := if off + |d| > size then off + |d| else size;
            Whole(f1, b1, i, size') && Content(f1, b1, i, size') == Patch(Content(f0, b0, i, size), off, d)
  {
    var size' := if off + |d| > size then off + |d| else size;
    forall o: nat | o < size'
      ensures Fits(f1, b1, PlaceOf(i, o)) && ByteAt(f1, b1, i, o) == Patch(Content(f0, b0, i, size), off, d)[o]
    {
      PatchAt(Content(f0, b0, i, size), off, d, o);
    }
  }

  /** ... and leaves those of every other file alone. */
  lemma WrittenElsewhere(f0: Place -> int, b0: seq<Bytes>, f1: Place -> int, b1: seq<Bytes>, i: int, off: nat, d: seq<int>, j: int, size: nat)
    requires Written(f0, b0, f1, b1, i, off, d) && Whole(f0, b0, j, size) && j != i
    ensures Whole(f1, b1, j, size) && Content(f1, b1, j, size) == Content(f0, b0, j, size)
  {
    forall o: nat | o < size
      ensures Fits(f1, b1, PlaceOf(j, o)) && ByteAt(f1, b1, j, o) == ByteAt(f0, b0, j, o)
    {
    }
  }
}
