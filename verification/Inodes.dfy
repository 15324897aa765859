/** Inode contents of kernel/fs.c: bmap, itrunc, readi and writei over the block allocator. */
module Inodes {
  import opened Collections
  import opened Guards
  import opened BlockFormat
  import opened FreeMap
  import opened BlockTree
  import opened BlockMapping
  import opened FileBytes
  import opened Truncation

  class FileSystem {
    const bm: BlockMap
    var addrs: seq<seq<int>> // ip->addrs of every inode
    var sizes: seq<int> // ip->size of every inode
    ghost var ptrs: map<int, seq<int>>
    ghost var owner: map<int, Place>

    ghost function Tree(): Tree
      reads this
    {
      BlockTree.Tree(addrs, ptrs, owner)
    }

    ghost predicate Valid()
      reads this, bm
    {
      bm.Valid() && bm.sb.HasInodes(|addrs|) && Tree().Ok(bm.sb, bm.used) && PtrRep(bm.blocks, ptrs)
    }

    /** A file system whose inodes are all empty and whose data blocks are all free. */
    constructor (bm: BlockMap, ninodes: nat)
      requires bm.Valid() && bm.sb.HasInodes(ninodes)
      requires forall b :: bm.sb.datastart <= b < bm.sb.size ==> !bm.used[b]
      ensures Valid() && NoHoles() && this.bm == bm && Files() == seq(ninodes, _ => [])
    {
      this.bm := bm;
      addrs := seq(ninodes, _ => seq(NDIRECT + 1, _ => 0));
      sizes := seq(ninodes, _ => 0);
      new;
      assert forall j :: 0 <= j < ninodes ==> Files()[j] == [];
      ptrs := map[];
      owner := map[];
    }

    /** balloc, on a file system whose indirect blocks then hold what they held. */
    method Grab() returns (addr: int)
      requires Valid()
      modifies bm`blocks, bm`used, bm`logged
      ensures bm.Valid() && PtrRep(bm.blocks, ptrs)
      ensures addr == 0 ==> bm.used == old(bm.used) && bm.blocks == old(bm.blocks) && bm.logged == old(bm.logged) && bm.Full()
      ensures addr != 0 ==>
                && bm.sb.datastart <= addr < bm.sb.size && !old(bm.used)[addr] && bm.used == old(bm.used)[addr := true]
                && addr !in ptrs && bm.blocks[addr] == Zeros() && SameBut(bm.sb, old(bm.blocks), bm.blocks, {addr})
                && bm.logged == old(bm.logged) + {bm.sb.MapBlock(addr), addr}
    {
      addr := bm.Balloc();
      if addr != 0 {
        NotPtr(bm.sb, old(bm.used), Tree(), addr);
        PtrKept(bm.sb, old(bm.blocks), bm.blocks, {addr}, ptrs);
      }
    }

    /** The allocation of a direct block or of the indirect block in bmap. */
    method AllocAddr(i: int, k: int) returns (addr: int)
      requires Valid() && Tree().Has(Place(i, k)) && k <= INDIRECT && addrs[i][k] == 0
      modifies this`addrs, this`ptrs, this`owner, bm`blocks, bm`used, bm`logged
      ensures Valid()
      ensures addr == 0 ==> Tree() == old(Tree()) && bm.blocks == old(bm.blocks) && bm.logged == old(bm.logged) && bm.Full()
      ensures addr != 0 ==>
                && bm.sb.datastart <= addr < bm.sb.size && !old(bm.used)[addr]
                && Tree() == Attach(old(Tree()), Place(i, k), addr)
                && bm.blocks[addr] == Zeros() && SameBut(bm.sb, old(bm.blocks), bm.blocks, {addr})
                && bm.logged == old(bm.logged) + {bm.sb.MapBlock(addr), addr}
    {
      ghost var t := Tree();
      ghost var p := Place(i, k);
      addr := Grab();
      if addr == 0 {
        return;
      }
      AttachOk(bm.sb, old(bm.used), t, p, addr);
      ZeroPtrs();
      addrs := addrs[i := addrs[i][k := addr]];
      if k == INDIRECT {
        ptrs := ptrs[addr := seq(NINDIRECT, _ => 0)];
      }
      owner := owner[addr := p];
      assert Tree() == Attach(t, p, addr);
    }

    /** a[j] = addr in the buffer of the indirect block, then log_write. */
    method StoreEntry(ind: int, j: int, addr: int)
      requires bm.Valid() && PtrRep(bm.blocks, ptrs) && ind in ptrs && bm.sb.datastart <= ind < bm.sb.size
      requires 0 <= j < NINDIRECT && 0 <= addr < bm.sb.size
      modifies this`ptrs, bm`blocks, bm`logged
      ensures bm.Valid() && PtrRep(bm.blocks, ptrs) && |old(ptrs)[ind]| == NINDIRECT
      ensures ptrs == old(ptrs)[ind := old(ptrs)[ind][j := addr]]
      ensures forall x :: 0 <= x < |bm.blocks| && x != ind ==> bm.blocks[x] == old(bm.blocks)[x]
      ensures bm.logged == old(bm.logged) + {ind}
    {
      var b := SetWord(bm.blocks[ind], j, addr);
      SetPtr(bm.blocks[ind], ptrs[ind], j, addr);
      PtrSet(bm.blocks, ptrs, ind, b, ptrs[ind][j := addr]);
      MapKept(bm.sb, bm.blocks, bm.used, ind, b);
      LogSet(bm.sb, bm.begun, bm.blocks, bm.logged, ind, b);
      bm.blocks := bm.blocks[ind := b];
      bm.logged := bm.logged + {ind};
      ptrs := ptrs[ind := ptrs[ind][j := addr]];
    }

    /** The allocation of a block listed in the indirect block, in bmap. */
    method AllocEntry(i: int, j: int) returns (addr: int)
      requires Valid() && 0 <= i < |addrs| && 0 <= j < NINDIRECT
      requires addrs[i][INDIRECT] != 0 && Tree().Slot(Place(i, INDIRECT + 1 + j)) == 0
      modifies this`addrs, this`ptrs, this`owner, bm`blocks, bm`used, bm`logged
      ensures Valid()
      ensures addr == 0 ==> Tree() == old(Tree()) && bm.blocks == old(bm.blocks) && bm.logged == old(bm.logged) && bm.Full()
      ensures addr != 0 ==>
                && bm.sb.datastart <= addr < bm.sb.size && !old(bm.used)[addr]
                && Tree() == Attach(old(Tree()), Place(i, INDIRECT + 1 + j), addr)
                && bm.blocks[addr] == Zeros() && SameBut(bm.sb, old(bm.blocks), bm.blocks, {addr, addrs[i][INDIRECT]})
                && bm.logged == old(bm.logged) + {bm.sb.MapBlock(addr), addr, addrs[i][INDIRECT]}
    {
      ghost var t := Tree();
      ghost var p := Place(i, INDIRECT + 1 + j);
      var ind := addrs[i][INDIRECT];
      SlotOwned(bm.sb, bm.used, t, Place(i, INDIRECT));
      addr := Grab();
      if addr == 0 {
        return;
      }
      AttachOk(bm.sb, old(bm.used), t, p, addr);
      AttachEntry(t, i, j, addr);
      StoreEntry(ind, j, addr);
      owner := owner[addr := p];
      assert Tree() == Attach(t, p, addr);
    }

    ghost function V(): View
      reads this, bm
    {
      View(Tree(), bm.blocks, bm.logged)
    }

    /** The block of file block bn of inode i, allocated if there is none; 0 if the disk is full. */
    method Bmap(i: int, bn: nat) returns (addr: int, ghost touched: set<int>)
      requires Valid() && 0 <= i < |addrs| && bn < MAXFILE
      modifies this`addrs, this`ptrs, this`owner, bm`blocks, bm`used, bm`logged
      ensures Valid() && BmapPost(old(V()), V(), i, bn, addr, touched) && (addr == 0 ==> bm.Full())
    {
      if bn < NDIRECT {
        ghost var v, used := V(), bm.used;
        addr := addrs[i][bn];
        BmapSame(v, i, bn);
        touched := {addr};
        if addr == 0 {
          addr := AllocAddr(i, bn);
          if addr != 0 {
            BmapAttach(bm.sb, used, v, V(), i, bn, addr);
            touched := {bm.sb.MapBlock(addr), addr};
          }
        }
      } else {
        addr, touched := BmapIndirect(i, bn);
      }
    }

    /** The part of bmap that goes through the indirect block. */
    method BmapIndirect(i: int, bn: nat) returns (addr: int, ghost touched: set<int>)
      requires Valid() && 0 <= i < |addrs| && NDIRECT <= bn < MAXFILE
      modifies this`addrs, this`ptrs, this`owner, bm`blocks, bm`used, bm`logged
      ensures Valid() && BmapPost(old(V()), V(), i, bn, addr, touched) && (addr == 0 ==> bm.Full())
    {
      ghost var v, used := V(), bm.used;
      BmapSame(v, i, bn);
      var ind := addrs[i][INDIRECT];
      if ind == 0 {
        ind := AllocAddr(i, INDIRECT);
        if ind == 0 {
          return 0, {0};
        }
        ghost var v1, f := V(), {};
        addr, f := BmapEntry(i, bn);
        BmapThrough(bm.sb, used, v, v1, V(), i, bn, ind, addr, f);
        touched := f + {bm.sb.MapBlock(ind)};
      } else {
        addr, touched := BmapEntry(i, bn);
      }
    }

    /** The entry of the indirect block, allocated if it is 0. */
    method BmapEntry(i: int, bn: nat) returns (addr: int, ghost touched: set<int>)
      requires Valid() && 0 <= i < |addrs| && NDIRECT <= bn < MAXFILE && addrs[i][INDIRECT] != 0
      modifies this`addrs, this`ptrs, this`owner, bm`blocks, bm`used, bm`logged
      ensures Valid() && BmapPost(old(V()), V(), i, bn, addr, touched) && (addr == 0 ==> bm.Full())
    {
      ghost var v, used := V(), bm.used;
      BmapSame(v, i, bn);
      var ind, j := addrs[i][INDIRECT], bn - NDIRECT;
      addr := Word(bm.blocks[ind], j);
      assert ptrs[ind][j] == addr;
      touched := {addr};
      if addr == 0 {
        addr := AllocEntry(i, j);
        if addr != 0 {
          BmapAttach(bm.sb, used, v, V(), i, bn, addr);
          touched := {bm.sb.MapBlock(addr), addr};
        }
      }
    }

    /** The log_write of iupdate; what it stores of inode i is in addrs and sizes. */
    ghost method LogInode(i: int)
      requires Valid() && 0 <= i < |addrs|
      modifies bm`logged
      ensures Valid() && bm.logged == old(bm.logged) + {bm.sb.InodeBlock(i) as int}
    {
      InodeBlockIn(bm.sb, i, |addrs|);
      bm.logged := bm.logged + {bm.sb.InodeBlock(i) as int};
    }

    // ----- Reading and writing -----

    ghost function F(): Place -> int
      reads this
    {
      Tree().Slots()
    }

    /** The contents of inode i: a sequence of bytes. */
    ghost function Contents(i: int): seq<int>
      reads this, bm
      requires 0 <= i < |sizes| && 0 <= sizes[i]
    {
      Content(F(), bm.blocks, i, sizes[i])
    }

    /** All files as sequences of bytes. */
    ghost function Files(): seq<seq<int>>
      reads this, bm
      requires forall j :: 0 <= j < |sizes| ==> 0 <= sizes[j]
    {
      AllFiles(F(), bm.blocks, sizes)
    }

    /** No file has holes or exceeds the largest size. */
    ghost predicate NoHoles()
      reads this, bm
    {
      && |sizes| == |addrs|
      && forall j :: 0 <= j < |sizes| ==> 0 <= sizes[j] <= MAXBYTES && Whole(F(), bm.blocks, j, sizes[j])
    }

    /** The file system is consistent. (Compared with true so that it is proved as one fact.) */
    ghost predicate Sound()
      reads this, bm
    {
      (Valid() && NoHoles()) == true
    }

    /** No block is free and there is none for byte off of inode i. */
    ghost predicate NoBlock(i: int, off: nat)
      reads this, bm
    {
      forall x {:trigger Bared(x)} :: Bared(x) ==> bm.Full() && F()(PlaceOf(i, off)) == 0
    }

    /** Why a write of n bytes at off0 stopped after tot: the next block is missing and none is free, or the
        next chunk cannot be read. */
    ghost predicate Stopped(i: int, src: seq<int>, off0: nat, n: nat, tot: nat)
      reads this, bm
      requires tot <= n
    {
      forall x {:trigger Bared(x)} :: Bared(x) ==> NoBlock(i, off0 + tot) || tot + ChunkLen(off0 + tot, n - tot) > |src|
    }

    lemma StoppedIs(i: int, src: seq<int>, off0: nat, n: nat, tot: nat)
      requires tot <= n
      ensures Stopped(i, src, off0, n, tot) <==> NoBlock(i, off0 + tot) || tot + ChunkLen(off0 + tot, n - tot) > |src|
    {
      assert Bared(true);
    }

    lemma NoBlockIs(i: int, off: nat)
      ensures NoBlock(i, off) <==> bm.Full() && F()(PlaceOf(i, off)) == 0
    {
      assert Bared(true);
    }

    /** bmap for the block of byte off: nothing of any file has changed yet. */
    method MapChunk(i: int, off: nat) returns (a: int, ghost touched: set<int>)
      requires Valid() && 0 <= i < |addrs| && off / 1024 < MAXFILE
      modifies this`addrs, this`ptrs, this`owner, bm`blocks, bm`used, bm`logged
      ensures Valid() && ChunkPost(old(V()), V(), i, off, [], touched) && (a == 0 ==> NoBlock(i, off))
      ensures a != 0 ==> 0 <= i < |addrs| && F()(PlaceOf(i, off)) == a && a in touched
      ensures a != 0 && off / 1024 >= NDIRECT ==> Ind(V(), i) != 0
    {
      ghost var v := V();
      a, touched := Bmap(i, off / 1024);
      ChunkMapped(v, V(), i, off, a, touched);
      NoBlockIs(i, off);
    }

    /** One turn of the loop of writei; src holds the bytes of the source up to the first that cannot be read. */
    method WriteChunk(i: int, src: seq<int>, off: nat, tot: nat, n: nat) returns (m: nat, ghost d: seq<int>, ghost touched: set<int>)
      requires Valid() && 0 <= i < |addrs| && tot < n && off + (n - tot) <= MAXBYTES && AreBytes(src)
      modifies this`addrs, this`ptrs, this`owner, bm`blocks, bm`used, bm`logged
      ensures Valid() && ChunkPost(old(V()), V(), i, off, d, touched)
      ensures if m == 0 then d == [] && (NoBlock(i, off) || tot + ChunkLen(off, n - tot) > |src|)
              else m == ChunkLen(off, n - tot) && tot + m <= |src| && d == src[tot..tot + m]
    {
      ghost var v := V();
      var a;
      a, touched := MapChunk(i, off);
      m, d := 0, [];
      if a != 0 {
        var len := ChunkLen(off, n - tot);
        if tot + len <= |src| {
          m, d := len, src[tot..tot + len];
          SliceBytes(src, tot, len);
          PutChunk(v, i, off, a, src[tot..tot + len], touched);
        }
      }
    }

    method PutChunk(ghost v: View, i: int, off: nat, a: int, d: seq<int>, ghost touched: set<int>)
      requires Valid() && 0 <= i < |addrs| && off / 1024 < MAXFILE && F()(PlaceOf(i, off)) == a != 0
      requires 0 < |d| <= 1024 - off % 1024 && AreBytes(d)
      requires ChunkPost(v, V(), i, off, [], touched) && a in touched && (off / 1024 >= NDIRECT ==> Ind(V(), i) != 0)
      modifies bm`blocks, bm`used, bm`logged
      ensures Valid() && ChunkPost(v, V(), i, off, d, touched)
    {
      ghost var v1 := V();
      PutBytes(i, off, a, d);
      ChunkPut(v, v1, V(), i, off, d, a, touched);
    }

    /** Copy d into the buffer of block a at off % 1024 and log it. */
    method PutBytes(i: int, off: nat, a: int, d: seq<int>)
      requires Valid() && 0 <= i < |addrs| && off / 1024 < MAXFILE && F()(PlaceOf(i, off)) == a != 0
      requires 0 < |d| <= 1024 - off % 1024 && AreBytes(d)
      modifies bm`blocks, bm`used, bm`logged
      ensures Valid() && bm.logged == old(bm.logged) + {a}
      ensures Written(F(), old(bm.blocks), F(), bm.blocks, i, off, d)
    {
      ghost var t, p := Tree(), PlaceOf(i, off);
      SlotOwned(bm.sb, bm.used, t, p);
      ghost var v := Splice(bm.blocks[a], off % 1024, d);
      SpliceBlock(bm.blocks[a], off % 1024, d);
      MapKept(bm.sb, bm.blocks, bm.used, a, v);
      LogSet(bm.sb, bm.begun, bm.blocks, bm.logged, a, v);
      DataNotPtr(bm.sb, bm.used, t, p);
      PtrKept(bm.sb, bm.blocks, bm.blocks[a := v], {a}, ptrs);
      SlotsInjective(bm.sb, bm.used, t);
      SpliceWritten(F(), bm.blocks, i, off, d);
      bm.blocks := bm.blocks[a := Splice(bm.blocks[a], off % 1024, d)];
      bm.logged := bm.logged + {a};
    }

    /** Valid, for a loop that only passes it on. */
    ghost predicate Held()
      reads this, bm
    {
      forall x {:trigger Shown(x)} :: Shown(x) ==> Valid()
    }

    /** One turn of the loop of writei with its bookkeeping. */
    method WriteTurn(i: int, src: seq<int>, off0: nat, n: nat, tot: nat, ghost v0: View, ghost c: Tally) returns (m: nat, ghost c': Tally)
      requires Held() && 0 <= i < |addrs| && off0 + n <= MAXBYTES && AreBytes(src) && tot < n && tot <= |src|
      requires LoopState(v0, V(), i, src, off0, n, tot, c)
      requires Started(V(), i, off0, c.turns)
      modifies this`addrs, this`ptrs, this`owner, bm`blocks, bm`used, bm`logged
      ensures Held() && |addrs| == old(|addrs|) && tot + m <= n && tot + m <= |src| && c'.turns > 0
      ensures m == 0 ==> Stopped(i, src, off0, n, tot) && LoopDone(v0, V(), i, src, off0, n, tot, c')
      ensures m > 0 ==> LoopState(v0, V(), i, src, off0, n, tot + m, c')
    {
      ghost var v := V();
      ghost var d, touched;
      HeldValid();
      m, d, touched := WriteChunk(i, src, off0 + tot, tot, n);
      ValidHeld();
      if m == 0 {
        StoppedIs(i, src, off0, n, tot);
      }
      c' := TallyNext(v, V(), i, off0 + tot, touched, c);
      StartedIs(v, i, off0, c.turns);
      LoopNext(v0, v, V(), i, src, off0, n, tot, m, d, touched, c);
    }

    /** The loop of writei. */
    method WriteLoop(i: int, src: seq<int>, off0: nat, n: nat) returns (tot: nat, ghost c: Tally)
      requires Held() && 0 <= i < |addrs| && off0 + n <= MAXBYTES && AreBytes(src) && Started(V(), i, off0, 0)
      modifies this`addrs, this`ptrs, this`owner, bm`blocks, bm`used, bm`logged
      ensures Held() && tot <= n && tot <= |src| && (tot < n ==> Stopped(i, src, off0, n, tot))
      ensures LoopDone(old(V()), V(), i, src, off0, n, tot, c)
    {
      ghost var v0 := V();
      tot := 0;
      c := Tally(0, {}, -1, 0);
      LoopStart(v0, i, src, off0, n);
      while tot < n
        invariant Held() && |addrs| == old(|addrs|) && tot <= n && tot <= |src|
        invariant LoopState(v0, V(), i, src, off0, n, tot, c)
        invariant Started(V(), i, off0, c.turns)
      {
        var m;
        m, c := WriteTurn(i, src, off0, n, tot, v0, c);
        StartedLater(V(), i, off0, c.turns);
        if m == 0 {
          return;
        }
        tot := tot + m;
      }
      LoopEnd(v0, V(), i, src, off0, n, tot, c);
    }

    lemma HeldValid()
      requires Held()
      ensures Valid()
    {
      assert Shown(true);
    }

    lemma ValidHeld()
      requires Valid()
      ensures Held()
    {
    }

    /** Write n bytes at off; src holds the bytes of the source up to the first that cannot be read. */
    method Writei(i: int, src: seq<int>, off: nat, n: nat) returns (r: int)
      requires Valid() && NoHoles() && 0 <= i < |sizes| && AreBytes(src) && off < UINT && n < UINT
      modifies this, bm`blocks, bm`used, bm`logged
      ensures Valid() && NoHoles() && |sizes| == old(|sizes|)
      ensures r == -1 <==> off > old(sizes[i]) || off + n > MAXBYTES
      ensures r == -1 ==> V() == old(V()) && sizes == old(sizes)
      ensures r != -1 ==>
                && 0 <= r <= n && r <= |src| && off <= |old(Files())[i]|
                && sizes == old(sizes)[i := Max(old(sizes[i]), off + r)]
                && Files() == old(Files())[i := Patch(old(Files())[i], off, src[..r])]
      ensures r != -1 && r < n ==> Stopped(i, src, off, n, r)
      ensures OthersKept(old(addrs), addrs, i) && (r != -1 ==> bm.sb.InodeBlock(i) as int in bm.logged)
      ensures |bm.logged - old(bm.logged)| <= 2 * Turns(off, n) + 3 - (if off % 1024 != 0 then 1 else 0)
    {
      if off > sizes[i] || (off + n) % UINT < off {
        return -1;
      }
      if off + n > MAXBYTES {
        return -1;
      }
      r := WriteWithin(i, src, off, n);
    }

    /** writei once its checks have passed. */
    method WriteWithin(i: int, src: seq<int>, off: nat, n: nat) returns (r: nat)
      requires Valid() && NoHoles() && 0 <= i < |sizes| && AreBytes(src) && off <= sizes[i] && off + n <= MAXBYTES
      modifies this, bm`blocks, bm`used, bm`logged
      ensures Valid() && NoHoles() && |sizes| == old(|sizes|)
      ensures r <= n && r <= |src| && off <= |old(Files())[i]|
      ensures sizes == old(sizes)[i := Max(old(sizes[i]), off + r)]
      ensures Files() == old(Files())[i := Patch(old(Files())[i], off, src[..r])]
      ensures r < n ==> Stopped(i, src, off, n, r)
      ensures OthersKept(old(addrs), addrs, i) && bm.sb.InodeBlock(i) as int in bm.logged
      ensures |bm.logged - old(bm.logged)| <= 2 * Turns(off, n) + 3 - (if off % 1024 != 0 then 1 else 0)
    {
      UnalignedMapped(V(), i, off, sizes[i]);
      var tot;
      ghost var v0, c := V(), Tally(0, {}, -1, 0);
      ValidHeld();
      StartedFirst(v0, i, off);
      tot, c := WriteLoop(i, src, off, n);
      HeldValid();
      TouchedBound(v0, V(), off, n, c, bm.sb.InodeBlock(i));
      FileWritten(v0, V(), i, src, off, n, tot, c, sizes);
      if off + tot > sizes[i] {
        sizes := sizes[i := off + tot];
      }
      LogInode(i);
      return tot;
    }

    /** Read n bytes at off; the destination takes avail bytes before it faults. Nothing changes. */
    method Readi(i: int, off: nat, n: nat, avail: nat) returns (r: int, data: seq<int>)
      requires Valid() && NoHoles() && 0 <= i < |sizes| && off < UINT && n < UINT
      modifies this`addrs, this`ptrs, this`owner, bm`blocks, bm`used, bm`logged
      ensures Valid() && NoHoles() && V() == old(V()) && bm.used == old(bm.used)
      ensures var want := if off > sizes[i] || off + n >= UINT then 0 else Min(n, sizes[i] - off);
              && r == (if want <= avail then want else -1)
              && data == if want == 0 then [] else old(Contents(i))[off..off + Min(want, avail)]
    {
      data := [];
      if off > sizes[i] || (off + n) % UINT < off {
        return 0, data;
      }
      var len := n;
      if off + n > sizes[i] {
        len := sizes[i] - off;
      }
      if len == 0 {
        return 0, data;
      }
      r, data := ReadLoop(i, off, len, avail);
    }

    /** The loop of readi. */
    method ReadLoop(i: int, off: nat, len: nat, avail: nat) returns (r: int, data: seq<int>)
      requires Valid() && NoHoles() && 0 <= i < |sizes| && off + len <= sizes[i]
      modifies this`addrs, this`ptrs, this`owner, bm`blocks, bm`used, bm`logged
      ensures Valid() && NoHoles() && V() == old(V()) && bm.used == old(bm.used)
      ensures r == (if len <= avail then len else -1) && data == old(Contents(i))[off..off + Min(len, avail)]
    {
      data := [];
      var tot := 0;
      ghost var c := Contents(i);
      while tot < len
        invariant Valid() && V() == old(V()) && bm.used == old(bm.used) && NoHoles()
        invariant 0 <= tot <= len && tot <= avail
        invariant data == c[off..off + tot]
      {
        var m;
        m, data := ReadTurn(i, c, off, len, tot, avail, data);
        if m == 0 {
          return -1, data;
        }
        tot := tot + m;
      }
      return tot, data;
    }

    /** One turn of the loop of readi with its copy to the destination; 0 if that faults. */
    method ReadTurn(i: int, ghost c: seq<int>, off: nat, len: nat, tot: nat, avail: nat, was: seq<int>) returns (m: nat, data: seq<int>)
      requires Valid() && NoHoles() && 0 <= i < |sizes| && off + len <= sizes[i] && tot < len && tot <= avail
      requires c == Contents(i) && was == c[off..off + tot]
      modifies this`addrs, this`ptrs, this`owner, bm`blocks, bm`used, bm`logged
      ensures Valid() && NoHoles() && V() == old(V()) && bm.used == old(bm.used)
      ensures if m == 0 then avail < len && data == c[off..off + avail]
              else m == ChunkLen(off + tot, len - tot) && tot + m <= avail && data == c[off..off + tot + m]
    {
      var ok, d := ReadChunk(i, off + tot, len - tot);
      if tot + |d| > avail {
        SliceJoin(c, off, tot, d[..avail - tot]);
        return 0, was + d[..avail - tot];
      }
      SliceJoin(c, off, tot, d);
      return |d|, was + d;
    }

    /** One turn of the loop of readi. The block is always there, so its break is never taken. */
    method ReadChunk(i: int, off: nat, n: nat) returns (ok: bool, d: seq<int>)
      requires Valid() && NoHoles() && 0 <= i < |sizes| && 0 < n && off + n <= sizes[i]
      modifies this`addrs, this`ptrs, this`owner, bm`blocks, bm`used, bm`logged
      ensures Valid() && V() == old(V()) && bm.used == old(bm.used)
      ensures ok && |d| == ChunkLen(off, n) && d == old(Contents(i))[off..off + |d|]
    {
      ghost var v, u := V(), bm.used;
      assert Fits(F(), bm.blocks, PlaceOf(i, off));
      var addr;
      ghost var touched;
      addr, touched := Bmap(i, off / 1024);
      ok := addr != 0;
      SameUsed(bm.sb, u, bm.used, v.t);
      var m := ChunkLen(off, n);
      d := bm.blocks[addr][off % 1024..off % 1024 + m];
      ChunkContent(F(), bm.blocks, i, sizes[i], off, m, addr);
    }

    /** bfree on the block of slot k, if it has one; the turn of the slot has come. */
    method FreeSlot(i: int, k: int, b: int, ghost f0: Place -> int, ghost owner0: map<int, Place>) returns (panic: bool)
      requires bm.Valid() && 0 <= k < NSLOT && b == f0(Place(i, k))
      requires forall p: Place :: f0(p) != 0 ==> 0 <= p.k < NSLOT
      requires forall x :: x in owner0 ==> 0 <= owner0[x].k < NSLOT
      requires Freeing(bm.sb, bm.used, f0, owner0, i, Turn(k))
      modifies bm`blocks, bm`used, bm`logged
      ensures !panic && bm.Valid() && Freeing(bm.sb, bm.used, f0, owner0, i, Turn(k) + 1)
      ensures SameBut(bm.sb, old(bm.blocks), bm.blocks, {})
      ensures bm.logged == old(bm.logged) + FreedMap(bm.sb, b)
    {
      FreeOne(bm.sb, bm.used, f0, owner0, i, k);
      panic := false;
      if b != 0 {
        panic := bm.Bfree(b);
      }
    }

    /** The two loops of itrunc over the blocks. */
    method FreeBlocks(i: int, ghost f0: Place -> int, ghost owner0: map<int, Place>) returns (panic: bool)
      requires Valid() && 0 <= i < |addrs| && f0 == F() && owner0 == owner
      modifies this`addrs, bm`blocks, bm`used, bm`logged
      ensures !panic && bm.Valid() && SameBut(bm.sb, old(bm.blocks), bm.blocks, {})
      ensures FreedLog(bm.sb, f0, i, NSLOT, old(bm.logged), bm.logged)
      ensures Freeing(bm.sb, bm.used, f0, owner0, i, NSLOT)
      ensures addrs == old(addrs)[i := seq(NDIRECT + 1, _ => 0)]
    {
      panic := false;
      StartFreeing(bm.sb, bm.used, Tree(), i);
      ghost var t := Tree();
      ghost var l0 := bm.logged;
      panic := FreeDirect(i, t, f0, owner0);
      panic := FreeIndirect(i, t, f0, owner0, l0);
      assert addrs[i] == seq(NDIRECT + 1, _ => 0);
    }

    /** The second part of itrunc: the indirect block and the blocks it lists. */
    method FreeIndirect(i: int, ghost t: Tree, ghost f0: Place -> int, ghost owner0: map<int, Place>, ghost l0: set<int>) returns (panic: bool)
      requires bm.Valid() && t.Shape() && 0 <= i < |t.addrs| == |addrs| && |addrs[i]| == NDIRECT + 1 && f0 == t.Slots()
      requires addrs[i][INDIRECT] == t.addrs[i][INDIRECT]
      requires t.addrs[i][INDIRECT] != 0 ==>
                 && bm.sb.datastart <= t.addrs[i][INDIRECT] < bm.sb.size
                 && PtrBlock(bm.blocks[t.addrs[i][INDIRECT]], t.ptrs[t.addrs[i][INDIRECT]])
      requires forall p: Place :: f0(p) != 0 ==> 0 <= p.k < NSLOT
      requires forall x :: x in owner0 ==> 0 <= owner0[x].k < NSLOT
      requires Freeing(bm.sb, bm.used, f0, owner0, i, NDIRECT) && FreedLog(bm.sb, f0, i, NDIRECT, l0, bm.logged)
      modifies this`addrs, bm`blocks, bm`used, bm`logged
      ensures !panic && bm.Valid() && SameBut(bm.sb, old(bm.blocks), bm.blocks, {})
      ensures Freeing(bm.sb, bm.used, f0, owner0, i, NSLOT) && FreedLog(bm.sb, f0, i, NSLOT, l0, bm.logged)
      ensures addrs == old(addrs)[i := old(addrs)[i][INDIRECT := 0]]
    {
      panic := false;
      var ind := addrs[i][INDIRECT];
      if ind != 0 {
        assert f0(Place(i, INDIRECT)) == ind;
        panic := FreeEntries(i, ind, t, f0, owner0, l0);
        FreedNext(bm.sb, f0, i, INDIRECT, l0, bm.logged);
        panic := FreeSlot(i, INDIRECT, ind, f0, owner0);
      } else {
        NoEntries(t, i);
        SkipEmpty(bm.sb, bm.used, f0, owner0, i, NDIRECT, NSLOT);
        FreedSkip(bm.sb, f0, i, NDIRECT, NSLOT, l0, bm.logged);
      }
      addrs := addrs[i := addrs[i][INDIRECT := 0]];
    }

    /** The loop of itrunc over the direct blocks. */
    method FreeDirect(i: int, ghost t: Tree, ghost f0: Place -> int, ghost owner0: map<int, Place>) returns (panic: bool)
      requires bm.Valid() && t.Shape() && 0 <= i < |t.addrs| && addrs == t.addrs && f0 == t.Slots()
      requires forall x :: x in owner0 ==> 0 <= owner0[x].k < NSLOT
      requires Freeing(bm.sb, bm.used, f0, owner0, i, 0)
      modifies this`addrs, bm`blocks, bm`used, bm`logged
      ensures !panic && bm.Valid() && SameBut(bm.sb, old(bm.blocks), bm.blocks, {})
      ensures Freeing(bm.sb, bm.used, f0, owner0, i, NDIRECT) && FreedLog(bm.sb, f0, i, NDIRECT, old(bm.logged), bm.logged)
      ensures OthersKept(t.addrs, addrs, i) && |addrs[i]| == NDIRECT + 1 && addrs[i][INDIRECT] == t.addrs[i][INDIRECT]
      ensures forall j :: 0 <= j < NDIRECT ==> addrs[i][j] == 0
    {
      panic := false;
      FreedStart(bm.sb, f0, i, bm.logged);
      for k := 0 to NDIRECT
        invariant !panic && bm.Valid() && SameBut(bm.sb, old(bm.blocks), bm.blocks, {})
        invariant Freeing(bm.sb, bm.used, f0, owner0, i, k) && FreedLog(bm.sb, f0, i, k, old(bm.logged), bm.logged)
        invariant OthersKept(t.addrs, addrs, i) && |addrs[i]| == NDIRECT + 1
        invariant forall j :: 0 <= j <= NDIRECT ==> addrs[i][j] == if j < k then 0 else t.addrs[i][j]
      {
        assert f0(Place(i, k)) == t.addrs[i][k];
        FreedNext(bm.sb, f0, i, k, old(bm.logged), bm.logged);
        panic := FreeSlot(i, k, addrs[i][k], f0, owner0);
        addrs := addrs[i := addrs[i][k := 0]];
      }
    }

    /** The loop of itrunc over the entries of the indirect block, which it does not clear. */
    method FreeEntries(i: int, ind: int, ghost t: Tree, ghost f0: Place -> int, ghost owner0: map<int, Place>, ghost l0: set<int>)
      returns (panic: bool)
      requires bm.Valid() && t.Shape() && 0 <= i < |t.addrs| && f0 == t.Slots() && t.addrs[i][INDIRECT] == ind != 0
      requires bm.sb.datastart <= ind < bm.sb.size && PtrBlock(bm.blocks[ind], t.ptrs[ind])
      requires forall x :: x in owner0 ==> 0 <= owner0[x].k < NSLOT
      requires Freeing(bm.sb, bm.used, f0, owner0, i, NDIRECT) && FreedLog(bm.sb, f0, i, NDIRECT, l0, bm.logged)
      modifies bm`blocks, bm`used, bm`logged
      ensures !panic && bm.Valid() && SameBut(bm.sb, old(bm.blocks), bm.blocks, {})
      ensures Freeing(bm.sb, bm.used, f0, owner0, i, NSLOT - 1) && FreedLog(bm.sb, f0, i, NSLOT - 1, l0, bm.logged)
    {
      panic := false;
      var a := bm.blocks[ind];
      for j := 0 to NINDIRECT
        invariant !panic && bm.Valid() && SameBut(bm.sb, old(bm.blocks), bm.blocks, {})
        invariant Freeing(bm.sb, bm.used, f0, owner0, i, NDIRECT + j) && FreedLog(bm.sb, f0, i, NDIRECT + j, l0, bm.logged)
      {
        assert t.ptrs[ind][j] == Word(a, j) && f0(Place(i, INDIRECT + 1 + j)) == t.ptrs[ind][j];
        FreedNext(bm.sb, f0, i, INDIRECT + 1 + j, l0, bm.logged);
        panic := FreeSlot(i, INDIRECT + 1 + j, Word(a, j), f0, owner0);
      }
    }

    /** Discard the contents of inode i: exactly its blocks become free, and no bfree panics. */
    method Itrunc(i: int) returns (panic: bool)
      requires Valid() && NoHoles() && 0 <= i < |sizes|
      modifies this, bm`blocks, bm`used, bm`logged
      ensures !panic && Valid() && NoHoles()
      ensures Files() == old(Files())[i := []]
      ensures forall b :: b in owner <==> b in old(owner) && old(owner)[b].ino != i
      ensures forall b :: bm.sb.datastart <= b < bm.sb.size ==> (bm.used[b] <==> old(bm.used)[b] && old(owner)[b].ino != i)
      ensures sizes == old(sizes)[i := 0] && OthersKept(old(addrs), addrs, i) && addrs[i] == seq(NDIRECT + 1, _ => 0)
      ensures bm.logged == old(bm.logged) + FreedMaps(bm.sb, old(F()), i, NSLOT) + {bm.sb.InodeBlock(i) as int}
      ensures forall b :: b in old(owner) && old(owner)[b].ino == i ==> 0 <= b && bm.sb.MapBlock(b) in bm.logged
    {
      ghost var t, blocks0 := Tree(), bm.blocks;
      ghost var f0 := F();
      panic := FreeBlocks(i, f0, owner);
      owner := OwnerCut(owner, i, NSLOT);
      ptrs := ptrs - {t.addrs[i][INDIRECT]};
      TruncatedOk(bm.sb, old(bm.used), bm.used, t, Tree(), i);
      PtrKept(bm.sb, blocks0, bm.blocks, {}, ptrs);
      TruncatedFiles(t, Tree(), blocks0, bm.blocks, i, bm.sb, old(bm.used), sizes);
      sizes := sizes[i := 0];
      FreedLogIs(bm.sb, f0, i, NSLOT, old(bm.logged), bm.logged);
      LogInode(i);
      forall b | b in t.owner && t.owner[b].ino == i
        ensures 0 <= b && bm.sb.MapBlock(b) in bm.logged
      {
        FreedMapIn(bm.sb, old(bm.used), t, i, b);
      }
    }
  }

  /** The map block of a block that itrunc frees. */
  lemma FreedMapIn(sb: Super, used: seq<bool>, t: Tree, i: int, b: int)
    requires t.Ok(sb, used) && b in t.owner && t.owner[b].ino == i
    ensures 0 <= b && sb.MapBlock(b) in FreedMaps(sb, t.Slots(), i, NSLOT)
  {
    var k := t.owner[b].k;
    assert t.Slots()(Place(i, k)) == b && 0 <= k < NSLOT;
    FreedMapAt(sb, t.Slots(), i, NSLOT, k);
  }

  lemma StartFreeing(sb: Super, used: seq<bool>, t: Tree, i: int)
    requires t.Ok(sb, used)
    ensures Freeing(sb, used, t.Slots(), t.owner, i, 0)
    ensures forall p: Place :: t.Slots()(p) != 0 ==> 0 <= p.k < NSLOT
    ensures forall x :: x in t.owner ==> 0 <= t.owner[x].k < NSLOT
  {
    forall x | x in t.owner
      ensures 0 <= t.owner[x].k < NSLOT && x in OwnerCut(t.owner, i, 0)
    {
      assert t.Slots()(t.owner[x]) == x;
    }
    assert OwnerCut(t.owner, i, 0) == t.owner;
    forall q: Place
      ensures Cut(t.Slots(), i, 0)(q) == t.Slots()(q)
    {
    }
  }

  lemma NoEntries(t: Tree, i: int)
    requires t.Shape() && 0 <= i < |t.addrs| && t.addrs[i][INDIRECT] == 0
    ensures forall k :: NDIRECT <= Turn(k) < NSLOT ==> t.Slots()(Place(i, k)) == 0
  {
  }

  /** The tree after itrunc. */
  lemma TruncatedOk(sb: Super, used: seq<bool>, used': seq<bool>, t: Tree, t': Tree, i: int)
    requires t.Ok(sb, used) && 0 <= i < |t.addrs| && Freeing(sb, used', t.Slots(), t.owner, i, NSLOT)
    requires t'.addrs == t.addrs[i := seq(NDIRECT + 1, _ => 0)]
    requires t'.owner == OwnerCut(t.owner, i, NSLOT) && t'.ptrs == t.ptrs - {t.addrs[i][INDIRECT]}
    ensures t'.Ok(sb, used')
    ensures forall q: Place :: t'.Slots()(q) == if q.ino == i then 0 else t.Slots()(q)
    ensures forall a :: a in t'.ptrs ==> sb.datastart <= a < sb.size
  {
    forall j | 0 <= j < |t.addrs| && j != i && t.addrs[j][INDIRECT] != 0
      ensures t.addrs[j][INDIRECT] != t.addrs[i][INDIRECT]
    {
      if t.addrs[j][INDIRECT] == t.addrs[i][INDIRECT] {
        OneOwner(sb, used, t, Place(j, INDIRECT), Place(i, INDIRECT));
      }
    }
    assert t'.Shape();
    forall q: Place
      ensures t'.Slots()(q) == Cut(t.Slots(), i, NSLOT)(q)
    {
    }
  }

  /** Every other file is untouched. */
  lemma TruncatedFiles(t: Tree, t': Tree, b0: seq<Bytes>, b1: seq<Bytes>, i: int, sb: Super, used: seq<bool>, sizes: seq<int>)
    requires t.Ok(sb, used) && SameBut(sb, b0, b1, {})
    requires forall q: Place :: t'.Slots()(q) == if q.ino == i then 0 else t.Slots()(q)
    requires forall j :: 0 <= j < |sizes| ==> 0 <= sizes[j] && Whole(t.Slots(), b0, j, sizes[j])
    requires 0 <= i < |sizes|
    ensures forall j :: 0 <= j < |sizes| && j != i ==> Whole(t'.Slots(), b1, j, sizes[j])
    ensures AllFiles(t'.Slots(), b1, sizes[i := 0]) == AllFiles(t.Slots(), b0, sizes)[i := []]
  {
    forall j, o: nat | 0 <= j < |sizes| && j != i && o < sizes[j]
      ensures Fits(t'.Slots(), b1, PlaceOf(j, o)) && ByteAt(t'.Slots(), b1, j, o) == ByteAt(t.Slots(), b0, j, o)
    {
      assert Fits(t.Slots(), b0, PlaceOf(j, o));
    }
    forall j | 0 <= j < |sizes| && j != i
      ensures Content(t'.Slots(), b1, j, sizes[j]) == Content(t.Slots(), b0, j, sizes[j])
    {
    }
  }

  /** The bytes of a file that lie in one block. */
  lemma ChunkContent(f: Place -> int, blocks: seq<Bytes>, i: int, size: nat, off: nat, m: nat, addr: int)
    requires f(PlaceOf(i, off)) == addr && 0 < addr < |blocks| && |blocks[addr]| == BSIZE
    requires 0 < m <= 1024 - off % 1024 && off + m <= size
    ensures blocks[addr][off % 1024..off % 1024 + m] == Content(f, blocks, i, size)[off..off + m]
  {
    var d, c := blocks[addr][off % 1024..off % 1024 + m], Content(f, blocks, i, size)[off..off + m];
    forall k | 0 <= k < m
      ensures d[k] == c[k]
    {
      ChunkByte(f, blocks, i, size, off, k);
    }
  }

  lemma ChunkByte(f: Place -> int, blocks: seq<Bytes>, i: int, size: nat, off: nat, k: nat)
    requires 0 < f(PlaceOf(i, off)) < |blocks| && |blocks[f(PlaceOf(i, off))]| == BSIZE
    requires off % 1024 + k < 1024 && off + k < size
    ensures Content(f, blocks, i, size)[off + k] == blocks[f(PlaceOf(i, off))][off % 1024 + k]
  {
    SameBlock(off, k);
  }

  lemma SameBlock(off: nat, k: nat)
    requires off % 1024 + k < 1024
    ensures (off + k) / 1024 == off / 1024 && (off + k) % 1024 == off % 1024 + k
  {
  }

  lemma SliceJoin(c: seq<int>, off: nat, tot: nat, d: seq<int>)
    requires off + tot + |d| <= |c| && d == c[off + tot..off + tot + |d|]
    ensures c[off..off + tot] + d == c[off..off + tot + |d|]
  {
  }

  /** The tree determines the free map. */
  lemma SameUsed(sb: Super, u: seq<bool>, u': seq<bool>, t: Tree)
    requires t.Ok(sb, u) && t.Ok(sb, u') && forall b :: 0 <= b < sb.datastart && b < sb.size ==> u[b] == u'[b]
    ensures u == u'
  {
    forall b | 0 <= b < sb.size
      ensures u[b] == u'[b]
    {
      if b >= sb.datastart {
        assert u[b] <==> b in t.owner;
      }
    }
  }

  const UINT: nat := 0x1_0000_0000

  function Max(a: int, b: int): int {
    if a < b then b else a
  }

  /** An unaligned offset within a file without holes lies in a block that is there. */
  lemma UnalignedMapped(v: View, i: int, off: nat, size: nat)
    requires Whole(v.t.Slots(), v.blocks, i, size) && off <= size
    ensures off % 1024 != 0 ==> DataSlot(v, i, off / 1024) != 0
  {
    if off % 1024 != 0 {
      assert PlaceOf(i, off - 1) == PlaceOf(i, off);
    }
  }

  /** What a finished loop and the inode's own block add up to. */
  lemma TouchedBound(v0: View, v: View, off: nat, n: nat, c: Tally, ib: int)
    requires Tallied(v0, v, off % 1024 != 0, c) && c.turns <= Turns(off, n)
    ensures |v.logged + {ib} - v0.logged| <= 2 * Turns(off, n) + 3 - (if off % 1024 != 0 then 1 else 0)
  {
    var t := c.touched + {c.ind, ib};
    forall x | x in v.logged + {ib} - v0.logged
      ensures x in t
    {
    }
    assert |t| <= |c.touched| + |{c.ind, ib}|;
    SubsetSize(v.logged + {ib} - v0.logged, t);
  }

  /** The effect of the loop of writei on every file. */
  lemma FileWritten(v0: View, v: View, i: int, src: seq<int>, off: nat, n: nat, tot: nat, c: Tally, sizes: seq<int>)
    requires LoopDone(v0, v, i, src, off, n, tot, c) && 0 <= i < |sizes| && 0 <= off <= sizes[i]
    requires forall j :: 0 <= j < |sizes| ==> 0 <= sizes[j] && Whole(v0.t.Slots(), v0.blocks, j, sizes[j])
    ensures var sizes' := sizes[i := Max(sizes[i], off + tot)];
            && (forall j :: 0 <= j < |sizes| ==> 0 <= sizes'[j] && Whole(v.t.Slots(), v.blocks, j, sizes'[j]))
            && var files := AllFiles(v0.t.Slots(), v0.blocks, sizes);
               AllFiles(v.t.Slots(), v.blocks, sizes') == files[i := Patch(files[i], off, src[..tot])]
  {
    WrittenContent(v0.t.Slots(), v0.blocks, v.t.Slots(), v.blocks, i, sizes[i], off, src[..tot]);
    forall j | 0 <= j < |sizes| && j != i
      ensures Whole(v.t.Slots(), v.blocks, j, sizes[j])
      ensures Content(v.t.Slots(), v.blocks, j, sizes[j]) == Content(v0.t.Slots(), v0.blocks, j, sizes[j])
    {
      WrittenElsewhere(v0.t.Slots(), v0.blocks, v.t.Slots(), v.blocks, i, off, src[..tot], j, sizes[j]);
    }
  }

  /** What the loop of writei has done when tot bytes are written. */
  ghost predicate LoopDone(v0: View, v: View, i: int, src: seq<int>, off0: nat, n: nat, tot: nat, c: Tally) {
    && tot <= |src|
    && SoFar(v0, v, i, off0, src[..tot])
    && Tallied(v0, v, off0 % 1024 != 0, c)
    && c.turns <= Turns(off0, n)
  }

  ghost predicate LoopState(v0: View, v: View, i: int, src: seq<int>, off0: nat, n: nat, tot: nat, c: Tally) {
    forall x {:trigger Shown(x)} :: Shown(x) ==>
      LoopDone(v0, v, i, src, off0, n, tot, c) && Progress(off0, n, tot, c.turns) && TallyLive(v, i, c)
  }

  /** The block of an unaligned offset is there before the first turn. */
  ghost predicate Started(v: View, i: int, off0: nat, turns: nat) {
    forall x {:trigger Shown(x)} :: Shown(x) ==> off0 % 1024 != 0 && turns == 0 ==> DataSlot(v, i, off0 / 1024) != 0
  }

  lemma StartedIs(v: View, i: int, off0: nat, turns: nat)
    requires Started(v, i, off0, turns)
    ensures off0 % 1024 != 0 && turns == 0 ==> DataSlot(v, i, off0 / 1024) != 0
  {
    assert Shown(true);
  }

  lemma StartedFirst(v: View, i: int, off0: nat)
    requires off0 % 1024 != 0 ==> DataSlot(v, i, off0 / 1024) != 0
    ensures Started(v, i, off0, 0)
  {
  }

  lemma StartedLater(v: View, i: int, off0: nat, turns: nat)
    requires turns > 0
    ensures Started(v, i, off0, turns)
  {
  }

  lemma LoopEnd(v0: View, v: View, i: int, src: seq<int>, off0: nat, n: nat, tot: nat, c: Tally)
    requires LoopState(v0, v, i, src, off0, n, tot, c)
    ensures LoopDone(v0, v, i, src, off0, n, tot, c)
  {
    assert Shown(true);
  }

  lemma LoopStart(v: View, i: int, src: seq<int>, off0: nat, n: nat)
    ensures LoopState(v, v, i, src, off0, n, 0, Tally(0, {}, -1, 0))
  {
  }

  lemma LoopNext(
    v0: View, v: View, v1: View, i: int, src: seq<int>, off0: nat, n: nat, tot: nat, m: nat, d: seq<int>, touched: set<int>, c: Tally)
    requires LoopState(v0, v, i, src, off0, n, tot, c) && tot < n
    requires ChunkPost(v, v1, i, off0 + tot, d, touched) && tot + m <= |src|
    requires if m == 0 then d == [] else m == ChunkLen(off0 + tot, n - tot) && d == src[tot..tot + m]
    requires off0 % 1024 != 0 && c.turns == 0 ==> DataSlot(v, i, off0 / 1024) != 0
    ensures var c' := TallyNext(v, v1, i, off0 + tot, touched, c);
            if m == 0 then LoopDone(v0, v1, i, src, off0, n, tot, c')
            else LoopState(v0, v1, i, src, off0, n, tot + m, c')
  {
    assert Shown(true);
    SoFarNext(v0, v, v1, i, off0, src[..tot], d, touched);
    TallyTurn(v0, v, v1, i, off0 % 1024 != 0, off0 + tot, d, touched, c);
    ProgressNext(off0, n, tot, c.turns, m);
    assert src[..tot] + d == src[..tot + m];
  }

  /** The number of blocks that n bytes from off touch. */
  function Turns(off: nat, n: nat): nat {
    (n + off % 1024 + 1023) / 1024
  }

  ghost predicate Progress(off0: nat, n: nat, tot: nat, turns: nat) {
    && turns <= Turns(off0, n)
    && (turns == 0 ==> tot == 0)
    && (turns > 0 ==> tot == n || tot == turns * 1024 - off0 % 1024)
  }

  lemma ProgressNext(off0: nat, n: nat, tot: nat, turns: nat, m: nat)
    requires Progress(off0, n, tot, turns) && tot < n
    requires m == 0 || m == ChunkLen(off0 + tot, n - tot)
    ensures turns + 1 <= Turns(off0, n) && (m > 0 ==> Progress(off0, n, tot + m, turns + 1))
  {
    if turns > 0 {
      assert (off0 + tot) % 1024 == 0;
    }
  }

  ghost predicate SoFar(v0: View, v: View, i: int, off: nat, d: seq<int>) {
    OthersKept(v0.t.addrs, v.t.addrs, i) && Written(v0.t.Slots(), v0.blocks, v.t.Slots(), v.blocks, i, off, d)
  }

  lemma SoFarNext(v0: View, v: View, v1: View, i: int, off: nat, d: seq<int>, e: seq<int>, touched: set<int>)
    requires SoFar(v0, v, i, off, d) && ChunkPost(v, v1, i, off + |d|, e, touched)
    ensures SoFar(v0, v1, i, off, d + e)
  {
    WrittenTwice(v0.t.Slots(), v0.blocks, v.t.Slots(), v.blocks, v1.t.Slots(), v1.blocks, i, off, d, e);
  }

  /** One turn of writei has written d at off; apart from the indirect block the blocks it logged are in touched. */
  ghost predicate ChunkPost(v0: View, v1: View, i: int, off: nat, d: seq<int>, touched: set<int>) {
    && OthersKept(v0.t.addrs, v1.t.addrs, i)
    && Written(v0.t.Slots(), v0.blocks, v1.t.Slots(), v1.blocks, i, off, d)
    && |touched| <= 1 + (if DataSlot(v0, i, off / 1024) == 0 then 1 else 0) + (if off / 1024 >= NDIRECT && Ind(v0, i) == 0 then 1 else 0)
    && Within(v0.logged, v1.logged, touched, IndUsed(v1, i, off / 1024))
    && (Ind(v0, i) != 0 || off / 1024 < NDIRECT ==> Ind(v1, i) == Ind(v0, i))
    && (d != [] && off / 1024 >= NDIRECT ==> Ind(v1, i) != 0)
  }

  lemma ChunkMapped(v0: View, v1: View, i: int, off: nat, addr: int, touched: set<int>)
    requires BmapPost(v0, v1, i, off / 1024, addr, touched)
    ensures ChunkPost(v0, v1, i, off, [], touched)
    ensures addr in touched && (addr != 0 && off / 1024 >= NDIRECT ==> Ind(v1, i) != 0)
  {
    MappedWritten(v0.t.Slots(), v0.blocks, v1.t.Slots(), v1.blocks, PlaceOf(i, off), addr, i, off);
  }

  lemma ChunkPut(v0: View, v: View, v1: View, i: int, off: nat, d: seq<int>, addr: int, touched: set<int>)
    requires ChunkPost(v0, v, i, off, [], touched) && addr in touched && (off / 1024 >= NDIRECT ==> Ind(v, i) != 0)
    requires v1.t == v.t && v1.logged == v.logged + {addr}
    requires Written(v.t.Slots(), v.blocks, v.t.Slots(), v1.blocks, i, off, d)
    ensures ChunkPost(v0, v1, i, off, d, touched)
  {
    WrittenTwice(v0.t.Slots(), v0.blocks, v.t.Slots(), v.blocks, v1.t.Slots(), v1.blocks, i, off, [], d);
    assert [] + d == d;
  }

  // ----- The blocks that one writei logs -----

  /** turns of the loop so far; the blocks they logged, the indirect block apart; the indirect block
      or -1; whether it had to be allocated. */
  datatype Tally = Tally(turns: nat, touched: set<int>, ind: int, indNew: nat)

  ghost predicate Tallied(v0: View, v: View, unaligned: bool, c: Tally) {
    && Within(v0.logged, v.logged, c.touched, c.ind)
    && |c.touched| <= 2 * c.turns - (if unaligned && c.turns > 0 then 1 else 0) + c.indNew
    && c.indNew <= 1
  }

  /** What has to hold for the loop to go on. */
  ghost predicate TallyLive(v: View, i: int, c: Tally) {
    (c.ind != -1 || c.indNew > 0 ==> Ind(v, i) != 0) && (c.ind != -1 ==> c.ind == Ind(v, i))
  }

  ghost function TallyNext(v: View, v1: View, i: int, off: nat, touched: set<int>, c: Tally): Tally {
    Tally(c.turns + 1, c.touched + touched,
          if off / 1024 < NDIRECT then c.ind else Ind(v1, i),
          if off / 1024 >= NDIRECT && Ind(v, i) == 0 then 1 else c.indNew)
  }

  lemma TallyTurn(v0: View, v: View, v1: View, i: int, unaligned: bool, off: nat, d: seq<int>, touched: set<int>, c: Tally)
    requires Tallied(v0, v, unaligned, c) && TallyLive(v, i, c) && ChunkPost(v, v1, i, off, d, touched)
    requires unaligned && c.turns == 0 ==> DataSlot(v, i, off / 1024) != 0
    ensures var c' := TallyNext(v, v1, i, off, touched, c);
            Tallied(v0, v1, unaligned, c') && (d != [] ==> TallyLive(v1, i, c'))
  {
  }

  function Min(a: nat, b: nat): nat {
    if a < b then a else b
  }

  /** The bytes from off that fit in its block, out of n. */
  function ChunkLen(off: nat, n: nat): (m: nat)
    ensures m <= n && m <= BSIZE && (n > 0 ==> m > 0)
  {
    Min(n, 1024 - off % 1024)
  }

  ghost predicate AreBytes(s: seq<int>) {
    forall k :: 0 <= k < |s| ==> 0 <= s[k] < 256
  }

  lemma SliceBytes(s: seq<int>, a: nat, m: nat)
    requires AreBytes(s) && a + m <= |s|
    ensures AreBytes(s[a..a + m])
  {
  }

  lemma SpliceBlock(b: Bytes, r: nat, d: seq<int>)
    requires IsBlock(b) && r + |d| <= BSIZE && AreBytes(d)
    ensures IsBlock(Splice(b, r, d))
  {
  }

  /** A data block is no indirect block. */
  lemma DataNotPtr(sb: Super, used: seq<bool>, t: Tree, p: Place)
    requires t.Ok(sb, used) && t.Has(p) && p.k != INDIRECT && t.Slot(p) != 0
    ensures forall a :: a in t.ptrs ==> sb.datastart <= a < sb.size && a !in {t.Slot(p)}
  {
    SlotOwned(sb, used, t, p);
  }

  lemma SlotsInjective(sb: Super, used: seq<bool>, t: Tree)
    requires t.Ok(sb, used)
    ensures var f := t.Slots(); forall p, q :: f(p) == f(q) && f(p) != 0 ==> p == q
  {
  }
}
