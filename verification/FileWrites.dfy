/** filewrite of kernel/file.c: a write of any length as a series of transactions, each small
    enough for the log. */
module FileWrites {
  import opened Guards
  import opened BlockFormat
  import opened FreeMap
  import opened BlockTree
  import opened BlockMapping
  import opened FileBytes
  import opened Truncation
  import opened Inodes
  import L = LogFormat

  /** The most bytes one transaction writes: ((MAXOPBLOCKS - 1 - 1 - 2) / 2) * BSIZE. */
  const CHUNK: nat := 3072

  /** A chunk touches at most four blocks, and three if it starts on a block boundary; with the free
      map, the indirect block and the inode that is within one operation's allowance. */
  lemma ChunkFits(off: nat, n: nat)
    requires n <= CHUNK
    ensures 2 * Turns(off, n) + 3 - (if off % 1024 != 0 then 1 else 0) <= L.MAXOPBLOCKS
  {
  }

  /** The bound is tight: a chunk that starts inside a block is counted with the whole allowance, and
      one block more would be too much. */
  lemma ChunkTight()
    ensures 2 * Turns(1, CHUNK) + 3 - 1 == L.MAXOPBLOCKS && 2 * Turns(1, CHUNK + BSIZE) + 3 - 1 > L.MAXOPBLOCKS
  {
  }

  lemma PatchTwice(s: seq<int>, off: nat, d: seq<int>, e: seq<int>)
    requires off <= |s|
    ensures off + |d| <= |Patch(s, off, d)|
    ensures Patch(Patch(s, off, d), off + |d|, e) == Patch(s, off, d + e)
  {
  }

  /** What writing d at off leaves of contents c; nothing can be written beyond the end. */
  function Rewrite(c: seq<int>, off: nat, d: seq<int>): seq<int> {
    if off <= |c| then Patch(c, off, d) else c
  }

  lemma RewriteTwice(c: seq<int>, off: nat, d: seq<int>, e: seq<int>)
    requires off > |c| ==> d == []
    ensures Rewrite(Rewrite(c, off, d), off + |d|, e) == Rewrite(c, off, d + e)
    ensures off <= |c| ==> off + |d| <= |Rewrite(c, off, d)|
  {
    if off <= |c| {
      PatchTwice(c, off, d, e);
    }
  }

  /** One more transaction on top of those that have written src[..p]. */
  lemma RewriteStep(files: seq<seq<int>>, files1: seq<seq<int>>, files2: seq<seq<int>>, i: int, src: seq<int>, off0: nat, p: nat, r: nat)
    requires 0 <= i < |files| && p + r <= |src| && (p > 0 ==> off0 <= |files[i]|)
    requires files1 == files[i := Rewrite(files[i], off0, src[..p])]
    requires files2 == files1[i := Rewrite(files1[i], off0 + p, src[p..][..r])]
    ensures files2 == files[i := Rewrite(files[i], off0, src[..p + r])]
    ensures off0 + p <= |files1[i]| <==> off0 <= |files[i]|
  {
    assert src[..p + r] == src[..p] + src[p..][..r];
    RewriteTwice(files[i], off0, src[..p], src[p..][..r]);
  }

  lemma RewriteNone(files: seq<seq<int>>, i: int, src: seq<int>, off0: nat)
    requires 0 <= i < |files|
    ensures files == files[i := Rewrite(files[i], off0, src[..0])]
  {
    assert src[..0] == [] && Rewrite(files[i], off0, []) == files[i];
  }

  lemma DropBytes(s: seq<int>, p: nat)
    requires AreBytes(s) && p <= |s|
    ensures AreBytes(s[p..])
  {
  }

  // ----- The file system between transactions -----

  /** The file system at one moment. */
  datatype Moment = Moment(t: Tree, blocks: seq<Bytes>, used: seq<bool>, sizes: seq<int>)

  ghost function Now(fs: FileSystem): Moment
    reads fs, fs.bm
  {
    Moment(fs.Tree(), fs.bm.blocks, fs.bm.used, fs.sizes)
  }

  /** The moment is consistent and no file has holes. */
  ghost predicate Consistent(sb: Super, m: Moment) {
    && MapRep(sb, m.blocks, m.used) && sb.HasInodes(|m.t.addrs|)
    && m.t.Ok(sb, m.used) && PtrRep(m.blocks, m.t.ptrs)
    && |m.sizes| == |m.t.addrs|
    && forall j :: 0 <= j < |m.sizes| ==> 0 <= m.sizes[j] <= MAXBYTES && Whole(m.t.Slots(), m.blocks, j, m.sizes[j])
  }

  /** Moment m is consistent and its files are these. */
  ghost predicate Holds(sb: Super, m: Moment, files: seq<seq<int>>) {
    forall x {:trigger Shown(x)} :: Shown(x) ==> Consistent(sb, m) && AllFiles(m.t.Slots(), m.blocks, m.sizes) == files
  }

  /** From a to b these blocks were logged: none belongs to the log, and they hold everything that differs. */
  ghost predicate Change(sb: Super, a: Moment, b: Moment, logged: set<int>) {
    && |b.blocks| == |a.blocks| && |b.sizes| == |a.sizes| && |b.t.addrs| == |a.t.addrs|
    && (forall x {:trigger x in logged} :: x in logged ==> sb.inodestart <= x < sb.size)
    && (forall x {:trigger x in logged} :: 0 <= x < |a.blocks| && x !in logged ==> b.blocks[x] == a.blocks[x])
    && (forall j {:trigger sb.InodeBlock(j)} :: 0 <= j < |a.sizes| && j < |a.t.addrs| && sb.InodeBlock(j) as int !in logged ==>
          b.sizes[j] == a.sizes[j] && b.t.addrs[j] == a.t.addrs[j])
  }

  /** A transaction from a to b that logged these blocks: they fit the allowance of one operation. */
  ghost predicate Transaction(sb: Super, a: Moment, b: Moment, logged: set<int>) {
    |logged| <= L.MAXOPBLOCKS && Change(sb, a, b, logged)
  }

  /** A moment between transactions: the bytes written so far, and the blocks that the transaction
      before it logged. */
  datatype Stage = Stage(m: Moment, p: nat, logged: set<int>)

  /** At stage s exactly the first s.p bytes of src have been written at off0. */
  ghost predicate StageOk(sb: Super, files: seq<seq<int>>, i: int, src: seq<int>, off0: nat, s: Stage) {
    forall x {:trigger Opened(x)} :: Opened(x) ==>
      && 0 <= i < |files| && s.p <= |src|
      && Holds(sb, s.m, files[i := Rewrite(files[i], off0, src[..s.p])])
  }

  ghost predicate StageNext(sb: Super, a: Stage, b: Stage) {
    a.p <= b.p && Transaction(sb, a.m, b.m, b.logged)
  }

  /** The stages of a write: each is consistent, and a transaction leads from each to the next. */
  ghost predicate Trace(sb: Super, files: seq<seq<int>>, i: int, src: seq<int>, off0: nat, tr: seq<Stage>) {
    && (forall k :: 0 <= k < |tr| ==> StageOk(sb, files, i, src, off0, tr[k]))
    && (forall k :: 0 < k < |tr| ==> StageNext(sb, tr[k - 1], tr[k]))
  }

  lemma TraceNext(sb: Super, files: seq<seq<int>>, i: int, src: seq<int>, off0: nat, tr: seq<Stage>, s: Stage)
    requires Trace(sb, files, i, src, off0, tr) && StageOk(sb, files, i, src, off0, s)
    requires |tr| > 0 && StageNext(sb, tr[|tr| - 1], s)
    ensures Trace(sb, files, i, src, off0, tr + [s])
  {
  }

  /** What the log discipline makes of one operation on inode i. */
  lemma OneChange(sb: Super, a: Moment, b: Moment, logged: set<int>, i: nat)
    requires LogOk(sb, a.blocks, b.blocks, logged)
    requires |b.sizes| == |a.sizes| && forall j :: 0 <= j < |a.sizes| && j != i ==> b.sizes[j] == a.sizes[j]
    requires OthersKept(a.t.addrs, b.t.addrs, i)
    requires sb.InodeBlock(i) as int in logged || (b.sizes == a.sizes && b.t.addrs == a.t.addrs)
    ensures Change(sb, a, b, logged)
  {
  }

  /** Why a write of n bytes at off into a file of the given size may fall short. */
  ghost predicate Short(noBlock: bool, src: seq<int>, size: nat, off: nat, n: int) {
    noBlock || |src| < n || off > size || off + n > MAXBYTES
  }

  /** The file system is consistent and its files are these. */
  ghost predicate Held(fs: FileSystem, files: seq<seq<int>>)
    reads fs, fs.bm
  {
    forall x {:trigger Shown(x)} :: Shown(x) ==> fs.Valid() && fs.NoHoles() && fs.Files() == files
  }

  lemma HeldIsHeld(fs: FileSystem)
    requires fs.Sound()
    ensures Held(fs, fs.Files())
  {
  }

  lemma HeldSound(fs: FileSystem, files: seq<seq<int>>)
    requires Held(fs, files)
    ensures fs.Sound() && fs.Files() == files && |fs.sizes| == |files| && Holds(fs.bm.sb, Now(fs), files)
  {
    assert Shown(true);
  }

  /** A write that began at moment m0 with these files has come as far as p bytes, by way of tr. */
  ghost predicate Underway(fs: FileSystem, m0: Moment, files: seq<seq<int>>, i: int, src: seq<int>, off0: nat, p: nat, tr: seq<Stage>)
    reads fs, fs.bm
  {
    forall x {:trigger Opened(x)} :: Opened(x) ==>
      && 0 <= i < |files| && p <= |src| && (p > 0 ==> off0 <= |files[i]|)
      && Held(fs, files[i := Rewrite(files[i], off0, src[..p])])
      && Trace(fs.bm.sb, files, i, src, off0, tr)
      && |tr| > 0 && tr[0].m == m0 && tr[|tr| - 1].m == Now(fs) && tr[|tr| - 1].p == p
  }

  lemma UnderwayParts(fs: FileSystem, m0: Moment, files: seq<seq<int>>, i: int, src: seq<int>, off0: nat, p: nat, tr: seq<Stage>)
    requires Underway(fs, m0, files, i, src, off0, p, tr)
    ensures 0 <= i < |files| && p <= |src| && (p > 0 ==> off0 <= |files[i]|)
    ensures Held(fs, files[i := Rewrite(files[i], off0, src[..p])])
    ensures Trace(fs.bm.sb, files, i, src, off0, tr) && |tr| > 0 && tr[0].m == m0 && tr[|tr| - 1].m == Now(fs) && tr[|tr| - 1].p == p
  {
    assert Opened(true);
  }

  /** Before the first transaction. */
  lemma TraceStart(fs: FileSystem, files: seq<seq<int>>, i: int, src: seq<int>, off0: nat)
    requires Held(fs, files) && 0 <= i < |files|
    ensures Underway(fs, Now(fs), files, i, src, off0, 0, [Stage(Now(fs), 0, {})])
  {
    RewriteNone(files, i, src, off0);
    HeldSound(fs, files);
  }

  /** After the last. */
  lemma TraceEnd(fs: FileSystem, m0: Moment, files: seq<seq<int>>, i: int, src: seq<int>, off0: nat, p: nat, tr: seq<Stage>)
    requires Underway(fs, m0, files, i, src, off0, p, tr)
    ensures 0 <= i < |files| && p <= |src| && (p > 0 ==> off0 <= |files[i]|)
    ensures fs.Sound() && |fs.sizes| == |files| && fs.Files() == files[i := Rewrite(files[i], off0, src[..p])]
    ensures Trace(fs.bm.sb, files, i, src, off0, tr)
    ensures |tr| > 0 && tr[0].m == m0 && tr[|tr| - 1].m == Now(fs) && tr[|tr| - 1].p == p
  {
    assert Opened(true);
    HeldSound(fs, files[i := Rewrite(files[i], off0, src[..p])]);
  }

  /** begin_op and a call of writei. */
  method WriteOp(fs: FileSystem, i: int, src: seq<int>, off: nat, n: nat) returns (r: int)
    requires fs.Valid() && fs.NoHoles() && 0 <= i < |fs.sizes| && AreBytes(src) && off < UINT && 0 < n <= CHUNK
    modifies fs, fs.bm
    ensures fs.Valid() && fs.NoHoles() && |fs.sizes| == old(|fs.sizes|)
    ensures Transaction(fs.bm.sb, old(Now(fs)), Now(fs), fs.bm.logged)
    ensures r == -1 <==> off > old(fs.sizes[i]) || off + n > MAXBYTES
    ensures r == -1 ==> fs.Files() == old(fs.Files())
    ensures r != -1 ==>
              && 0 <= r <= n && r <= |src| && off <= |old(fs.Files())[i]|
              && fs.Files() == old(fs.Files())[i := Patch(old(fs.Files())[i], off, src[..r])]
    ensures r != -1 && r < n ==> fs.Stopped(i, src, off, n, r)
  {
    ghost var a := Now(fs);
    ChunkFits(off, n);
    fs.bm.BeginOp();
    assert Now(fs) == a;
    r := fs.Writei(i, src, off, n);
    assert fs.bm.logged - {} == fs.bm.logged;
    OneChange(fs.bm.sb, a, Now(fs), fs.bm.logged, i);
  }

  lemma OneWritten(noBlock: bool, files: seq<seq<int>>, files1: seq<seq<int>>, i: int, src: seq<int>, off: nat, n: nat, r: int)
    requires 0 <= i < |files|
    requires r == -1 <==> off > |files[i]| || off + n > MAXBYTES
    requires r == -1 ==> files1 == files
    requires r != -1 ==> 0 <= r <= n && r <= |src| && files1 == files[i := Patch(files[i], off, src[..r])]
    requires r != -1 && r < n ==> noBlock || r + ChunkLen(off + r, n - r) > |src|
    ensures var k := Max(r, 0);
            && files1 == files[i := Rewrite(files[i], off, src[..k])]
            && (k < n ==> Short(noBlock, src, |files[i]|, off, n))
  {
    assert src[..0] == [] && Rewrite(files[i], off, []) == files[i];
  }

  /** One transaction and the advance of the offset. */
  method WriteOne(fs: FileSystem, ghost files: seq<seq<int>>, i: int, src: seq<int>, off: nat, n: nat)
    returns (r: nat, ghost files': seq<seq<int>>)
    requires Held(fs, files) && 0 <= i < |files| && AreBytes(src) && off < UINT && 0 < n <= CHUNK
    modifies fs, fs.bm
    ensures Transaction(fs.bm.sb, old(Now(fs)), Now(fs), fs.bm.logged)
    ensures r <= n && r <= |src| && (r > 0 ==> off + r <= MAXBYTES && off <= |files[i]|)
    ensures r < n ==> Short(fs.NoBlock(i, off + r), src, |files[i]|, off, n)
    ensures Held(fs, files') && files' == files[i := Rewrite(files[i], off, src[..r])]
  {
    assert Shown(true);
    var k := WriteOp(fs, i, src, off, n);
    if 0 <= k < n {
      fs.StoppedIs(i, src, off, n, k);
    }
    r := if k > 0 then k else 0;
    ghost var none := fs.NoBlock(i, off + r);
    OneWritten(none, files, fs.Files(), i, src, off, n, k);
    files' := fs.Files();
  }

  /** One transaction on top of those that have written src[..p]. */
  method WriteNext(fs: FileSystem, ghost m0: Moment, ghost files: seq<seq<int>>, i: int, src: seq<int>, off0: nat, p: nat, n1: nat, ghost tr: seq<Stage>)
    returns (r: nat, ghost tr': seq<Stage>)
    requires 0 <= i < |files| && AreBytes(src) && off0 + p < UINT && p <= |src| && 0 < n1 <= CHUNK
    requires Underway(fs, m0, files, i, src, off0, p, tr)
    modifies fs, fs.bm
    ensures r <= n1 && p + r <= |src| && (r > 0 ==> off0 + p + r <= MAXBYTES)
    ensures r < n1 ==> Short(fs.NoBlock(i, off0 + p + r), src, |files[i]|, off0, p + n1)
    ensures Underway(fs, m0, files, i, src, off0, p + r, tr')
  {
    UnderwayParts(fs, m0, files, i, src, off0, p, tr);
    ghost var m, files1, files2 := Now(fs), files[i := Rewrite(files[i], off0, src[..p])], [];
    DropBytes(src, p);
    r, files2 := WriteOne(fs, files1, i, src[p..], off0 + p, n1);
    ghost var none := fs.NoBlock(i, off0 + p + r);
    assert r < n1 ==> Short(none, src[p..], |files1[i]|, off0 + p, n1);
    ShortOverall(none, files[i], src, off0, p, n1);
    RewriteStep(files, files1, files2, i, src, off0, p, r);
    tr' := TraceStep(fs, m0, m, files, files2, i, src, off0, p + r, tr);
  }

  /** A chunk that falls short explains why the whole does. */
  lemma ShortOverall(noBlock: bool, c: seq<int>, src: seq<int>, off0: nat, p: nat, n1: nat)
    requires p <= |src| && (p > 0 ==> off0 <= |c|)
    ensures Short(noBlock, src[p..], |Rewrite(c, off0, src[..p])|, off0 + p, n1) ==> Short(noBlock, src, |c|, off0, p + n1)
  {
  }

  lemma TraceStep(
    fs: FileSystem, m0: Moment, m: Moment, files: seq<seq<int>>, files2: seq<seq<int>>, i: int, src: seq<int>, off0: nat, p: nat, tr: seq<Stage>)
    returns (tr': seq<Stage>)
    requires Trace(fs.bm.sb, files, i, src, off0, tr) && |tr| > 0 && tr[0].m == m0 && tr[|tr| - 1].m == m && tr[|tr| - 1].p <= p
    requires 0 <= i < |files| && p <= |src| && (p > 0 ==> off0 <= |files[i]|)
    requires files2 == files[i := Rewrite(files[i], off0, src[..p])] && Held(fs, files2)
    requires Transaction(fs.bm.sb, m, Now(fs), fs.bm.logged)
    ensures Underway(fs, m0, files, i, src, off0, p, tr')
  {
    HeldSound(fs, files2);
    var s := Stage(Now(fs), p, fs.bm.logged);
    TraceNext(fs.bm.sb, files, i, src, off0, tr, s);
    tr' := tr + [s];
  }

  /** The loop of filewrite. */
  method WriteAll(fs: FileSystem, ghost files: seq<seq<int>>, i: int, src: seq<int>, off0: nat, n: int) returns (p: nat, ghost tr: seq<Stage>)
    requires Held(fs, files) && 0 <= i < |files| && AreBytes(src) && off0 < UINT && n < UINT
    modifies fs, fs.bm
    ensures p <= Max(n, 0) && (p < n ==> Short(fs.NoBlock(i, off0 + p), src, |files[i]|, off0, n))
    ensures Underway(fs, old(Now(fs)), files, i, src, off0, p, tr)
  {
    ghost var m0 := Now(fs);
    p, tr := 0, [Stage(m0, 0, {})];
    TraceStart(fs, files, i, src, off0);
    while p < n
      invariant p <= |src| && p <= Max(n, 0) && off0 + p < UINT
      invariant Underway(fs, m0, files, i, src, off0, p, tr)
    {
      var n1 := n - p;
      if n1 > CHUNK {
        n1 := CHUNK;
      }
      var r;
      r, tr := WriteNext(fs, m0, files, i, src, off0, p, n1, tr);
      p := p + r;
      if r != n1 {
        break;
      }
    }
  }

  /** Write n bytes at off0 in inode i. tr holds the file system before the write and after each of its
      transactions. */
  method FileWrite(fs: FileSystem, i: int, src: seq<int>, off0: nat, n: int) returns (ret: int, off: nat, ghost tr: seq<Stage>)
    requires fs.Sound() && 0 <= i < |fs.sizes| && AreBytes(src) && off0 < UINT && n < UINT
    modifies fs, fs.bm
    ensures fs.Sound() && |fs.sizes| == old(|fs.sizes|)
    ensures off0 <= off && off - off0 <= |src| && off - off0 <= Max(n, 0) && (off > off0 ==> off0 <= old(|fs.Files()[i]|))
    ensures ret == if off - off0 == n then n else -1
    ensures off - off0 < n ==> Short(fs.NoBlock(i, off), src, old(|fs.Files()[i]|), off0, n)
    ensures fs.Files() == old(fs.Files())[i := Rewrite(old(fs.Files()[i]), off0, src[..off - off0])]
    ensures Trace(fs.bm.sb, old(fs.Files()), i, src, off0, tr)
    ensures |tr| > 0 && tr[0].m == old(Now(fs)) && tr[|tr| - 1].m == Now(fs) && tr[|tr| - 1].p == off - off0
  {
    ghost var m0, files := Now(fs), fs.Files();
    HeldIsHeld(fs);
    var p;
    p, tr := WriteAll(fs, files, i, src, off0, n);
    TraceEnd(fs, m0, files, i, src, off0, p, tr);
    off := off0 + p;
    ret := if p == n then n else -1;
  }

  // ----- Truncation -----

  /** The inode block lies below the free map. */
  lemma TruncCount(sb: Super, used: seq<bool>, t: Tree, i: nat, logged: set<int>)
    requires sb.Valid() && sb.HasInodes(|t.addrs|) && i < |t.addrs| && t.Ok(sb, used)
    requires logged == FreedMaps(sb, t.Slots(), i, NSLOT) + {sb.InodeBlock(i) as int}
    ensures |logged| == |FreedMaps(sb, t.Slots(), i, NSLOT)| + 1 <= sb.size / 8192 + 2
  {
    FreedMapsBound(sb, used, t, i);
    InodeBlockIn(sb, i, |t.addrs|);
  }

  /** begin_op and itrunc: the file becomes empty, and the blocks logged -- the inode's own and the blocks of
      the free map that its blocks had a bit in -- hold every change. They fit the allowance of one
      operation exactly if the latter are at most nine, so always on a disk of fewer than 73728 blocks. */
  method TruncOp(fs: FileSystem, i: int) returns (panic: bool)
    requires fs.Valid() && fs.NoHoles() && 0 <= i < |fs.sizes|
    modifies fs, fs.bm
    ensures !panic && fs.Valid() && fs.NoHoles() && fs.Files() == old(fs.Files())[i := []]
    ensures Change(fs.bm.sb, old(Now(fs)), Now(fs), fs.bm.logged)
    ensures fs.bm.logged == FreedMaps(fs.bm.sb, old(fs.F()), i, NSLOT) + {fs.bm.sb.InodeBlock(i) as int}
    ensures Transaction(fs.bm.sb, old(Now(fs)), Now(fs), fs.bm.logged) <==> |FreedMaps(fs.bm.sb, old(fs.F()), i, NSLOT)| <= 9
    ensures fs.bm.sb.size < 73728 ==> Transaction(fs.bm.sb, old(Now(fs)), Now(fs), fs.bm.logged)
  {
    ghost var a := Now(fs);
    fs.bm.BeginOp();
    assert Now(fs) == a;
    panic := fs.Itrunc(i);
    assert fs.bm.logged == FreedMaps(fs.bm.sb, a.t.Slots(), i, NSLOT) + {fs.bm.sb.InodeBlock(i) as int};
    TruncCount(fs.bm.sb, a.used, a.t, i, fs.bm.logged);
    OneChange(fs.bm.sb, a, Now(fs), fs.bm.logged, i);
  }
}
