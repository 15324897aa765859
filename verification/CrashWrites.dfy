/** The file system on top of the log: a crash at any block write of any commit during filewrite
    leaves, after recovery, the file system as it was between two commits. A commit may hold several
    transactions, of the write and of other processes. */
module CrashWrites {
  import opened Collections
  import opened Guards
  import opened BlockFormat
  import opened FreeMap
  import opened BlockTree
  import opened FileBytes
  import opened FileWrites
  import opened SharedWrites
  import L = LogFormat

  // ----- The file system as disk blocks -----

  /** Word w of the disk inode of inode j; an unused inode is all zero. */
  function InodeWord(m: Moment, meta: seq<Meta>, j: nat, w: nat): int {
    if j < |meta| && j < |m.sizes| && j < |m.t.addrs| && w < 3 + |m.t.addrs[j]| then
      if w == 0 then meta[j].head else if w == 1 then meta[j].link else if w == 2 then m.sizes[j] else m.t.addrs[j][w - 3]
    else 0
  }

  /** A block of 16 disk inodes of 16 words. */
  function InodeBlockAt(sb: Super, meta: seq<Meta>, m: Moment, b: nat): L.Block
    requires sb.inodestart <= b
  {
    seq(L.BLOCK_WORDS, w requires 0 <= w => InodeWord(m, meta, 16 * (b - sb.inodestart) + w / 16, w % 16))
  }

  function WordsOf(b: Bytes): L.Block
    requires |b| == BSIZE
  {
    seq(L.BLOCK_WORDS, w requires 0 <= w < 256 => Word(b, w))
  }

  /** What block b of the disk holds at moment m: inodes, or the bytes of the block. */
  function DiskBlock(sb: Super, meta: seq<Meta>, m: Moment, b: nat): L.Block
    requires b < |m.blocks| && |m.blocks[b]| == BSIZE
  {
    if sb.inodestart <= b < sb.bmapstart then InodeBlockAt(sb, meta, m, b) else WordsOf(m.blocks[b])
  }

  /** The log lies below the inode blocks and has room for one operation. */
  ghost predicate Layout(g: L.Geometry, sb: Super) {
    && sb.Valid() && g.Valid() && g.nblocks == sb.size
    && g.start + g.size <= sb.inodestart && L.MAXOPBLOCKS < g.size
  }

  /** Outside the log the disk holds moment m. */
  ghost predicate OnDisk(g: L.Geometry, sb: Super, meta: seq<Meta>, m: Moment, d: L.Image) {
    && g.nblocks == |d| == |m.blocks| == sb.size && Blocks(sb, m.blocks)
    && forall b {:trigger d[b]} :: 0 <= b < |d| && g.IsHome(b) ==> d[b] == DiskBlock(sb, meta, m, b)
  }

  // ----- The disk determines the file system -----

  /** Two moments on the same disk, with their inodes' other words. */
  ghost predicate SameDisk(g: L.Geometry, sb: Super, meta: seq<Meta>, m: Moment, meta': seq<Meta>, m': Moment, d: L.Image) {
    && Layout(g, sb) && OnDisk(g, sb, meta, m, d) && OnDisk(g, sb, meta', m', d)
    && |meta| == |meta'| == |m.sizes| == |m'.sizes| == |m.t.addrs| == |m'.t.addrs| && sb.HasInodes(|meta|)
  }

  /** The disk determines every word of every inode ... */
  lemma DiskInode(g: L.Geometry, sb: Super, meta: seq<Meta>, m: Moment, meta': seq<Meta>, m': Moment, d: L.Image, j: nat)
    requires SameDisk(g, sb, meta, m, meta', m', d) && j < |meta|
    requires |m.t.addrs[j]| == |m'.t.addrs[j]| == NDIRECT + 1
    ensures meta[j] == meta'[j] && m.sizes[j] == m'.sizes[j] && m.t.addrs[j] == m'.t.addrs[j]
  {
    var b := sb.InodeBlock(j);
    InodeBlockIn(sb, j, |meta|);
    assert g.IsHome(b);
    assert d[b] == DiskBlock(sb, meta, m, b) == DiskBlock(sb, meta', m', b);
    forall w | 0 <= w < 16
      ensures InodeWord(m, meta, j, w) == InodeWord(m', meta', j, w)
    {
      InodePlace(sb, j, w);
      assert d[b][16 * (j % 16) + w] == InodeWord(m, meta, j, w);
      assert d[b][16 * (j % 16) + w] == InodeWord(m', meta', j, w);
    }
    assert InodeWord(m, meta, j, 0) == meta[j].head && InodeWord(m', meta', j, 0) == meta'[j].head;
    assert InodeWord(m, meta, j, 1) == meta[j].link && InodeWord(m', meta', j, 1) == meta'[j].link;
    assert InodeWord(m, meta, j, 2) == m.sizes[j] && InodeWord(m', meta', j, 2) == m'.sizes[j];
    forall k | 0 <= k < NDIRECT + 1
      ensures m.t.addrs[j][k] == m'.t.addrs[j][k]
    {
      assert InodeWord(m, meta, j, 3 + k) == m.t.addrs[j][k] && InodeWord(m', meta', j, 3 + k) == m'.t.addrs[j][k];
    }
  }

  /** ... and every byte of every other block outside the log. */
  lemma DiskBytes(g: L.Geometry, sb: Super, meta: seq<Meta>, m: Moment, meta': seq<Meta>, m': Moment, d: L.Image, b: nat)
    requires SameDisk(g, sb, meta, m, meta', m', d) && g.IsHome(b) && !(sb.inodestart <= b < sb.bmapstart)
    ensures m.blocks[b] == m'.blocks[b]
  {
    assert d[b] == WordsOf(m.blocks[b]) && d[b] == WordsOf(m'.blocks[b]);
    forall j | 0 <= j < NINDIRECT
      ensures Word(m.blocks[b], j) == Word(m'.blocks[b], j)
    {
      assert d[b][j] == Word(m.blocks[b], j) && d[b][j] == Word(m'.blocks[b], j);
    }
    WordsDetermine(m.blocks[b], m'.blocks[b]);
  }

  /** The inodes and the blocks from the free map on are the same. */
  ghost predicate SameParts(sb: Super, m: Moment, m': Moment) {
    && m.t.addrs == m'.t.addrs && m.sizes == m'.sizes && |m.blocks| == |m'.blocks|
    && forall b :: sb.bmapstart <= b < |m.blocks| ==> m.blocks[b] == m'.blocks[b]
  }

  lemma DiskParts(g: L.Geometry, sb: Super, meta: seq<Meta>, m: Moment, meta': seq<Meta>, m': Moment, d: L.Image)
    requires SameDisk(g, sb, meta, m, meta', m', d) && m.t.Shape() && m'.t.Shape()
    ensures SameParts(sb, m, m') && meta == meta'
  {
    forall j | 0 <= j < |meta|
      ensures meta[j] == meta'[j] && m.sizes[j] == m'.sizes[j] && m.t.addrs[j] == m'.t.addrs[j]
    {
      DiskInode(g, sb, meta, m, meta', m', d, j);
    }
    forall b | sb.bmapstart <= b < |m.blocks|
      ensures m.blocks[b] == m'.blocks[b]
    {
      assert g.IsHome(b);
      DiskBytes(g, sb, meta, m, meta', m', d, b);
    }
  }

  /** A place holds the same block at both moments, and the block the same bytes. */
  lemma PartsSlot(sb: Super, m: Moment, m': Moment, p: Place)
    requires Consistent(sb, m) && Consistent(sb, m') && SameParts(sb, m, m')
    ensures var a := m.t.Slots()(p);
            m'.t.Slots()(p) == a && (a != 0 ==> sb.bmapstart <= a < |m.blocks| && m.blocks[a] == m'.blocks[a])
  {
    var a := m.t.Slots()(p);
    if m.t.Has(p) && p.k > INDIRECT && m.t.addrs[p.ino][INDIRECT] != 0 {
      var ind, j := m.t.addrs[p.ino][INDIRECT], p.k - INDIRECT - 1;
      assert m.t.Slots()(Place(p.ino, INDIRECT)) == ind;
      assert sb.datastart <= ind < sb.size;
      assert m.t.ptrs[ind][j] == Word(m.blocks[ind], j) && m'.t.ptrs[ind][j] == Word(m'.blocks[ind], j);
    }
    if a != 0 {
      assert a in m.t.owner && sb.datastart <= a < sb.size;
    }
  }

  lemma PartsFile(sb: Super, m: Moment, m': Moment, j: nat)
    requires Consistent(sb, m) && Consistent(sb, m') && SameParts(sb, m, m') && j < |m.sizes|
    ensures Content(m.t.Slots(), m.blocks, j, m.sizes[j]) == Content(m'.t.Slots(), m'.blocks, j, m'.sizes[j])
  {
    forall o: nat | o < m.sizes[j]
      ensures ByteAt(m.t.Slots(), m.blocks, j, o) == ByteAt(m'.t.Slots(), m'.blocks, j, o)
    {
      PartsSlot(sb, m, m', PlaceOf(j, o));
    }
  }

  /** The file system can be read back from the disk: two consistent moments on the same disk have the
      same inodes and the same files. */
  lemma {:induction false} OnDiskDetermines(
    g: L.Geometry, sb: Super, meta: seq<Meta>, m: Moment, files: seq<seq<int>>, meta': seq<Meta>, m': Moment, files': seq<seq<int>>, d: L.Image)
    requires Layout(g, sb) && OnDisk(g, sb, meta, m, d) && OnDisk(g, sb, meta', m', d)
    requires Holds(sb, m, files) && Holds(sb, m', files') && |meta| == |meta'| == |files| == |files'|
    ensures files == files' && meta == meta' && m.sizes == m'.sizes && m.t.addrs == m'.t.addrs
  {
    assert Shown(true);
    DiskParts(g, sb, meta, m, meta', m', d);
    forall j | 0 <= j < |files|
      ensures files[j] == files'[j]
    {
      PartsFile(sb, m, m', j);
    }
  }

  lemma InodePlace(sb: Super, j: nat, w: nat)
    requires w < 16
    ensures var x := 16 * (j % 16) + w; 0 <= x < 256 && 16 * (sb.InodeBlock(j) - sb.inodestart) + x / 16 == j && x % 16 == w
  {
  }

  /** A block that was not logged is the same on disk before and after. */
  lemma NotLogged(sb: Super, meta: seq<Meta>, a: Moment, meta': seq<Meta>, b: Moment, logged: set<int>, x: nat)
    requires Change(sb, a, b, logged) && MetaKept(sb, meta, meta', logged) && |a.sizes| == |a.t.addrs|
    requires Blocks(sb, a.blocks) && Blocks(sb, b.blocks) && x < sb.size && x !in logged
    ensures DiskBlock(sb, meta, a, x) == DiskBlock(sb, meta', b, x)
  {
    if sb.inodestart <= x < sb.bmapstart {
      forall w | 0 <= w < 256
        ensures InodeBlockAt(sb, meta, a, x)[w] == InodeBlockAt(sb, meta', b, x)[w]
      {
        var j := 16 * (x - sb.inodestart) + w / 16;
        assert sb.InodeBlock(j) == x;
      }
    } else {
      assert b.blocks[x] == a.blocks[x];
    }
  }

  // ----- One commit and a crash -----

  /** lh lists the blocks of a set, in the order in which they were first logged. */
  ghost predicate Lists(lh: seq<int>, s: set<int>) {
    NoDup(lh) && (forall x :: x in lh ==> x in s) && (forall x :: x in s ==> x in lh)
  }

  lemma {:induction false} ListSize(lh: seq<int>, s: set<int>)
    requires Lists(lh, s)
    ensures |lh| == |s|
  {
    if |lh| > 0 {
      var n := |lh| - 1;
      forall x | x in s - {lh[n]}
        ensures x in lh[..n]
      {
      }
      ListSize(lh[..n], s - {lh[n]});
    } else {
      forall x
        ensures x !in s
      {
        assert x !in lh;
      }
      assert s == {};
    }
  }

  /** The contents that a commit writes: those of moment m. */
  ghost predicate Values(sb: Super, meta: seq<Meta>, m: Moment, lh: seq<int>, vals: seq<L.Block>) {
    && |vals| == |lh| && Blocks(sb, m.blocks)
    && forall i :: 0 <= i < |lh| ==> 0 <= lh[i] < sb.size && vals[i] == DiskBlock(sb, meta, m, lh[i])
  }

  /** One commit: what it logs and the contents it writes. */
  datatype Commit = Commit(lh: seq<int>, vals: seq<L.Block>)

  /** The log holds as many blocks as log_write admits. */
  ghost predicate LogHolds(g: L.Geometry, n: nat) {
    n <= L.LOGSIZE && n < g.size
  }

  /** Commit c takes the disk from a to b, which differ in blocks of a logged set only. */
  ghost predicate Commits(g: L.Geometry, sb: Super, meta: seq<Meta>, a: Moment, meta': seq<Meta>, b: Moment, logged: set<int>, c: Commit) {
    && Change(sb, a, b, logged) && MetaKept(sb, meta, meta', logged) && |a.sizes| == |a.t.addrs|
    && Lists(c.lh, logged) && Values(sb, meta', b, c.lh, c.vals) && LogHolds(g, |c.lh|)
  }

  /** The blocks of a commit fit the log and are home blocks. */
  lemma CommitLoggable(g: L.Geometry, sb: Super, meta: seq<Meta>, a: Moment, meta': seq<Meta>, b: Moment, logged: set<int>, c: Commit)
    requires Layout(g, sb) && Commits(g, sb, meta, a, meta', b, logged, c)
    ensures L.Loggable(g, c.lh)
  {
    forall i | 0 <= i < |c.lh|
      ensures g.IsHome(c.lh[i])
    {
      assert c.lh[i] in c.lh;
    }
  }

  /** What one operation logs always fits. */
  lemma TransactionFits(g: L.Geometry, sb: Super, a: Moment, b: Moment, logged: set<int>, lh: seq<int>)
    requires Layout(g, sb) && Transaction(sb, a, b, logged) && Lists(lh, logged)
    ensures LogHolds(g, |lh|)
  {
    ListSize(lh, logged);
  }

  /** Installing the logged blocks takes the disk from a to b. */
  lemma InstalledMoment(
    g: L.Geometry, sb: Super, meta: seq<Meta>, a: Moment, meta': seq<Meta>, b: Moment, logged: set<int>, c: Commit, d: L.Image, d': L.Image)
    requires Layout(g, sb) && Commits(g, sb, meta, a, meta', b, logged, c) && OnDisk(g, sb, meta, a, d) && |d'| == |d|
    requires L.RawHome(g, d') == L.Updated(L.RawHome(g, d), c.lh, c.vals)
    ensures OnDisk(g, sb, meta', b, d')
  {
    forall x | 0 <= x < |d'| && g.IsHome(x)
      ensures d'[x] == DiskBlock(sb, meta', b, x)
    {
      assert L.RawHome(g, d')[x] == d'[x];
      assert L.RawHome(g, d)[x] == d[x];
      if x !in c.lh {
        NotLogged(sb, meta, a, meta', b, logged, x);
      }
    }
  }

  lemma SameMoment(g: L.Geometry, sb: Super, meta: seq<Meta>, a: Moment, d: L.Image, d': L.Image)
    requires OnDisk(g, sb, meta, a, d) && |d'| == |d| && L.RawHome(g, d') == L.RawHome(g, d)
    ensures OnDisk(g, sb, meta, a, d')
  {
    forall x | 0 <= x < |d'| && g.IsHome(x)
      ensures d'[x] == d[x]
    {
      assert L.RawHome(g, d')[x] == d'[x];
      assert L.RawHome(g, d)[x] == d[x];
    }
  }

  /** A crash after the first k block writes of a commit, and then any number of crashes during
      recovery, leave the disk at a if the header had not been written and at b if it had. */
  lemma {:induction false} CrashInCommit(
    g: L.Geometry, sb: Super, meta: seq<Meta>, a: Moment, meta': seq<Meta>, b: Moment, logged: set<int>, c: Commit,
    d: L.Image, k: nat, ks: seq<nat>, ds: seq<L.Image>)
    requires Layout(g, sb) && Commits(g, sb, meta, a, meta', b, logged, c)
    requires L.LogEmpty(g, d) && OnDisk(g, sb, meta, a, d)
    requires k <= 2 * |c.lh| + 2 && L.InRange(|d|, L.CommitWrites(g, d[g.start], c.lh, c.vals))
    requires L.CrashChain(g, L.Apply(d, L.CommitWrites(g, d[g.start], c.lh, c.vals)[..k]), ks, ds)
    ensures L.WellFormed(g, ds[|ks|]) && |ds[|ks|]| == |d| && L.InRange(|d|, L.RecoverWrites(g, ds[|ks|]))
    ensures var final := L.Apply(ds[|ks|], L.RecoverWrites(g, ds[|ks|]));
            L.LogEmpty(g, final) && (if k <= |c.lh| then OnDisk(g, sb, meta, a, final) else OnDisk(g, sb, meta', b, final))
  {
    CommitLoggable(g, sb, meta, a, meta', b, logged, c);
    L.CrashAtomicity(g, d, c.lh, c.vals, k, ks, ds);
    var final := L.Apply(ds[|ks|], L.RecoverWrites(g, ds[|ks|]));
    if k <= |c.lh| {
      SameMoment(g, sb, meta, a, d, final);
    } else {
      InstalledMoment(g, sb, meta, a, meta', b, logged, c, d, final);
    }
  }

  /** A commit that completes takes the disk from a to b. */
  lemma {:induction false} CommitInstalls(
    g: L.Geometry, sb: Super, meta: seq<Meta>, a: Moment, meta': seq<Meta>, b: Moment, logged: set<int>, c: Commit, d: L.Image)
    requires Layout(g, sb) && Commits(g, sb, meta, a, meta', b, logged, c)
    requires L.LogEmpty(g, d) && OnDisk(g, sb, meta, a, d)
    ensures L.InRange(|d|, L.CommitWrites(g, d[g.start], c.lh, c.vals))
    ensures var d' := L.Apply(d, L.CommitWrites(g, d[g.start], c.lh, c.vals));
            L.LogEmpty(g, d') && OnDisk(g, sb, meta', b, d')
  {
    CommitLoggable(g, sb, meta, a, meta', b, logged, c);
    L.CommitCompletes(g, d, c.lh, c.vals);
    InstalledMoment(g, sb, meta, a, meta', b, logged, c, d, L.Apply(d, L.CommitWrites(g, d[g.start], c.lh, c.vals)));
  }

  /** A crash anywhere in the commit of a truncation, and crashes in the recoveries after it: the recovered
      disk holds a consistent file system in which the file is as it was or empty, and every other file as
      it was. */
  lemma {:induction false} CrashInTruncation(
    g: L.Geometry, sb: Super, meta: seq<Meta>, a: Moment, b: Moment, logged: set<int>, c: Commit, files: seq<seq<int>>, i: int,
    d: L.Image, k: nat, ks: seq<nat>, ds: seq<L.Image>)
    returns (m: Moment)
    requires Layout(g, sb) && Change(sb, a, b, logged) && 0 <= i < |files| && Holds(sb, a, files) && Holds(sb, b, files[i := []])
    requires Lists(c.lh, logged) && Values(sb, meta, b, c.lh, c.vals) && LogHolds(g, |c.lh|)
    requires L.LogEmpty(g, d) && OnDisk(g, sb, meta, a, d)
    requires k <= 2 * |c.lh| + 2 && L.InRange(|d|, L.CommitWrites(g, d[g.start], c.lh, c.vals))
    requires L.CrashChain(g, L.Apply(d, L.CommitWrites(g, d[g.start], c.lh, c.vals)[..k]), ks, ds)
    ensures m == if k <= |c.lh| then a else b
    ensures L.WellFormed(g, ds[|ks|]) && L.InRange(|ds[|ks|]|, L.RecoverWrites(g, ds[|ks|]))
    ensures var final := L.Apply(ds[|ks|], L.RecoverWrites(g, ds[|ks|]));
            L.LogEmpty(g, final) && OnDisk(g, sb, meta, m, final)
    ensures Holds(sb, m, if k <= |c.lh| then files else files[i := []])
  {
    m := if k <= |c.lh| then a else b;
    HoldsSizes(sb, a, files);
    CrashInCommit(g, sb, meta, a, meta, b, logged, c, d, k, ks, ds);
  }

  lemma HoldsSizes(sb: Super, m: Moment, files: seq<seq<int>>)
    requires Holds(sb, m, files)
    ensures |m.sizes| == |m.t.addrs|
  {
    assert Shown(true);
  }

  // ----- A whole write and a crash -----

  /** The points of a history of n points at which a group of transactions has committed. */
  ghost predicate Cuts(cuts: seq<nat>, n: nat) {
    && |cuts| > 0 && cuts[0] == 0 && (forall q :: 0 < q < |cuts| ==> cuts[q - 1] <= cuts[q])
    && (forall q :: 0 <= q < |cuts| ==> cuts[q] < n)
  }

  /** Commit c is the commit of the transactions between points lo and hi: it lists their blocks. */
  ghost predicate GroupOf(g: L.Geometry, sb: Super, h: seq<Point>, lo: nat, hi: nat, c: Commit)
    requires lo <= hi < |h|
  {
    Lists(c.lh, LoggedIn(h, lo, hi)) && Values(sb, h[hi].meta, h[hi].m, c.lh, c.vals) && LogHolds(g, |c.lh|)
  }

  ghost predicate CommitsTo(g: L.Geometry, d: L.Image, c: Commit, d': L.Image) {
    && g.start < |d| && |c.lh| == |c.vals| <= L.LOGSIZE && (forall i :: 0 <= i < |c.lh| ==> 0 <= c.lh[i])
    && L.InRange(|d|, L.CommitWrites(g, d[g.start], c.lh, c.vals))
    && d' == L.Apply(d, L.CommitWrites(g, d[g.start], c.lh, c.vals))
  }

  /** disks are what the disk holds after each group, if nothing crashes. */
  ghost predicate GroupRun(g: L.Geometry, sb: Super, h: seq<Point>, cuts: seq<nat>, cs: seq<Commit>, disks: seq<L.Image>) {
    && Cuts(cuts, |h|) && |cuts| == |cs| == |disks|
    && L.LogEmpty(g, disks[0]) && OnDisk(g, sb, h[0].meta, h[0].m, disks[0])
    && forall q :: 0 < q < |cuts| ==> GroupOf(g, sb, h, cuts[q - 1], cuts[q], cs[q]) && CommitsTo(g, disks[q - 1], cs[q], disks[q])
  }

  lemma PointMoment(sb: Super, i: int, c: seq<int>, src: seq<int>, off0: nat, h: seq<Point>, k: nat)
    requires History(sb, i, c, src, off0, h) && k < |h|
    ensures |h[k].m.sizes| == |h[k].m.t.addrs|
    ensures 0 <= i < |h[k].files| && h[k].p <= |src| && Holds(sb, h[k].m, h[k].files) && h[k].files[i] == Rewrite(c, off0, src[..h[k].p])
  {
    assert PointOk(sb, i, c, src, off0, h[k]);
    PointParts(sb, i, c, src, off0, h[k]);
    assert Shown(true);
  }

  /** A group of consecutive transactions commits as one change. */
  lemma GroupCommits(
    g: L.Geometry, sb: Super, i: int, b: seq<int>, src: seq<int>, off0: nat, h: seq<Point>, lo: nat, hi: nat, c: Commit)
    requires History(sb, i, b, src, off0, h) && lo <= hi < |h| && GroupOf(g, sb, h, lo, hi, c)
    ensures Commits(g, sb, h[lo].meta, h[lo].m, h[hi].meta, h[hi].m, LoggedIn(h, lo, hi), c)
  {
    ChangeOver(sb, i, b, src, off0, h, lo, hi);
    PointMoment(sb, i, b, src, off0, h, lo);
  }

  /** Without a crash the disk holds the last point of each group when the group has committed. */
  lemma {:induction false} DiskFollows(
    g: L.Geometry, sb: Super, i: int, b: seq<int>, src: seq<int>, off0: nat, h: seq<Point>, cuts: seq<nat>, cs: seq<Commit>, disks: seq<L.Image>, q: nat)
    requires Layout(g, sb) && History(sb, i, b, src, off0, h) && GroupRun(g, sb, h, cuts, cs, disks) && q < |cuts|
    ensures L.LogEmpty(g, disks[q]) && OnDisk(g, sb, h[cuts[q]].meta, h[cuts[q]].m, disks[q])
  {
    if q > 0 {
      DiskFollows(g, sb, i, b, src, off0, h, cuts, cs, disks, q - 1);
      var lo, hi := cuts[q - 1], cuts[q];
      assert GroupOf(g, sb, h, lo, hi, cs[q]) && CommitsTo(g, disks[q - 1], cs[q], disks[q]);
      GroupCommits(g, sb, i, b, src, off0, h, lo, hi, cs[q]);
      CommitInstalls(g, sb, h[lo].meta, h[lo].m, h[hi].meta, h[hi].m, LoggedIn(h, lo, hi), cs[q], disks[q - 1]);
    }
  }

  /** A crash anywhere in a filewrite that shares the log with other processes: after k block writes of
      the q-th commit, which may hold transactions of several of them, followed by any number of crashes
      during recovery. The recovered disk holds the consistent file system of the point at which that
      commit began or ended: the file has been rewritten with exactly the bytes that the write had come
      to at that point. */
  lemma {:induction false} CrashInSharedWrite(
    g: L.Geometry, sb: Super, i: int, b: seq<int>, src: seq<int>, off0: nat, h: seq<Point>, cuts: seq<nat>, cs: seq<Commit>, disks: seq<L.Image>,
    q: nat, k: nat, ks: seq<nat>, ds: seq<L.Image>)
    returns (e: nat)
    requires Layout(g, sb) && History(sb, i, b, src, off0, h) && GroupRun(g, sb, h, cuts, cs, disks)
    requires 0 < q < |cuts| && CommitsTo(g, disks[q - 1], cs[q], disks[q]) && k <= 2 * |cs[q].lh| + 2
    requires L.CrashChain(g, L.Apply(disks[q - 1], L.CommitWrites(g, disks[q - 1][g.start], cs[q].lh, cs[q].vals)[..k]), ks, ds)
    ensures e == (if k <= |cs[q].lh| then cuts[q - 1] else cuts[q]) < |h|
    ensures L.WellFormed(g, ds[|ks|]) && L.InRange(|ds[|ks|]|, L.RecoverWrites(g, ds[|ks|]))
    ensures var final := L.Apply(ds[|ks|], L.RecoverWrites(g, ds[|ks|]));
            L.LogEmpty(g, final) && OnDisk(g, sb, h[e].meta, h[e].m, final)
    ensures 0 <= i < |h[e].files| && h[e].p <= |src| && Holds(sb, h[e].m, h[e].files) && h[e].files[i] == Rewrite(b, off0, src[..h[e].p])
  {
    DiskFollows(g, sb, i, b, src, off0, h, cuts, cs, disks, q - 1);
    var lo, hi := cuts[q - 1], cuts[q];
    e := if k <= |cs[q].lh| then lo else hi;
    PointMoment(sb, i, b, src, off0, h, e);
    assert GroupOf(g, sb, h, lo, hi, cs[q]);
    GroupCommits(g, sb, i, b, src, off0, h, lo, hi, cs[q]);
    CrashInCommit(g, sb, h[lo].meta, h[lo].m, h[hi].meta, h[hi].m, LoggedIn(h, lo, hi), cs[q], disks[q - 1], k, ks, ds);
  }

  // ----- A write alone -----

  /** Commit c brings the disk of the transaction that leads to stage s. */
  ghost predicate StageCommits(sb: Super, meta: seq<Meta>, s: Stage, c: Commit) {
    Lists(c.lh, s.logged) && Values(sb, meta, s.m, c.lh, c.vals)
  }

  /** disks are what the disk holds at the stages of a write, if nothing crashes. */
  ghost predicate DiskRun(g: L.Geometry, sb: Super, meta: seq<Meta>, tr: seq<Stage>, cs: seq<Commit>, disks: seq<L.Image>) {
    && |tr| == |cs| == |disks| > 0
    && L.LogEmpty(g, disks[0]) && OnDisk(g, sb, meta, tr[0].m, disks[0])
    && forall q :: 0 < q < |tr| ==> StageCommits(sb, meta, tr[q], cs[q]) && CommitsTo(g, disks[q - 1], cs[q], disks[q])
  }

  ghost function PointAt(meta: seq<Meta>, files: seq<seq<int>>, i: int, src: seq<int>, off0: nat, s: Stage): Point {
    Point(s.m, meta, if 0 <= i < |files| && s.p <= |src| then files[i := Rewrite(files[i], off0, src[..s.p])] else files, s.p, s.logged)
  }

  /** The stages of a write as a history in which nobody else does anything. */
  ghost function Points(meta: seq<Meta>, files: seq<seq<int>>, i: int, src: seq<int>, off0: nat, tr: seq<Stage>): seq<Point> {
    seq(|tr|, k requires 0 <= k < |tr| => PointAt(meta, files, i, src, off0, tr[k]))
  }

  lemma StagePoint(sb: Super, meta: seq<Meta>, files: seq<seq<int>>, i: int, src: seq<int>, off0: nat, s: Stage)
    requires StageOk(sb, files, i, src, off0, s)
    ensures 0 <= i < |files| && s.p <= |src| && PointOk(sb, i, files[i], src, off0, PointAt(meta, files, i, src, off0, s))
  {
    assert Opened(true);
  }

  lemma TraceHistory(sb: Super, meta: seq<Meta>, files: seq<seq<int>>, i: int, src: seq<int>, off0: nat, tr: seq<Stage>)
    requires Trace(sb, files, i, src, off0, tr) && |tr| > 0
    ensures 0 <= i < |files| && History(sb, i, files[i], src, off0, Points(meta, files, i, src, off0, tr))
  {
    var h := Points(meta, files, i, src, off0, tr);
    assert StageOk(sb, files, i, src, off0, tr[0]);
    StagePoint(sb, meta, files, i, src, off0, tr[0]);
    forall k | 0 <= k < |tr|
      ensures 0 <= i < |files| && tr[k].p <= |src| && PointOk(sb, i, files[i], src, off0, h[k])
    {
      assert StageOk(sb, files, i, src, off0, tr[k]);
      StagePoint(sb, meta, files, i, src, off0, tr[k]);
    }
    forall k | 0 < k < |tr|
      ensures Advance(sb, i, h[k - 1], h[k])
    {
      assert StageNext(sb, tr[k - 1], tr[k]);
    }
  }

  /** The cuts of a write whose transactions all commit one by one. */
  function Singles(n: nat): seq<nat> {
    seq(n, k => k)
  }

  lemma AloneRun(
    g: L.Geometry, sb: Super, meta: seq<Meta>, files: seq<seq<int>>, i: int, src: seq<int>, off0: nat,
    tr: seq<Stage>, cs: seq<Commit>, disks: seq<L.Image>)
    requires Layout(g, sb) && Trace(sb, files, i, src, off0, tr) && DiskRun(g, sb, meta, tr, cs, disks)
    ensures GroupRun(g, sb, Points(meta, files, i, src, off0, tr), Singles(|tr|), cs, disks)
  {
    var h := Points(meta, files, i, src, off0, tr);
    forall q | 0 < q < |tr|
      ensures GroupOf(g, sb, h, q - 1, q, cs[q])
    {
      assert StageCommits(sb, meta, tr[q], cs[q]);
      assert StageNext(sb, tr[q - 1], tr[q]);
      TransactionFits(g, sb, tr[q - 1].m, tr[q].m, tr[q].logged, cs[q].lh);
      assert LoggedIn(h, q - 1, q) == {} + tr[q].logged == tr[q].logged;
    }
  }

  /** A crash anywhere in filewrite: after k block writes of the commit of its q-th transaction, followed
      by any number of crashes during recovery. The recovered disk holds a consistent file system in
      which the file has been rewritten with exactly the bytes of the first q - 1 or q transactions and
      every other file is as before the write. */
  lemma {:induction false} CrashInFileWrite(
    g: L.Geometry, sb: Super, meta: seq<Meta>, files: seq<seq<int>>, i: int, src: seq<int>, off0: nat,
    tr: seq<Stage>, cs: seq<Commit>, disks: seq<L.Image>, q: nat, k: nat, ks: seq<nat>, ds: seq<L.Image>)
    returns (s: Stage)
    requires Layout(g, sb) && Trace(sb, files, i, src, off0, tr) && DiskRun(g, sb, meta, tr, cs, disks)
    requires 0 < q < |tr| && CommitsTo(g, disks[q - 1], cs[q], disks[q]) && k <= 2 * |cs[q].lh| + 2
    requires L.CrashChain(g, L.Apply(disks[q - 1], L.CommitWrites(g, disks[q - 1][g.start], cs[q].lh, cs[q].vals)[..k]), ks, ds)
    ensures s == if k <= |cs[q].lh| then tr[q - 1] else tr[q]
    ensures L.WellFormed(g, ds[|ks|]) && L.InRange(|ds[|ks|]|, L.RecoverWrites(g, ds[|ks|]))
    ensures var final := L.Apply(ds[|ks|], L.RecoverWrites(g, ds[|ks|]));
            L.LogEmpty(g, final) && OnDisk(g, sb, meta, s.m, final)
    ensures 0 <= i < |files| && s.p <= |src| && Holds(sb, s.m, files[i := Rewrite(files[i], off0, src[..s.p])])
  {
    TraceHistory(sb, meta, files, i, src, off0, tr);
    AloneRun(g, sb, meta, files, i, src, off0, tr, cs, disks);
    var h := Points(meta, files, i, src, off0, tr);
    var e := CrashInSharedWrite(g, sb, i, files[i], src, off0, h, Singles(|tr|), cs, disks, q, k, ks, ds);
    s := tr[e];
  }
}
