/** filewrite among other processes: a history in which the transactions of one write alternate with
    operations of others that leave its file alone. */
module SharedWrites {
  import opened Guards
  import opened BlockFormat
  import opened FreeMap
  import opened FileWrites
  import opened Inodes

  /** The two words of a disk inode that hold its type, device numbers and link count. */
  datatype Meta = Meta(head: int, link: int)

  /** The file system between two transactions of anybody: its files, how far the write has come, and
      the blocks that the transaction before it logged. */
  datatype Point = Point(m: Moment, meta: seq<Meta>, files: seq<seq<int>>, p: nat, logged: set<int>)

  /** File i, which held c before the write, has been rewritten with exactly the first pt.p bytes. */
  ghost predicate PointOk(sb: Super, i: int, c: seq<int>, src: seq<int>, off0: nat, pt: Point) {
    forall x {:trigger Opened(x)} :: Opened(x) ==>
      && 0 <= i < |pt.files| && pt.p <= |src| && Holds(sb, pt.m, pt.files)
      && pt.files[i] == Rewrite(c, off0, src[..pt.p])
  }

  /** The other words of the inodes change only with a logged inode block. */
  ghost predicate MetaKept(sb: Super, a: seq<Meta>, b: seq<Meta>, logged: set<int>) {
    |a| == |b| && forall j {:trigger sb.InodeBlock(j)} :: 0 <= j < |a| && sb.InodeBlock(j) as int !in logged ==> b[j] == a[j]
  }

  /** A transaction of the write: no other file changes. */
  ghost predicate Ours(a: Point, b: Point, i: int) {
    a.p <= b.p && |b.files| == |a.files| && forall j :: 0 <= j < |a.files| && j != i ==> b.files[j] == a.files[j]
  }

  /** An operation of another process: the file does not change. */
  ghost predicate Theirs(a: Point, b: Point, i: int) {
    b.p == a.p && |b.files| == |a.files| && (0 <= i < |a.files| ==> b.files[i] == a.files[i])
  }

  ghost predicate Advance(sb: Super, i: int, a: Point, b: Point) {
    Transaction(sb, a.m, b.m, b.logged) && MetaKept(sb, a.meta, b.meta, b.logged) && (Ours(a, b, i) || Theirs(a, b, i))
  }

  ghost predicate History(sb: Super, i: int, c: seq<int>, src: seq<int>, off0: nat, h: seq<Point>) {
    && |h| > 0 && (forall k :: 0 <= k < |h| ==> PointOk(sb, i, c, src, off0, h[k]))
    && (forall k :: 0 < k < |h| ==> Advance(sb, i, h[k - 1], h[k]))
  }

  lemma HistoryNext(sb: Super, i: int, c: seq<int>, src: seq<int>, off0: nat, h: seq<Point>, pt: Point)
    requires History(sb, i, c, src, off0, h) && PointOk(sb, i, c, src, off0, pt) && Advance(sb, i, h[|h| - 1], pt)
    ensures History(sb, i, c, src, off0, h + [pt])
  {
  }

  /** Before the write. */
  lemma HistoryStart(sb: Super, i: int, src: seq<int>, off0: nat, m: Moment, meta: seq<Meta>, files: seq<seq<int>>)
    requires 0 <= i < |files| && Holds(sb, m, files)
    ensures History(sb, i, files[i], src, off0, [Point(m, meta, files, 0, {})])
  {
    RewriteNone(files, i, src, off0);
    assert files[i := Rewrite(files[i], off0, src[..0])][i] == files[i];
  }

  /** Any operation that keeps the file system consistent, the file as it is and to the allowance of one
      operation may come between two transactions of the write. */
  lemma HistoryOther(
    sb: Super, i: int, c: seq<int>, src: seq<int>, off0: nat, h: seq<Point>, m: Moment, meta: seq<Meta>, files: seq<seq<int>>, logged: set<int>)
    returns (pt: Point)
    requires History(sb, i, c, src, off0, h) && Holds(sb, m, files)
    requires Transaction(sb, h[|h| - 1].m, m, logged) && MetaKept(sb, h[|h| - 1].meta, meta, logged)
    requires 0 <= i < |files| == |h[|h| - 1].files| && files[i] == h[|h| - 1].files[i]
    ensures pt == Point(m, meta, files, h[|h| - 1].p, logged) && History(sb, i, c, src, off0, h + [pt])
  {
    pt := Point(m, meta, files, h[|h| - 1].p, logged);
    assert PointOk(sb, i, c, src, off0, h[|h| - 1]);
    OtherOk(sb, i, c, src, off0, h[|h| - 1], pt);
    HistoryNext(sb, i, c, src, off0, h, pt);
  }

  lemma OtherOk(sb: Super, i: int, c: seq<int>, src: seq<int>, off0: nat, a: Point, b: Point)
    requires PointOk(sb, i, c, src, off0, a) && Holds(sb, b.m, b.files) && b.p == a.p
    requires 0 <= i < |b.files| == |a.files| && b.files[i] == a.files[i]
    ensures PointOk(sb, i, c, src, off0, b)
  {
    assert Opened(true);
  }

  lemma OursOk(sb: Super, i: int, c: seq<int>, src: seq<int>, off0: nat, a: Point, b: Point, r: nat)
    requires PointOk(sb, i, c, src, off0, a) && Holds(sb, b.m, b.files) && b.p == a.p + r <= |src| && (a.p > 0 ==> off0 <= |c|)
    requires 0 <= i < |a.files| && b.files == a.files[i := Rewrite(a.files[i], off0 + a.p, src[a.p..][..r])]
    ensures PointOk(sb, i, c, src, off0, b) && Ours(a, b, i)
  {
    assert Opened(true);
    assert src[..a.p + r] == src[..a.p] + src[a.p..][..r];
    RewriteTwice(c, off0, src[..a.p], src[a.p..][..r]);
  }

  lemma PointParts(sb: Super, i: int, c: seq<int>, src: seq<int>, off0: nat, pt: Point)
    requires PointOk(sb, i, c, src, off0, pt)
    ensures 0 <= i < |pt.files| && pt.p <= |src| && Holds(sb, pt.m, pt.files) && pt.files[i] == Rewrite(c, off0, src[..pt.p])
  {
    assert Opened(true);
  }

  /** One transaction of the write, whatever others have done to other files since the last. */
  method WriteShared(fs: FileSystem, ghost h: seq<Point>, i: int, ghost c: seq<int>, src: seq<int>, off0: nat, p: nat, n1: nat)
    returns (r: nat, ghost pt: Point)
    requires AreBytes(src) && off0 + p < UINT && 0 < n1 <= CHUNK && (p > 0 ==> off0 <= |c|)
    requires History(fs.bm.sb, i, c, src, off0, h) && h[|h| - 1].m == Now(fs) && h[|h| - 1].p == p && Held(fs, h[|h| - 1].files)
    modifies fs, fs.bm
    ensures r <= n1 && pt.p == p + r <= |src| && (r > 0 ==> off0 + p + r <= MAXBYTES && off0 <= |c|)
    ensures r < n1 ==> Short(fs.NoBlock(i, off0 + p + r), src, |c|, off0, p + n1)
    ensures History(fs.bm.sb, i, c, src, off0, h + [pt]) && pt.m == Now(fs) && Held(fs, pt.files) && Ours(h[|h| - 1], pt, i)
  {
    ghost var a := h[|h| - 1];
    assert PointOk(fs.bm.sb, i, c, src, off0, a);
    r, pt := WriteAfter(fs, a, i, c, src, off0, n1, p);
    HistoryNext(fs.bm.sb, i, c, src, off0, h, pt);
  }

  method WriteAfter(fs: FileSystem, ghost a: Point, i: int, ghost c: seq<int>, src: seq<int>, off0: nat, n1: nat, p: nat)
    returns (r: nat, ghost pt: Point)
    requires AreBytes(src) && off0 + p < UINT && 0 < n1 <= CHUNK && (p > 0 ==> off0 <= |c|)
    requires PointOk(fs.bm.sb, i, c, src, off0, a) && a.m == Now(fs) && a.p == p && Held(fs, a.files)
    modifies fs, fs.bm
    ensures r <= n1 && pt.p == p + r <= |src| && (r > 0 ==> off0 + p + r <= MAXBYTES && off0 <= |c|)
    ensures r < n1 ==> Short(fs.NoBlock(i, off0 + p + r), src, |c|, off0, p + n1)
    ensures PointOk(fs.bm.sb, i, c, src, off0, pt) && pt.m == Now(fs) && Held(fs, pt.files) && Ours(a, pt, i) && Advance(fs.bm.sb, i, a, pt)
  {
    PointParts(fs.bm.sb, i, c, src, off0, a);
    DropBytes(src, p);
    ghost var files;
    r, files := WriteOne(fs, a.files, i, src[p..], off0 + p, n1);
    ShortOverall(fs.NoBlock(i, off0 + p + r), c, src, off0, p, n1);
    HeldSound(fs, files);
    pt := Point(Now(fs), a.meta, files, p + r, fs.bm.logged);
    OursOk(fs.bm.sb, i, c, src, off0, a, pt, r);
  }

  // ----- Several transactions together -----

  lemma ChangeTwice(sb: Super, a: Moment, b: Moment, c: Moment, l: set<int>, k: set<int>)
    requires Change(sb, a, b, l) && Change(sb, b, c, k)
    ensures Change(sb, a, c, l + k)
  {
  }

  /** The blocks logged between points lo and hi. */
  ghost function LoggedIn(h: seq<Point>, lo: nat, hi: nat): set<int>
    requires lo <= hi < |h|
  {
    if lo == hi then {} else LoggedIn(h, lo, hi - 1) + h[hi].logged
  }

  /** Consecutive transactions change nothing that none of them logged. */
  lemma {:induction false} ChangeOver(sb: Super, i: int, c: seq<int>, src: seq<int>, off0: nat, h: seq<Point>, lo: nat, hi: nat)
    requires History(sb, i, c, src, off0, h) && lo <= hi < |h|
    ensures Change(sb, h[lo].m, h[hi].m, LoggedIn(h, lo, hi)) && MetaKept(sb, h[lo].meta, h[hi].meta, LoggedIn(h, lo, hi))
    ensures h[lo].p <= h[hi].p
  {
    if lo < hi {
      ChangeOver(sb, i, c, src, off0, h, lo, hi - 1);
      assert Advance(sb, i, h[hi - 1], h[hi]);
      ChangeTwice(sb, h[lo].m, h[hi - 1].m, h[hi].m, LoggedIn(h, lo, hi - 1), h[hi].logged);
    }
  }
}
