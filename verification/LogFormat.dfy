/** The on-disk redo log of kernel/log.c: its format, what a disk image means after recovery,
    and what a crash between any two block writes of commit() or recovery leaves behind.

    A disk is a sequence of blocks and a block write is atomic. A crash keeps the writes issued
    so far and loses everything in memory, so the disks a crash can leave are exactly those
    obtained from a prefix of the list of writes that the code issues. */
module LogFormat {
  import opened Collections

  const MAXOPBLOCKS: nat := 10
  const LOGSIZE: nat := 30 // MAXOPBLOCKS * 3
  const BLOCK_WORDS: nat := 256 // BSIZE / sizeof(int)

  /** A block seen as ints, the view that the header code takes of it. */
  type Block = b: seq<int> | |b| == BLOCK_WORDS witness seq(BLOCK_WORDS, _ => 0)

  type Image = seq<Block>

  datatype Write = Write(bno: nat, data: Block)

  /** Where the log lies: the header is block `start`, log slot i is block start + 1 + i. */
  datatype Geometry = Geometry(start: nat, size: nat, nblocks: nat) {
    ghost predicate Valid() {
      1 <= size && start + size <= nblocks
    }

    predicate IsHome(b: int) {
      0 <= b < nblocks && !(start <= b < start + size)
    }
  }

  /** A list of logged block numbers that fits the log area and names distinct home blocks. */
  ghost predicate Loggable(g: Geometry, lh: seq<int>) {
    && |lh| <= LOGSIZE
    && |lh| <= g.size - 1
    && NoDup(lh)
    && forall i :: 0 <= i < |lh| ==> g.IsHome(lh[i])
  }

  /** begin_op sleeps while this holds. */
  predicate MustWait(n: int, outstanding: int, committing: bool) {
    committing || n + (outstanding + 1) * MAXOPBLOCKS > LOGSIZE
  }

  /** log_write panics when this holds, whether or not the block is already in the log. */
  predicate TooBig(n: int, size: int) {
    n >= LOGSIZE || n >= size - 1
  }

  /** log_write absorbs a block that is already logged and appends any other. */
  function Absorb(lh: seq<int>, b: int): seq<int> {
    if b in lh then lh else lh + [b]
  }

  // ----- Header block -----

  /** write_head stores n and the first n block numbers and leaves the other words as they were. */
  function HeaderBlock(old_: Block, lh: seq<int>): (h: Block)
    requires |lh| <= LOGSIZE
    ensures h[0] == |lh|
    ensures h[1..1 + h[0]] == lh
  {
    [|lh|] + lh + old_[1 + |lh|..]
  }

  function Entries(h: Block): seq<int>
    requires 0 <= h[0] <= LOGSIZE
  {
    h[1..1 + h[0]]
  }

  ghost predicate WellFormed(g: Geometry, d: Image) {
    && g.Valid()
    && |d| == g.nblocks
    && 0 <= d[g.start][0] <= LOGSIZE
    && Loggable(g, Entries(d[g.start]))
  }

  ghost predicate LogEmpty(g: Geometry, d: Image) {
    WellFormed(g, d) && d[g.start][0] == 0
  }

  /** Index of an entry naming b, or |lh| if there is none. */
  ghost function IndexOf(lh: seq<int>, b: int): (i: nat)
    ensures if b in lh then i < |lh| && lh[i] == b else i == |lh|
  {
    if b in lh then var i :| 0 <= i < |lh| && lh[i] == b; i else |lh|
  }

  // ----- What a disk image means -----

  /** Home block b of d when the log counts lh: its log slot if lh names it. */
  ghost function Resolve(g: Geometry, d: Image, lh: seq<int>, b: int): Block
    requires g.start + 1 + |lh| <= |d| && 0 <= b < |d|
  {
    var i := IndexOf(lh, b);
    if i < |lh| then d[g.start + 1 + i] else d[b]
  }

  /** The contents recovery will give home block b. */
  ghost function Logical(g: Geometry, d: Image, b: int): Block
    requires WellFormed(g, d) && g.IsHome(b)
  {
    Resolve(g, d, Entries(d[g.start]), b)
  }

  ghost function HomeView(g: Geometry, d: Image): map<int, Block>
    requires WellFormed(g, d)
  {
    map b | 0 <= b < g.nblocks && g.IsHome(b) :: Logical(g, d, b)
  }

  ghost function Raw(g: Geometry, d: Image, b: int): Block
    requires |d| == g.nblocks && 0 <= b < g.nblocks && g.IsHome(b)
  {
    d[b]
  }

  /** The home blocks as they lie on the disk, ignoring the log. */
  ghost function RawHome(g: Geometry, d: Image): map<int, Block>
    requires |d| == g.nblocks
  {
    map b | 0 <= b < g.nblocks && g.IsHome(b) :: Raw(g, d, b)
  }

  // ----- Lists of writes -----

  ghost predicate InRange(n: nat, ws: seq<Write>) {
    forall i :: 0 <= i < |ws| ==> ws[i].bno < n
  }

  ghost function Apply(d: Image, ws: seq<Write>): (r: Image)
    requires InRange(|d|, ws)
    ensures |r| == |d|
  {
    if ws == [] then d else
      var w := ws[|ws| - 1];
      Apply(d, ws[..|ws| - 1])[w.bno := w.data]
  }

  lemma ApplyNext(d: Image, ws: seq<Write>, k: nat)
    requires InRange(|d|, ws) && k < |ws|
    ensures Apply(d, ws[..k + 1]) == Apply(d, ws[..k])[ws[k].bno := ws[k].data]
  {
    assert ws[..k + 1][..k] == ws[..k];
  }

  lemma ApplyOne(d: Image, ws: seq<Write>, w: Write)
    requires InRange(|d|, ws) && w.bno < |d|
    ensures InRange(|d|, ws + [w]) && Apply(d, ws + [w]) == Apply(d, ws)[w.bno := w.data]
  {
    assert (ws + [w])[..|ws|] == ws;
  }

  lemma {:induction false} ApplyConcat(d: Image, a: seq<Write>, b: seq<Write>)
    requires InRange(|d|, a) && InRange(|d|, b)
    ensures Apply(d, a + b) == Apply(Apply(d, a), b)
  {
    if b == [] {
      assert a + b == a;
    } else {
      assert (a + b)[..|a + b| - 1] == a + b[..|b| - 1];
      ApplyConcat(d, a, b[..|b| - 1]);
    }
  }

  // ----- The writes of commit() and of recover_from_log() -----

  /** Write number k of commit(): write_log, write_head, install_trans, clear the header -- in that order. */
  function CommitWrite(g: Geometry, header: Block, lh: seq<int>, vals: seq<Block>, k: nat): Write
    requires |lh| == |vals| <= LOGSIZE && k < 2 * |lh| + 2
    requires forall i :: 0 <= i < |lh| ==> 0 <= lh[i]
  {
    var n := |lh|;
    if k < n then Write(g.start + 1 + k, vals[k])
    else if k == n then Write(g.start, HeaderBlock(header, lh))
    else if k < 2 * n + 1 then Write(lh[k - n - 1], vals[k - n - 1])
    else Write(g.start, HeaderBlock(HeaderBlock(header, lh), []))
  }

  function CommitWrites(g: Geometry, header: Block, lh: seq<int>, vals: seq<Block>): (ws: seq<Write>)
    requires |lh| == |vals| <= LOGSIZE
    requires forall i :: 0 <= i < |lh| ==> 0 <= lh[i]
  {
    seq(2 * |lh| + 2, k requires 0 <= k < 2 * |lh| + 2 => CommitWrite(g, header, lh, vals, k))
  }

  /** The first k writes of write_log. */
  function SlotWrites(g: Geometry, vals: seq<Block>, k: nat): (ws: seq<Write>)
    requires k <= |vals|
  {
    seq(k, i requires 0 <= i < k => Write(g.start + 1 + i, vals[i]))
  }

  /** The first k writes of install_trans. */
  function InstallWrites(lh: seq<int>, vals: seq<Block>, k: nat): (ws: seq<Write>)
    requires k <= |vals| == |lh|
    requires forall i :: 0 <= i < |lh| ==> 0 <= lh[i]
  {
    seq(k, i requires 0 <= i < k => Write(lh[i], vals[i]))
  }

  /** Write number k of recover_from_log(): install_trans(1), then write_head with n = 0. */
  function RecoverWrite(g: Geometry, d: Image, lh: seq<int>, k: nat): Write
    requires k <= |lh| && g.start + 1 + |lh| <= |d|
    requires forall i :: 0 <= i < |lh| ==> 0 <= lh[i]
  {
    if k < |lh| then Write(lh[k], d[g.start + 1 + k]) else Write(g.start, HeaderBlock(d[g.start], []))
  }

  function RecoverWrites(g: Geometry, d: Image): (ws: seq<Write>)
    requires WellFormed(g, d)
  {
    var lh := Entries(d[g.start]);
    seq(|lh| + 1, k requires 0 <= k <= |lh| => RecoverWrite(g, d, lh, k))
  }

  // ----- Crash inside commit() -----

  ghost function After(m: map<int, Block>, lh: seq<int>, vals: seq<Block>, b: int): Block
    requires |lh| == |vals| && b in m
  {
    if IndexOf(lh, b) < |lh| then vals[IndexOf(lh, b)] else m[b]
  }

  /** The home contents m once the group (lh, vals) has been applied. */
  ghost function Updated(m: map<int, Block>, lh: seq<int>, vals: seq<Block>): map<int, Block>
    requires |lh| == |vals|
  {
    map b | b in m :: After(m, lh, vals, b)
  }

  /** The home part of dk: the first m logged blocks are new, every other home block is as in d. */
  ghost predicate Installed(g: Geometry, d: Image, lh: seq<int>, vals: seq<Block>, m: int, dk: Image)
    requires Loggable(g, lh) && |lh| == |vals| && |d| == |dk| == g.nblocks
  {
    && (forall i :: 0 <= i < |lh| ==> dk[lh[i]] == if i < m then vals[i] else d[lh[i]])
    && (forall b :: g.IsHome(b) && b !in lh ==> dk[b] == d[b])
  }

  /** The log slots of dk hold the first m values. */
  ghost predicate Logged(g: Geometry, vals: seq<Block>, m: int, dk: Image)
    requires g.Valid() && |vals| <= g.size - 1 && |dk| == g.nblocks
  {
    forall i {:trigger vals[i]} :: 0 <= i < |vals| && i < m ==> dk[g.start + 1 + i] == vals[i]
  }

  ghost function HeaderAt(h: Block, lh: seq<int>, k: nat): Block
    requires |lh| <= LOGSIZE
  {
    if k <= |lh| then h
    else if k < 2 * |lh| + 2 then HeaderBlock(h, lh)
    else HeaderBlock(HeaderBlock(h, lh), [])
  }

  /** What the disk holds after the first k writes of commit(). */
  ghost predicate CommitAt(g: Geometry, d: Image, lh: seq<int>, vals: seq<Block>, k: nat, dk: Image)
    requires g.Valid() && Loggable(g, lh) && |lh| == |vals| && |d| == g.nblocks
  {
    && |dk| == g.nblocks
    && dk[g.start] == HeaderAt(d[g.start], lh, k)
    && Logged(g, vals, Clamp(k, |lh|), dk)
    && Installed(g, d, lh, vals, Clamp(k - |lh| - 1, |lh|), dk)
  }

  function Clamp(x: int, n: nat): nat {
    if x < 0 then 0 else if x > n then n else x
  }

  /** A write outside the home blocks keeps the home part. */
  lemma InstalledKept(g: Geometry, d: Image, lh: seq<int>, vals: seq<Block>, m: int, dk: Image, b: nat, data: Block)
    requires Loggable(g, lh) && |lh| == |vals| && |d| == |dk| == g.nblocks && b < g.nblocks && !g.IsHome(b)
    requires Installed(g, d, lh, vals, m, dk)
    ensures Installed(g, d, lh, vals, m, dk[b := data])
  {
    forall i | 0 <= i < |lh|
      ensures lh[i] != b
    {
      assert g.IsHome(lh[i]);
    }
  }

  /** Installing one more logged block. */
  lemma InstalledNext(g: Geometry, d: Image, lh: seq<int>, vals: seq<Block>, m: nat, dk: Image)
    requires Loggable(g, lh) && m < |lh| == |vals| && |d| == |dk| == g.nblocks
    requires Installed(g, d, lh, vals, m, dk)
    ensures g.IsHome(lh[m]) && Installed(g, d, lh, vals, m + 1, dk[lh[m] := vals[m]])
  {
  }

  /** A write outside the log slots keeps the slots. */
  lemma LoggedKept(g: Geometry, vals: seq<Block>, m: int, dk: Image, b: nat, data: Block)
    requires g.Valid() && |vals| <= g.size - 1 && |dk| == g.nblocks && b < g.nblocks
    requires (g.IsHome(b) || b == g.start) && Logged(g, vals, m, dk)
    ensures Logged(g, vals, m, dk[b := data])
  {
  }

  lemma CommitStep(g: Geometry, d: Image, lh: seq<int>, vals: seq<Block>, k: nat, dk: Image)
    requires g.Valid() && Loggable(g, lh) && |lh| == |vals| && |d| == g.nblocks
    requires k < 2 * |lh| + 2 && CommitAt(g, d, lh, vals, k, dk)
    ensures var w := CommitWrite(g, d[g.start], lh, vals, k);
            w.bno < g.nblocks && CommitAt(g, d, lh, vals, k + 1, dk[w.bno := w.data])
  {
    if k < |lh| {
      SlotStep(g, d, lh, vals, k, dk);
    } else if k == |lh| || k == 2 * |lh| + 1 {
      HeaderStep(g, d, lh, vals, k, dk);
    } else {
      HomeStep(g, d, lh, vals, k, dk);
    }
  }

  /** A write of write_log. */
  lemma SlotStep(g: Geometry, d: Image, lh: seq<int>, vals: seq<Block>, k: nat, dk: Image)
    requires g.Valid() && Loggable(g, lh) && |lh| == |vals| && |d| == g.nblocks
    requires k < |lh| && CommitAt(g, d, lh, vals, k, dk)
    ensures CommitAt(g, d, lh, vals, k + 1, dk[g.start + 1 + k := vals[k]])
  {
    InstalledKept(g, d, lh, vals, 0, dk, g.start + 1 + k, vals[k]);
  }

  /** A write of write_head. */
  lemma HeaderStep(g: Geometry, d: Image, lh: seq<int>, vals: seq<Block>, k: nat, dk: Image)
    requires g.Valid() && Loggable(g, lh) && |lh| == |vals| && |d| == g.nblocks
    requires (k == |lh| || k == 2 * |lh| + 1) && CommitAt(g, d, lh, vals, k, dk)
    ensures CommitAt(g, d, lh, vals, k + 1, dk[g.start := HeaderAt(d[g.start], lh, k + 1)])
  {
    InstalledKept(g, d, lh, vals, Clamp(k - |lh| - 1, |lh|), dk, g.start, HeaderAt(d[g.start], lh, k + 1));
    LoggedKept(g, vals, |lh|, dk, g.start, HeaderAt(d[g.start], lh, k + 1));
  }

  /** A write of install_trans. */
  lemma HomeStep(g: Geometry, d: Image, lh: seq<int>, vals: seq<Block>, k: nat, dk: Image)
    requires g.Valid() && Loggable(g, lh) && |lh| == |vals| && |d| == g.nblocks
    requires |lh| < k < 2 * |lh| + 1 && CommitAt(g, d, lh, vals, k, dk)
    ensures var m := k - |lh| - 1;
            g.IsHome(lh[m]) && CommitAt(g, d, lh, vals, k + 1, dk[lh[m] := vals[m]])
  {
    InstalledNext(g, d, lh, vals, k - |lh| - 1, dk);
    LoggedKept(g, vals, |lh|, dk, lh[k - |lh| - 1], vals[k - |lh| - 1]);
  }

  lemma {:induction false} CommitPrefix(g: Geometry, d: Image, lh: seq<int>, vals: seq<Block>, k: nat)
    requires g.Valid() && Loggable(g, lh) && |lh| == |vals| && |d| == g.nblocks && k <= 2 * |lh| + 2
    ensures InRange(|d|, CommitWrites(g, d[g.start], lh, vals))
    ensures CommitAt(g, d, lh, vals, k, Apply(d, CommitWrites(g, d[g.start], lh, vals)[..k]))
  {
    var ws := CommitWrites(g, d[g.start], lh, vals);
    if k > 0 {
      CommitPrefix(g, d, lh, vals, k - 1);
      ApplyNext(d, ws, k - 1);
      CommitStep(g, d, lh, vals, k - 1, Apply(d, ws[..k - 1]));
    }
  }

  /** Reading home block b when the log counts nothing: the block itself. */
  lemma ResolveCleared(g: Geometry, d: Image, lh: seq<int>, vals: seq<Block>, m: int, dk: Image, b: int)
    requires g.Valid() && Loggable(g, lh) && |lh| == |vals| && |d| == |dk| == g.nblocks && g.IsHome(b)
    requires Installed(g, d, lh, vals, m, dk)
    ensures b !in lh || m <= 0 ==> Resolve(g, dk, [], b) == d[b]
    ensures b in lh && m >= |lh| ==> Resolve(g, dk, [], b) == vals[IndexOf(lh, b)]
  {
    if b in lh {
      assert lh[IndexOf(lh, b)] == b;
    }
  }

  /** Reading home block b when the log counts lh and its slots are filled. */
  lemma ResolveCounted(g: Geometry, d: Image, lh: seq<int>, vals: seq<Block>, m: int, dk: Image, b: int)
    requires g.Valid() && Loggable(g, lh) && |lh| == |vals| && |d| == |dk| == g.nblocks && g.IsHome(b)
    requires Logged(g, vals, |lh|, dk) && Installed(g, d, lh, vals, m, dk)
    ensures Resolve(g, dk, lh, b) == if b in lh then vals[IndexOf(lh, b)] else d[b]
  {
    var i := IndexOf(lh, b);
    if i < |lh| {
      assert vals[i] == dk[g.start + 1 + i];
    }
  }

  /** The logged home blocks of dk are all old or all new, according to its header. */
  lemma CommitView(g: Geometry, d: Image, lh: seq<int>, vals: seq<Block>, k: nat, dk: Image)
    requires LogEmpty(g, d) && Loggable(g, lh) && |lh| == |vals| && k <= 2 * |lh| + 2
    requires CommitAt(g, d, lh, vals, k, dk)
    ensures WellFormed(g, dk)
    ensures HomeView(g, dk) == if k <= |lh| then RawHome(g, d) else Updated(RawHome(g, d), lh, vals)
  {
    assert Entries(dk[g.start]) == if |lh| < k < 2 * |lh| + 2 then lh else [];
    forall b | g.IsHome(b)
      ensures Logical(g, dk, b) == if k <= |lh| || b !in lh then d[b] else vals[IndexOf(lh, b)]
    {
      if |lh| < k < 2 * |lh| + 2 {
        ResolveCounted(g, d, lh, vals, Clamp(k - |lh| - 1, |lh|), dk, b);
      } else {
        ResolveCleared(g, d, lh, vals, Clamp(k - |lh| - 1, |lh|), dk, b);
      }
    }
  }

  /** A crash in commit() leaves the old home contents before the header write and the new ones after it. */
  lemma {:induction false} CrashInCommit(g: Geometry, d: Image, lh: seq<int>, vals: seq<Block>, k: nat)
    requires LogEmpty(g, d) && Loggable(g, lh) && |lh| == |vals| && k <= 2 * |lh| + 2
    ensures InRange(|d|, CommitWrites(g, d[g.start], lh, vals))
    ensures var dk := Apply(d, CommitWrites(g, d[g.start], lh, vals)[..k]);
            && WellFormed(g, dk)
            && HomeView(g, dk) == if k <= |lh| then RawHome(g, d) else Updated(RawHome(g, d), lh, vals)
  {
    CommitPrefix(g, d, lh, vals, k);
    CommitView(g, d, lh, vals, k, Apply(d, CommitWrites(g, d[g.start], lh, vals)[..k]));
  }

  lemma EmptyLogView(g: Geometry, d: Image)
    requires LogEmpty(g, d)
    ensures HomeView(g, d) == RawHome(g, d)
  {
  }

  /** A complete commit leaves an empty log and the new contents in the home blocks themselves. */
  lemma {:induction false} CommitCompletes(g: Geometry, d: Image, lh: seq<int>, vals: seq<Block>)
    requires LogEmpty(g, d) && Loggable(g, lh) && |lh| == |vals|
    ensures InRange(|d|, CommitWrites(g, d[g.start], lh, vals))
    ensures var d' := Apply(d, CommitWrites(g, d[g.start], lh, vals));
            LogEmpty(g, d') && RawHome(g, d') == Updated(RawHome(g, d), lh, vals)
  {
    var ws := CommitWrites(g, d[g.start], lh, vals);
    assert ws[..2 * |lh| + 2] == ws;
    CommitPrefix(g, d, lh, vals, 2 * |lh| + 2);
    CommitView(g, d, lh, vals, 2 * |lh| + 2, Apply(d, ws));
    EmptyLogView(g, Apply(d, ws));
  }

  /** The list of commit()'s writes, phase by phase. */
  lemma CommitPhases(g: Geometry, d: Image, lh: seq<int>, vals: seq<Block>)
    requires g.Valid() && Loggable(g, lh) && |lh| == |vals| && |d| == g.nblocks
    ensures var h := HeaderBlock(d[g.start], lh);
            var (s, i) := (SlotWrites(g, vals, |lh|), InstallWrites(lh, vals, |lh|));
            && InRange(|d|, s) && InRange(|d|, i)
            && CommitWrites(g, d[g.start], lh, vals) == s + [Write(g.start, h)] + i + [Write(g.start, HeaderBlock(h, []))]
            && CommitWrites(g, d[g.start], lh, vals)[..|lh|] == s
  {
    forall i | 0 <= i < |lh|
      ensures lh[i] < |d|
    {
      assert g.IsHome(lh[i]);
    }
  }

  /** The disks at the boundaries of the phases of commit(). */
  lemma {:induction false} CommitPlan(g: Geometry, d: Image, lh: seq<int>, vals: seq<Block>)
    requires LogEmpty(g, d) && Loggable(g, lh) && |lh| == |vals|
    ensures var h := HeaderBlock(d[g.start], lh);
            var (s, i) := (SlotWrites(g, vals, |lh|), InstallWrites(lh, vals, |lh|));
            && InRange(|d|, s) && InRange(|d|, i)
            && CommitWrites(g, d[g.start], lh, vals) == s + [Write(g.start, h)] + i + [Write(g.start, HeaderBlock(h, []))]
            && Apply(d, s)[g.start] == d[g.start]
            && Logged(g, vals, |lh|, Apply(d, s)[g.start := h])
            && InRange(|d|, CommitWrites(g, d[g.start], lh, vals))
            && var d' := Apply(Apply(d, s)[g.start := h], i)[g.start := HeaderBlock(h, [])];
               && LogEmpty(g, d') && RawHome(g, d') == Updated(RawHome(g, d), lh, vals)
               && d' == Apply(d, CommitWrites(g, d[g.start], lh, vals))
  {
    var h := HeaderBlock(d[g.start], lh);
    var s, i := SlotWrites(g, vals, |lh|), InstallWrites(lh, vals, |lh|);
    CommitPhases(g, d, lh, vals);
    CommitPrefix(g, d, lh, vals, |lh|);
    LoggedKept(g, vals, |lh|, Apply(d, s), g.start, h);
    ApplyOne(d, s, Write(g.start, h));
    ApplyConcat(d, s + [Write(g.start, h)], i);
    ApplyOne(d, s + [Write(g.start, h)] + i, Write(g.start, HeaderBlock(h, [])));
    CommitCompletes(g, d, lh, vals);
  }

  // ----- Crash inside recovery -----

  /** What the disk holds after the first k writes of recovery. */
  ghost predicate RecoverAt(g: Geometry, d: Image, lh: seq<int>, k: nat, dk: Image)
    requires g.Valid() && Loggable(g, lh) && |d| == g.nblocks
  {
    && |dk| == g.nblocks
    && dk[g.start] == (if k <= |lh| then d[g.start] else HeaderBlock(d[g.start], []))
    && Logged(g, Slots(g, d, |lh|), |lh|, dk)
    && Installed(g, d, lh, Slots(g, d, |lh|), k, dk)
  }

  /** The contents of the first n log slots. */
  function Slots(g: Geometry, d: Image, n: nat): (vals: seq<Block>)
    requires g.start + 1 + n <= |d|
    ensures |vals| == n
  {
    seq(n, i requires 0 <= i < n => d[g.start + 1 + i])
  }

  /** The list of recovery's writes, phase by phase, and the disk they leave. */
  lemma RecoverPhases(g: Geometry, d: Image)
    requires WellFormed(g, d)
    ensures var lh := Entries(d[g.start]);
            var i := InstallWrites(lh, Slots(g, d, |lh|), |lh|);
            var w := Write(g.start, HeaderBlock(d[g.start], []));
            && InRange(|d|, i)
            && RecoverWrites(g, d) == i + [w]
            && InRange(|d|, i + [w]) && Apply(d, i + [w]) == Apply(d, i)[g.start := w.data]
  {
    var lh := Entries(d[g.start]);
    forall i | 0 <= i < |lh|
      ensures lh[i] < |d|
    {
      assert g.IsHome(lh[i]);
    }
    ApplyOne(d, InstallWrites(lh, Slots(g, d, |lh|), |lh|), Write(g.start, HeaderBlock(d[g.start], [])));
  }

  lemma RecoverStep(g: Geometry, d: Image, lh: seq<int>, k: nat, dk: Image)
    requires g.Valid() && Loggable(g, lh) && |d| == g.nblocks
    requires k <= |lh| && RecoverAt(g, d, lh, k, dk)
    ensures var w := RecoverWrite(g, d, lh, k);
            w.bno < g.nblocks && RecoverAt(g, d, lh, k + 1, dk[w.bno := w.data])
  {
    if k < |lh| {
      assert g.IsHome(lh[k]);
    }
  }

  lemma {:induction false} RecoverPrefix(g: Geometry, d: Image, k: nat)
    requires WellFormed(g, d) && k <= |Entries(d[g.start])| + 1
    ensures InRange(|d|, RecoverWrites(g, d))
    ensures RecoverAt(g, d, Entries(d[g.start]), k, Apply(d, RecoverWrites(g, d)[..k]))
  {
    var ws := RecoverWrites(g, d);
    if k > 0 {
      RecoverPrefix(g, d, k - 1);
      ApplyNext(d, ws, k - 1);
      RecoverStep(g, d, Entries(d[g.start]), k - 1, Apply(d, ws[..k - 1]));
    }
  }

  lemma RecoverFormed(g: Geometry, d: Image, k: nat, dk: Image)
    requires WellFormed(g, d) && k <= |Entries(d[g.start])| + 1
    requires RecoverAt(g, d, Entries(d[g.start]), k, dk)
    ensures WellFormed(g, dk)
    ensures Entries(dk[g.start]) == if k <= |Entries(d[g.start])| then Entries(d[g.start]) else []
  {
  }

  lemma RecoverLogical(g: Geometry, d: Image, k: nat, dk: Image, b: int)
    requires WellFormed(g, d) && WellFormed(g, dk) && k <= |Entries(d[g.start])| + 1 && g.IsHome(b)
    requires RecoverAt(g, d, Entries(d[g.start]), k, dk)
    requires Entries(dk[g.start]) == if k <= |Entries(d[g.start])| then Entries(d[g.start]) else []
    ensures Logical(g, dk, b) == Logical(g, d, b)
  {
    var lh := Entries(d[g.start]);
    if k <= |lh| {
      ResolveCounted(g, d, lh, Slots(g, d, |lh|), k, dk, b);
    } else {
      ResolveCleared(g, d, lh, Slots(g, d, |lh|), k, dk, b);
    }
    ResolveSlots(g, d, lh, b);
  }

  /** Reading home block b through the slots of the same image. */
  lemma ResolveSlots(g: Geometry, d: Image, lh: seq<int>, b: int)
    requires g.Valid() && Loggable(g, lh) && |d| == g.nblocks && g.IsHome(b)
    ensures |Slots(g, d, |lh|)| == |lh| && Resolve(g, d, lh, b) == if b in lh then Slots(g, d, |lh|)[IndexOf(lh, b)] else d[b]
  {
  }

  lemma RecoverView(g: Geometry, d: Image, k: nat, dk: Image)
    requires WellFormed(g, d) && k <= |Entries(d[g.start])| + 1
    requires RecoverAt(g, d, Entries(d[g.start]), k, dk)
    ensures WellFormed(g, dk)
    ensures HomeView(g, dk) == HomeView(g, d)
  {
    RecoverFormed(g, d, k, dk);
    forall b | g.IsHome(b)
      ensures Logical(g, dk, b) == Logical(g, d, b)
    {
      RecoverLogical(g, d, k, dk, b);
    }
  }

  /** A crash anywhere inside recovery changes nothing that a later recovery will see. */
  lemma {:induction false} CrashInRecovery(g: Geometry, d: Image, k: nat)
    requires WellFormed(g, d) && k <= |Entries(d[g.start])| + 1
    ensures InRange(|d|, RecoverWrites(g, d))
    ensures var dk := Apply(d, RecoverWrites(g, d)[..k]);
            WellFormed(g, dk) && HomeView(g, dk) == HomeView(g, d)
  {
    RecoverPrefix(g, d, k);
    RecoverView(g, d, k, Apply(d, RecoverWrites(g, d)[..k]));
  }

  /** A complete recovery empties the log and leaves in each home block what the image meant for it. */
  lemma {:induction false} RecoveryCompletes(g: Geometry, d: Image)
    requires WellFormed(g, d)
    ensures InRange(|d|, RecoverWrites(g, d))
    ensures var d' := Apply(d, RecoverWrites(g, d));
            LogEmpty(g, d') && RawHome(g, d') == HomeView(g, d)
  {
    var ws := RecoverWrites(g, d);
    assert ws[..|ws|] == ws;
    RecoverPrefix(g, d, |ws|);
    RecoverView(g, d, |ws|, Apply(d, ws));
    EmptyLogView(g, Apply(d, ws));
  }

  /** The disks at the boundaries of the phases of recovery. */
  lemma {:induction false} RecoverPlan(g: Geometry, d: Image)
    requires WellFormed(g, d)
    ensures var lh := Entries(d[g.start]);
            var i := InstallWrites(lh, Slots(g, d, |lh|), |lh|);
            && InRange(|d|, i)
            && RecoverWrites(g, d) == i + [Write(g.start, HeaderBlock(d[g.start], []))]
            && Logged(g, Slots(g, d, |lh|), |lh|, d)
            && InRange(|d|, RecoverWrites(g, d))
            && var d' := Apply(d, i)[g.start := HeaderBlock(d[g.start], [])];
               && LogEmpty(g, d') && RawHome(g, d') == HomeView(g, d)
               && d' == Apply(d, RecoverWrites(g, d))
  {
    RecoverPhases(g, d);
    RecoveryCompletes(g, d);
  }

  /** Recovery attempts that crash after ks[0], ks[1], ... of their writes. */
  ghost predicate CrashChain(g: Geometry, d: Image, ks: seq<nat>, ds: seq<Image>) {
    && |ds| == |ks| + 1
    && ds[0] == d
    && forall i :: 0 <= i < |ks| ==>
                     && WellFormed(g, ds[i])
                     && ks[i] <= |RecoverWrites(g, ds[i])|
                     && InRange(|ds[i]|, RecoverWrites(g, ds[i]))
                     && ds[i + 1] == Apply(ds[i], RecoverWrites(g, ds[i])[..ks[i]])
  }

  lemma {:induction false} CrashChainKeepsView(g: Geometry, d: Image, ks: seq<nat>, ds: seq<Image>, i: nat)
    requires WellFormed(g, d) && CrashChain(g, d, ks, ds) && i <= |ks|
    ensures WellFormed(g, ds[i]) && HomeView(g, ds[i]) == HomeView(g, d)
  {
    if i > 0 {
      CrashChainKeepsView(g, d, ks, ds, i - 1);
      CrashInRecovery(g, ds[i - 1], ks[i - 1]);
    }
  }

  /** Crash atomicity: after a crash at any write of commit() and any number of crashes inside the
      recoveries that follow, the recovery that completes leaves every home block old (the commit's
      header write had not reached the disk) or every home block new (it had). */
  lemma {:induction false} CrashAtomicity(g: Geometry, d: Image, lh: seq<int>, vals: seq<Block>, k: nat, ks: seq<nat>, ds: seq<Image>)
    requires LogEmpty(g, d) && Loggable(g, lh) && |lh| == |vals| && k <= 2 * |lh| + 2
    requires InRange(|d|, CommitWrites(g, d[g.start], lh, vals))
    requires CrashChain(g, Apply(d, CommitWrites(g, d[g.start], lh, vals)[..k]), ks, ds)
    ensures WellFormed(g, ds[|ks|]) && InRange(|d|, RecoverWrites(g, ds[|ks|])) && |ds[|ks|]| == |d|
    ensures var final := Apply(ds[|ks|], RecoverWrites(g, ds[|ks|]));
            && LogEmpty(g, final)
            && RawHome(g, final) == if k <= |lh| then RawHome(g, d) else Updated(RawHome(g, d), lh, vals)
  {
    CrashInCommit(g, d, lh, vals, k);
    CrashChainKeepsView(g, ds[0], ks, ds, |ks|);
    RecoveryCompletes(g, ds[|ks|]);
  }
}
