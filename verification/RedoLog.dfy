/** The procedures of kernel/log.c over a disk, a buffer cache and the in-memory header.

    The ghost field `writes` records every disk write in the order it is issued, so a contract
    that gives the new `writes` also gives every disk that a crash could leave: the old disk with
    a prefix of the added writes applied (module LogFormat says what recovery makes of those). */
module RedoLog {
  import opened Collections
  import opened Guards
  import opened LogFormat

  type Cache = map<int, Block>

  datatype Begin = Admitted | Sleeps
  datatype LogOutcome = Recorded | PanicTooBig | PanicOutsideTrans
  datatype EndOutcome = Committed | OthersOutstanding | PanicCommitting

  /** What bread returns for block b. */
  function View(disk: Image, cache: Cache, b: int): Block
    requires 0 <= b < |disk|
  {
    if b in cache then cache[b] else disk[b]
  }

  ghost predicate InDisk(n: nat, lh: seq<int>) {
    forall i :: 0 <= i < |lh| ==> 0 <= lh[i] < n
  }

  /** The cached contents of the logged blocks. */
  ghost function Vals(disk: Image, cache: Cache, lh: seq<int>): (v: seq<Block>)
    requires InDisk(|disk|, lh)
  {
    seq(|lh|, i requires 0 <= i < |lh| => View(disk, cache, lh[i]))
  }

  ghost predicate Holds(disk: Image, cache: Cache, lh: seq<int>, v: seq<Block>) {
    && |v| == |lh|
    && InDisk(|disk|, lh)
    && forall i :: 0 <= i < |lh| ==> View(disk, cache, lh[i]) == v[i]
  }

  /** Every buffer that differs from the disk belongs to a logged block, and not to one of the first `from`. */
  ghost predicate CleanFrom(g: Geometry, disk: Image, cache: Cache, lh: seq<int>, from: nat) {
    forall b :: b in cache ==>
                  && 0 <= b < |disk|
                  && (cache[b] == disk[b] || (g.IsHome(b) && from <= IndexOf(lh, b) < |lh|))
  }

  lemma CleanAfterWrite(g: Geometry, disk: Image, cache: Cache, lh: seq<int>, from: nat, b: int, data: Block)
    requires CleanFrom(g, disk, cache, lh, from) && 0 <= b < |disk|
    ensures CleanFrom(g, disk[b := data], cache[b := data], lh, from)
    ensures from < |lh| && lh[from] == b && NoDup(lh) ==> CleanFrom(g, disk[b := data], cache[b := data], lh, from + 1)
  {
  }

  lemma CleanAfterRead(g: Geometry, disk: Image, cache: Cache, lh: seq<int>, from: nat, b: int)
    requires CleanFrom(g, disk, cache, lh, from) && 0 <= b < |disk|
    ensures CleanFrom(g, disk, cache[b := View(disk, cache, b)], lh, from)
  {
  }

  /** The first k elements of s, counted. */
  ghost function FirstOf(s: seq<int>, k: nat): multiset<int>
    requires k <= |s|
  {
    if k == 0 then multiset{} else FirstOf(s, k - 1) + multiset{s[k - 1]}
  }

  lemma Unpinned(pins: multiset<int>, s: seq<int>, k: nat)
    requires k < |s|
    ensures pins - FirstOf(s, k + 1) == pins - FirstOf(s, k) - multiset{s[k]}
  {
  }

  lemma AppendOne(a: seq<Write>, b: seq<Write>, w: Write)
    ensures a + b + [w] == a + (b + [w])
  {
  }

  /** The writes of commit(); none if nothing is logged. */
  function CommitPlanned(g: Geometry, d: Image, lh: seq<int>, vals: seq<Block>): seq<Write>
    requires g.start < |d| && |lh| == |vals| <= LOGSIZE && forall i :: 0 <= i < |lh| ==> 0 <= lh[i]
  {
    if lh == [] then [] else CommitWrites(g, d[g.start], lh, vals)
  }

  class Log {
    const g: Geometry
    var lh: seq<int> // log.lh: the first n entries of the block array
    var outstanding: int
    var committing: bool
    var disk: Image
    var cache: Cache // contents of the valid buffers
    var pinned: multiset<int> // references taken by bpin
    ghost var writes: seq<Write>

    ghost predicate Valid()
      reads this
    {
      && g.Valid()
      && |disk| == g.nblocks
      && Loggable(g, lh)
    }

    /** The machine comes up: nothing cached, nothing logged, the disk as the crash left it. */
    constructor (g: Geometry, image: Image)
      requires g.Valid() && |image| == g.nblocks
      ensures Valid()
      ensures this.g == g && disk == image && writes == [] && cache == map[] && pinned == multiset{}
      ensures lh == [] && outstanding == 0 && !committing
    {
      this.g := g;
      lh, outstanding, committing := [], 0, false;
      disk, cache, pinned := image, map[], multiset{};
      writes := [];
    }

    method BRead(b: int) returns (data: Block)
      requires 0 <= b < |disk|
      modifies this`cache
      ensures data == View(disk, old(cache), b) && cache == old(cache)[b := data]
    {
      if b !in cache {
        cache := cache[b := disk[b]];
      }
      data := cache[b];
      assert cache == old(cache)[b := data];
    }

    /** Set the buffer of block b to data and write it to the disk. */
    method BWrite(b: int, data: Block)
      requires 0 <= b < |disk|
      modifies this`cache, this`disk, this`writes
      ensures disk == old(disk)[b := data] && cache == old(cache)[b := data]
      ensures writes == old(writes) + [Write(b, data)]
    {
      cache := cache[b := data];
      disk := disk[b := data];
      writes := writes + [Write(b, data)];
    }

    /** One turn of the loop of install_trans; vals are the contents of the log slots. */
    method InstallOne(tail: int, recovering: bool, ghost vals: seq<Block>)
      requires Valid() && 0 <= tail < |lh| == |vals| && CleanFrom(g, disk, cache, lh, tail) && Logged(g, vals, |lh|, disk)
      modifies this`cache, this`disk, this`writes, this`pinned
      ensures Valid() && CleanFrom(g, disk, cache, lh, tail + 1) && Logged(g, vals, |lh|, disk)
      ensures disk == old(disk)[lh[tail] := vals[tail]]
      ensures writes == old(writes) + [Write(lh[tail], vals[tail])]
      ensures pinned == if recovering then old(pinned) else old(pinned) - multiset{lh[tail]}
    {
      LoggedAfterInstall(g, lh, vals, disk, tail);
      CleanAfterRead(g, disk, cache, lh, tail, g.start + tail + 1);
      var lbuf := BRead(g.start + tail + 1);
      assert lbuf == vals[tail];
      CleanAfterRead(g, disk, cache, lh, tail, lh[tail]);
      var dbuf := BRead(lh[tail]);
      CleanAfterWrite(g, disk, cache, lh, tail, lh[tail], lbuf);
      BWrite(lh[tail], lbuf);
      if !recovering {
        pinned := pinned - multiset{lh[tail]};
      }
    }

    /** install_trans after `tail` blocks, from disk d0, writes w0 and pins p0 on. */
    ghost predicate Installing(vals: seq<Block>, d0: Image, w0: seq<Write>, p0: multiset<int>, tail: nat, recovering: bool)
      reads this
    {
      forall x {:trigger Shown(x)} :: Shown(x) ==>
        && Valid() && tail <= |lh| == |vals| && CleanFrom(g, disk, cache, lh, tail) && Logged(g, vals, |lh|, disk)
        && |d0| == |disk| && disk[g.start] == d0[g.start]
        && writes == w0 + InstallWrites(lh, vals, tail)
        && InRange(|d0|, InstallWrites(lh, vals, tail)) && disk == Apply(d0, InstallWrites(lh, vals, tail))
        && pinned == if recovering then p0 else p0 - FirstOf(lh, tail)
    }

    method InstallAndCount(tail: int, recovering: bool, ghost vals: seq<Block>, ghost d0: Image, ghost w0: seq<Write>, ghost p0: multiset<int>)
      requires 0 <= tail < |lh| && Installing(vals, d0, w0, p0, tail, recovering)
      modifies this`cache, this`disk, this`writes, this`pinned
      ensures Installing(vals, d0, w0, p0, tail + 1, recovering)
    {
      assert Shown(true);
      InstallNext(g, d0, lh, vals, tail);
      AppendOne(w0, InstallWrites(lh, vals, tail), Write(lh[tail], vals[tail]));
      Unpinned(p0, lh, tail);
      InstallOne(tail, recovering, vals);
    }

    method InstallTrans(recovering: bool, ghost vals: seq<Block>)
      requires Valid() && CleanFrom(g, disk, cache, lh, 0) && |vals| == |lh| && Logged(g, vals, |lh|, disk)
      modifies this`cache, this`disk, this`writes, this`pinned
      ensures Valid() && CleanFrom(g, disk, cache, lh, |lh|)
      ensures writes == old(writes) + InstallWrites(lh, vals, |lh|)
      ensures InRange(|old(disk)|, InstallWrites(lh, vals, |lh|))
      ensures disk == Apply(old(disk), InstallWrites(lh, vals, |lh|))
      ensures disk[g.start] == old(disk)[g.start]
      ensures pinned == if recovering then old(pinned) else old(pinned) - FirstOf(lh, |lh|)
    {
      ghost var d0, w0, p0 := disk, writes, pinned;
      InstallStart(vals, recovering);
      for tail := 0 to |lh|
        invariant Installing(vals, d0, w0, p0, tail, recovering)
      {
        InstallAndCount(tail, recovering, vals, d0, w0, p0);
      }
      assert Shown(true);
    }

    lemma InstallStart(vals: seq<Block>, recovering: bool)
      requires Valid() && CleanFrom(g, disk, cache, lh, 0) && |vals| == |lh| && Logged(g, vals, |lh|, disk)
      ensures Installing(vals, disk, writes, pinned, 0, recovering)
    {
    }

    /** Copy the on-disk header into memory. */
    method ReadHead()
      requires Valid() && lh == [] && WellFormed(g, disk) && CleanFrom(g, disk, cache, [], 0)
      modifies this`cache, this`lh
      ensures Valid() && CleanFrom(g, disk, cache, lh, |lh|) && lh == Entries(disk[g.start])
    {
      CleanAfterRead(g, disk, cache, [], 0, g.start);
      var buf := BRead(g.start);
      var block := [];
      for i := 0 to buf[0]
        invariant block == buf[1..1 + i]
      {
        block := block + [buf[1 + i]];
      }
      lh := block;
    }

    /** Write the in-memory header to the disk: one block write, the commit point when n > 0. */
    method WriteHead()
      requires Valid() && (g.start in cache ==> cache[g.start] == disk[g.start])
      modifies this`cache, this`disk, this`writes
      ensures Valid()
      ensures var h := HeaderBlock(old(disk)[g.start], lh);
              && disk == old(disk)[g.start := h]
              && cache == old(cache)[g.start := h]
              && writes == old(writes) + [Write(g.start, h)]
    {
      var buf := BRead(g.start);
      var hb: Block := buf[0 := |lh|];
      for i := 0 to |lh|
        invariant |hb| == BLOCK_WORDS
        invariant hb == [|lh|] + lh[..i] + buf[1 + i..]
      {
        hb := hb[1 + i := lh[i]];
      }
      assert lh[..|lh|] == lh;
      BWrite(g.start, hb);
    }

    /** A bread in the loop of write_log. */
    method ReadIn(b: int, ghost vals: seq<Block>) returns (data: Block)
      requires Valid() && 0 <= b < |disk| && CleanFrom(g, disk, cache, lh, 0) && Holds(disk, cache, lh, vals)
      modifies this`cache
      ensures Valid() && CleanFrom(g, disk, cache, lh, 0) && Holds(disk, cache, lh, vals)
      ensures forall i :: 0 <= i < |lh| && lh[i] == b ==> data == vals[i]
    {
      CleanAfterRead(g, disk, cache, lh, 0, b);
      HoldsAfterRead(disk, cache, lh, vals, b);
      data := BRead(b);
    }

    /** One turn of the loop of write_log. */
    method WriteLogOne(tail: int, ghost vals: seq<Block>)
      requires Valid() && 0 <= tail < |lh| && CleanFrom(g, disk, cache, lh, 0)
      requires Holds(disk, cache, lh, vals)
      modifies this`cache, this`disk, this`writes
      ensures Valid() && CleanFrom(g, disk, cache, lh, 0)
      ensures Holds(disk, cache, lh, vals)
      ensures disk == old(disk)[g.start + 1 + tail := vals[tail]]
      ensures writes == old(writes) + [Write(g.start + 1 + tail, vals[tail])]
    {
      var to := ReadIn(g.start + tail + 1, vals);
      var from := ReadIn(lh[tail], vals);
      assert from == vals[tail];
      CleanAfterWrite(g, disk, cache, lh, 0, g.start + tail + 1, from);
      HoldsAfterSlot(g, disk, cache, lh, vals, g.start + tail + 1, from);
      BWrite(g.start + tail + 1, from);
    }

    method WriteLogNext(tail: int, ghost vals: seq<Block>, ghost d0: Image, ghost w0: seq<Write>)
      requires Valid() && 0 <= tail < |lh| && CleanFrom(g, disk, cache, lh, 0) && |d0| == |disk|
      requires Holds(disk, cache, lh, vals)
      requires writes == w0 + SlotWrites(g, vals, tail)
      requires InRange(|d0|, SlotWrites(g, vals, tail)) && disk == Apply(d0, SlotWrites(g, vals, tail))
      modifies this`cache, this`disk, this`writes
      ensures Valid() && CleanFrom(g, disk, cache, lh, 0)
      ensures Holds(disk, cache, lh, vals)
      ensures writes == w0 + SlotWrites(g, vals, tail + 1)
      ensures InRange(|d0|, SlotWrites(g, vals, tail + 1)) && disk == Apply(d0, SlotWrites(g, vals, tail + 1))
    {
      SlotNext(g, d0, vals, tail);
      AppendOne(w0, SlotWrites(g, vals, tail), Write(g.start + 1 + tail, vals[tail]));
      WriteLogOne(tail, vals);
    }

    /** Copy the modified blocks from the cache to the log slots. */
    method WriteLog(ghost vals: seq<Block>)
      requires Valid() && CleanFrom(g, disk, cache, lh, 0)
      requires Holds(disk, cache, lh, vals)
      modifies this`cache, this`disk, this`writes
      ensures Valid() && CleanFrom(g, disk, cache, lh, 0)
      ensures writes == old(writes) + SlotWrites(g, vals, |vals|)
      ensures InRange(|old(disk)|, SlotWrites(g, vals, |vals|)) && disk == Apply(old(disk), SlotWrites(g, vals, |vals|))
    {
      for tail := 0 to |lh|
        invariant Valid() && CleanFrom(g, disk, cache, lh, 0)
        invariant Holds(disk, cache, lh, vals)
        invariant writes == old(writes) + SlotWrites(g, vals, tail)
        invariant InRange(|old(disk)|, SlotWrites(g, vals, tail)) && disk == Apply(old(disk), SlotWrites(g, vals, tail))
      {
        WriteLogNext(tail, vals, old(disk), old(writes));
      }
    }

    /** The writes issued are exactly CommitWrites, so LogFormat.CrashInCommit covers every crash inside. */
    method Commit()
      requires Valid() && LogEmpty(g, disk) && CleanFrom(g, disk, cache, lh, 0) && InDisk(|disk|, lh)
      modifies this`cache, this`disk, this`writes, this`pinned, this`lh
      ensures Valid() && lh == [] && LogEmpty(g, disk) && CleanFrom(g, disk, cache, [], 0)
      ensures var vals := old(Vals(disk, cache, lh));
              && writes == old(writes) + CommitPlanned(g, old(disk), old(lh), vals)
              && RawHome(g, disk) == Updated(RawHome(g, old(disk)), old(lh), vals)
              && InRange(|old(disk)|, CommitPlanned(g, old(disk), old(lh), vals)) && disk == Apply(old(disk), CommitPlanned(g, old(disk), old(lh), vals))
      ensures pinned == old(pinned) - FirstOf(old(lh), |old(lh)|)
    {
      if |lh| > 0 {
        ghost var vals := Vals(disk, cache, lh);
        CommitPlan(g, disk, lh, vals);
        ghost var h := HeaderBlock(disk[g.start], lh);
        Regroup(writes, SlotWrites(g, vals, |lh|), Write(g.start, h), InstallWrites(lh, vals, |lh|), Write(g.start, HeaderBlock(h, [])));
        CommitGroup(vals, h);
      }
    }

    /** write_log, write_head, install_trans and the clearing of the header. */
    method CommitGroup(ghost vals: seq<Block>, ghost h: Block)
      requires Valid() && CleanFrom(g, disk, cache, lh, 0) && |vals| == |lh| && Holds(disk, cache, lh, vals)
      requires h == HeaderBlock(disk[g.start], lh) && InRange(|disk|, SlotWrites(g, vals, |lh|)) && InRange(|disk|, InstallWrites(lh, vals, |lh|))
      requires Apply(disk, SlotWrites(g, vals, |lh|))[g.start] == disk[g.start]
      requires Logged(g, vals, |lh|, Apply(disk, SlotWrites(g, vals, |lh|))[g.start := h])
      modifies this`cache, this`disk, this`writes, this`pinned, this`lh
      ensures Valid() && lh == [] && CleanFrom(g, disk, cache, [], 0)
      ensures writes == old(writes) + SlotWrites(g, vals, |vals|) + [Write(g.start, h)] + InstallWrites(old(lh), vals, |vals|)
                        + [Write(g.start, HeaderBlock(h, []))]
      ensures disk == Apply(Apply(old(disk), SlotWrites(g, vals, |vals|))[g.start := h], InstallWrites(old(lh), vals, |vals|))
                      [g.start := HeaderBlock(h, [])]
      ensures pinned == old(pinned) - FirstOf(old(lh), |old(lh)|)
    {
      WriteLog(vals);
      CleanAfterWrite(g, disk, cache, lh, 0, g.start, HeaderBlock(disk[g.start], lh));
      WriteHead();
      InstallTrans(false, vals);
      ClearHead();
    }

    /** log.lh.n = 0; write_head() */
    method ClearHead()
      requires Valid() && CleanFrom(g, disk, cache, lh, |lh|)
      modifies this`cache, this`disk, this`writes, this`lh
      ensures Valid() && lh == [] && CleanFrom(g, disk, cache, [], 0)
      ensures var h := HeaderBlock(old(disk)[g.start], []);
              disk == old(disk)[g.start := h] && writes == old(writes) + [Write(g.start, h)]
    {
      CleanAfterWrite(g, disk, cache, lh, |lh|, g.start, HeaderBlock(disk[g.start], []));
      lh := [];
      WriteHead();
    }

    /** recover_from_log() on the disk that a crash left. */
    method RecoverFromLog()
      requires Valid() && lh == [] && cache == map[] && WellFormed(g, disk)
      modifies this`cache, this`disk, this`writes, this`pinned, this`lh
      ensures Valid() && lh == [] && LogEmpty(g, disk) && CleanFrom(g, disk, cache, [], 0)
      ensures writes == old(writes) + RecoverWrites(g, old(disk))
      ensures RawHome(g, disk) == HomeView(g, old(disk))
      ensures InRange(|old(disk)|, RecoverWrites(g, old(disk))) && disk == Apply(old(disk), RecoverWrites(g, old(disk)))
      ensures pinned == old(pinned)
    {
      RecoverPlan(g, disk);
      ReadHead();
      InstallTrans(true, Slots(g, disk, |lh|));
      ClearHead();
    }

    /** Caller has modified the buffer of block b: record its number and pin it. */
    method LogWrite(b: int) returns (r: LogOutcome)
      requires Valid()
      modifies this`lh, this`pinned
      ensures r == if TooBig(|old(lh)|, g.size) then PanicTooBig else if outstanding < 1 then PanicOutsideTrans else Recorded
      ensures r != Recorded ==> lh == old(lh) && pinned == old(pinned)
      ensures r == Recorded ==> lh == Absorb(old(lh), b)
      ensures r == Recorded ==> pinned == if b in old(lh) then old(pinned) else old(pinned) + multiset{b}
      ensures Valid() <==> r != Recorded || g.IsHome(b)
    {
      if |lh| >= LOGSIZE || |lh| >= g.size - 1 {
        return PanicTooBig;
      }
      if outstanding < 1 {
        return PanicOutsideTrans;
      }
      var i := 0;
      while i < |lh| && lh[i] != b
        invariant 0 <= i <= |lh|
        invariant forall j :: 0 <= j < i ==> lh[j] != b
      {
        i := i + 1;
      }
      if i == |lh| {
        pinned := pinned + multiset{b};
        lh := lh + [b];
        assert lh[i] == b;
      } else {
        lh := lh[i := b];
      }
      return Recorded;
    }

    /** One turn of the loop of begin_op: enter the group, or sleep until woken and try again. */
    method BeginOp() returns (r: Begin)
      modifies this`outstanding
      ensures r == Sleeps <==> MustWait(|lh|, old(outstanding), committing)
      ensures r == Admitted <==> !committing && |lh| + (old(outstanding) + 1) * 10 <= 30
      ensures outstanding == if r == Sleeps then old(outstanding) else old(outstanding) + 1
    {
      if committing {
        return Sleeps;
      } else if |lh| + (outstanding + 1) * MAXOPBLOCKS > LOGSIZE {
        return Sleeps;
      }
      outstanding := outstanding + 1;
      return Admitted;
    }

    /** Leave the group; the last operation out commits it. */
    method EndOp() returns (r: EndOutcome)
      requires Valid() && LogEmpty(g, disk) && CleanFrom(g, disk, cache, lh, 0) && InDisk(|disk|, lh)
      modifies this
      ensures outstanding == old(outstanding) - 1
      ensures r == if old(committing) then PanicCommitting else if outstanding == 0 then Committed else OthersOutstanding
      ensures r != Committed ==> lh == old(lh) && disk == old(disk) && writes == old(writes) && cache == old(cache)
      ensures r != Committed ==> pinned == old(pinned) && committing == old(committing)
      ensures r == Committed ==>
                && Valid() && !committing && lh == [] && LogEmpty(g, disk) && CleanFrom(g, disk, cache, [], 0)
                && RawHome(g, disk) == Updated(RawHome(g, old(disk)), old(lh), old(Vals(disk, cache, lh)))
                && writes == old(writes) + CommitPlanned(g, old(disk), old(lh), old(Vals(disk, cache, lh)))
                && InRange(|old(disk)|, CommitPlanned(g, old(disk), old(lh), old(Vals(disk, cache, lh))))
                && disk == Apply(old(disk), CommitPlanned(g, old(disk), old(lh), old(Vals(disk, cache, lh))))
                && pinned == old(pinned) - FirstOf(old(lh), |old(lh)|)
    {
      outstanding := outstanding - 1;
      if committing {
        return PanicCommitting;
      }
      if outstanding != 0 {
        return OthersOutstanding;
      }
      committing := true;
      Commit();
      committing := false;
      return Committed;
    }
  }

  lemma Regroup(a: seq<Write>, s: seq<Write>, w: Write, i: seq<Write>, w': Write)
    ensures a + s + [w] + i + [w'] == a + (s + [w] + i + [w'])
  {
  }

  lemma InstallNext(g: Geometry, d: Image, lh: seq<int>, vals: seq<Block>, k: nat)
    requires Loggable(g, lh) && k < |lh| == |vals| && |d| == g.nblocks
    ensures g.IsHome(lh[k])
    ensures InstallWrites(lh, vals, k + 1) == InstallWrites(lh, vals, k) + [Write(lh[k], vals[k])]
    ensures InRange(|d|, InstallWrites(lh, vals, k)) && InRange(|d|, InstallWrites(lh, vals, k + 1))
    ensures Apply(d, InstallWrites(lh, vals, k + 1)) == Apply(d, InstallWrites(lh, vals, k))[lh[k] := vals[k]]
  {
    var ws := InstallWrites(lh, vals, k + 1);
    forall i | 0 <= i <= k
      ensures ws[i].bno < |d|
    {
      assert g.IsHome(lh[i]);
    }
    assert ws[..k] == InstallWrites(lh, vals, k);
  }

  lemma SlotNext(g: Geometry, d: Image, vals: seq<Block>, k: nat)
    requires g.Valid() && k < |vals| <= g.size - 1 && |d| == g.nblocks
    ensures SlotWrites(g, vals, k + 1) == SlotWrites(g, vals, k) + [Write(g.start + 1 + k, vals[k])]
    ensures InRange(|d|, SlotWrites(g, vals, k)) && InRange(|d|, SlotWrites(g, vals, k + 1))
    ensures Apply(d, SlotWrites(g, vals, k + 1)) == Apply(d, SlotWrites(g, vals, k))[g.start + 1 + k := vals[k]]
  {
    assert SlotWrites(g, vals, k + 1)[..k] == SlotWrites(g, vals, k);
  }

  lemma HoldsAfterRead(disk: Image, cache: Cache, lh: seq<int>, v: seq<Block>, b: int)
    requires Holds(disk, cache, lh, v) && 0 <= b < |disk|
    ensures Holds(disk, cache[b := View(disk, cache, b)], lh, v)
  {
  }

  lemma HoldsAfterSlot(g: Geometry, disk: Image, cache: Cache, lh: seq<int>, v: seq<Block>, b: int, data: Block)
    requires Holds(disk, cache, lh, v) && 0 <= b < |disk| && Loggable(g, lh) && !g.IsHome(b)
    ensures Holds(disk[b := data], cache[b := data], lh, v)
  {
    forall i | 0 <= i < |lh|
      ensures lh[i] != b
    {
      assert g.IsHome(lh[i]);
    }
  }

  lemma LoggedAfterInstall(g: Geometry, lh: seq<int>, vals: seq<Block>, disk: Image, k: nat)
    requires g.Valid() && Loggable(g, lh) && |disk| == g.nblocks && k < |lh| == |vals| && Logged(g, vals, |lh|, disk)
    ensures g.IsHome(lh[k]) && Logged(g, vals, |lh|, disk[lh[k] := vals[k]])
  {
  }
}
