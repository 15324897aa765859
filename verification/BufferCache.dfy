/** The buffer cache of kernel/bio.c. Each method is one step of a thread: what it does under
    bcache.lock, or while it holds the sleep-lock of a buffer. Any sequence of calls is a run of
    any number of threads. */
module BufferCache {
  import opened Guards
  import opened BufferRing

  datatype Blk = Blk(dev: int, no: int)

  type Data = seq<int>

  datatype Buf = Buf(valid: bool, blk: Blk, refcnt: int, locked: bool, data: Data)

  /** Contents of the disk; EMPTY where nothing was written. */
  type Disk = map<Blk, Data>

  const EMPTY: Data := []

  function OnDisk(disk: Disk, k: Blk): Data {
    if k in disk then disk[k] else EMPTY
  }

  /** At most one buffer for a block of a real device. */
  ghost predicate Unique(bufs: seq<Buf>) {
    forall i, j :: 0 <= i < j < |bufs| && bufs[i].blk == bufs[j].blk ==> bufs[i].blk.dev == 0
  }

  ghost predicate Cached(bufs: seq<Buf>, i: int, k: Blk) {
    0 <= i < |bufs| && bufs[i].blk == k && bufs[i].valid
  }

  /** The contents of block k that the system sees: the cached copy if there is one. */
  ghost function View(bufs: seq<Buf>, disk: Disk, k: Blk): Data {
    if exists i :: Cached(bufs, i, k) then
      var i :| Cached(bufs, i, k);
      bufs[i].data
    else OnDisk(disk, k)
  }

  lemma ViewCached(bufs: seq<Buf>, disk: Disk, i: int, k: Blk)
    requires Unique(bufs) && Cached(bufs, i, k) && k.dev != 0
    ensures View(bufs, disk, k) == bufs[i].data
  {
    assert forall j :: Cached(bufs, j, k) ==> j == i;
  }

  lemma ViewUncached(bufs: seq<Buf>, disk: Disk, k: Blk)
    requires forall i :: 0 <= i < |bufs| && bufs[i].blk == k ==> !bufs[i].valid
    ensures View(bufs, disk, k) == OnDisk(disk, k)
  {
  }

  /** Every block looks the same. */
  ghost predicate SameView(b0: seq<Buf>, d0: Disk, b1: seq<Buf>, d1: Disk) {
    (forall k: Blk :: k.dev != 0 ==> View(b1, d1, k) == View(b0, d0, k)) == true
  }

  /** Block k has contents v now and the others look the same. */
  ghost predicate ViewSet(b0: seq<Buf>, d0: Disk, b1: seq<Buf>, d1: Disk, k: Blk, v: Data) {
    forall j: Blk :: j.dev != 0 ==> View(b1, d1, j) == if j == k then v else View(b0, d0, j)
  }

  /** Changing one buffer changes the view of at most the blocks that it held and holds. */
  lemma ViewOther(b0: seq<Buf>, d0: Disk, i: int, b: Buf, d1: Disk, k: Blk)
    requires 0 <= i < |b0| && Unique(b0) && Unique(b0[i := b]) && k.dev != 0
    requires k != b0[i].blk && k != b.blk && OnDisk(d1, k) == OnDisk(d0, k)
    ensures View(b0[i := b], d1, k) == View(b0, d0, k)
  {
    var b1 := b0[i := b];
    if j :| Cached(b0, j, k) {
      assert Cached(b1, j, k);
      ViewCached(b0, d0, j, k);
      ViewCached(b1, d1, j, k);
    } else {
      forall j | 0 <= j < |b1| && b1[j].blk == k
        ensures !b1[j].valid
      {
        assert !Cached(b0, j, k);
      }
      ViewUncached(b1, d1, k);
    }
  }

  /** What holds of one buffer: p pins and h threads between bget and brelse make up its reference
      count, a locked buffer has such a thread, and an unlocked, unpinned buffer is as on the disk. */
  ghost predicate BufOk(b: Buf, p: int, h: int, disk: Disk) {
    && 0 <= p && 0 <= h && b.refcnt == p + h && (b.locked ==> h > 0)
    && (b.blk.dev == 0 ==> !b.valid && b.refcnt == 0)
    && (b.valid && !b.locked && p == 0 ==> b.data == OnDisk(disk, b.blk))
  }

  ghost predicate AllOk(bufs: seq<Buf>, pins: seq<int>, holds: seq<int>, disk: Disk) {
    && |pins| == |bufs| && |holds| == |bufs|
    && forall x {:trigger Shown(x)} :: Shown(x) ==> forall i :: 0 <= i < |bufs| ==> BufOk(bufs[i], pins[i], holds[i], disk)
  }

  lemma OkAt(bufs: seq<Buf>, pins: seq<int>, holds: seq<int>, disk: Disk, i: int)
    requires AllOk(bufs, pins, holds, disk) && 0 <= i < |bufs|
    ensures BufOk(bufs[i], pins[i], holds[i], disk)
  {
    assert Shown(true);
  }

  /** Only the buffer that changes has to be looked at. */
  lemma OkSet(bufs: seq<Buf>, pins: seq<int>, holds: seq<int>, disk: Disk, i: int, b: Buf, p: int, h: int)
    requires AllOk(bufs, pins, holds, disk) && 0 <= i < |bufs|
    ensures AllOk(bufs[i := b], pins[i := p], holds[i := h], disk) <==> BufOk(b, p, h, disk)
  {
    var bs, ps, hs := bufs[i := b], pins[i := p], holds[i := h];
    assert Shown(true);
    if AllOk(bs, ps, hs, disk) {
      OkAt(bs, ps, hs, disk, i);
    }
  }

  lemma OkBuf(bufs: seq<Buf>, pins: seq<int>, holds: seq<int>, disk: Disk, i: int, b: Buf)
    requires AllOk(bufs, pins, holds, disk) && 0 <= i < |bufs|
    ensures AllOk(bufs[i := b], pins, holds, disk) <==> BufOk(b, pins[i], holds[i], disk)
  {
    OkSet(bufs, pins, holds, disk, i, b, pins[i], holds[i]);
    assert pins[i := pins[i]] == pins && holds[i := holds[i]] == holds;
  }

  lemma OkHold(bufs: seq<Buf>, pins: seq<int>, holds: seq<int>, disk: Disk, i: int, b: Buf, h: int)
    requires AllOk(bufs, pins, holds, disk) && 0 <= i < |bufs|
    ensures AllOk(bufs[i := b], pins, holds[i := h], disk) <==> BufOk(b, pins[i], h, disk)
  {
    OkSet(bufs, pins, holds, disk, i, b, pins[i], h);
    assert pins[i := pins[i]] == pins;
  }

  lemma OkPin(bufs: seq<Buf>, pins: seq<int>, holds: seq<int>, disk: Disk, i: int, b: Buf, p: int)
    requires AllOk(bufs, pins, holds, disk) && 0 <= i < |bufs|
    ensures AllOk(bufs[i := b], pins[i := p], holds, disk) <==> BufOk(b, p, holds[i], disk)
  {
    OkSet(bufs, pins, holds, disk, i, b, p, holds[i]);
    assert holds[i := holds[i]] == holds;
  }

  /** A change to one buffer that keeps its block and does not touch the data seen. */
  lemma SameBlock(bufs: seq<Buf>, disk: Disk, i: int, b: Buf)
    requires 0 <= i < |bufs| && Unique(bufs) && b.blk == bufs[i].blk
    requires b.valid == bufs[i].valid && b.data == bufs[i].data
    ensures Unique(bufs[i := b]) && SameView(bufs, disk, bufs[i := b], disk)
  {
    forall k: Blk | k.dev != 0
      ensures View(bufs[i := b], disk, k) == View(bufs, disk, k)
    {
      SameBlockAt(bufs, disk, i, b, k);
    }
  }

  lemma SameBlockAt(bufs: seq<Buf>, disk: Disk, i: int, b: Buf, k: Blk)
    requires 0 <= i < |bufs| && Unique(bufs) && b.blk == bufs[i].blk && Unique(bufs[i := b]) && k.dev != 0
    requires b.valid == bufs[i].valid && b.data == bufs[i].data
    ensures View(bufs[i := b], disk, k) == View(bufs, disk, k)
  {
    var b1 := bufs[i := b];
    if j :| Cached(bufs, j, k) {
      assert Cached(b1, j, k);
      ViewCached(bufs, disk, j, k);
      ViewCached(b1, disk, j, k);
    } else {
      assert forall j :: Cached(b1, j, k) ==> Cached(bufs, j, k);
    }
  }

  /** Giving an unused, clean buffer to a block that no buffer holds. */
  lemma Recycle(bufs: seq<Buf>, disk: Disk, i: int, b: Buf)
    requires 0 <= i < |bufs| && Unique(bufs) && !b.valid && (bufs[i].valid ==> bufs[i].data == OnDisk(disk, bufs[i].blk))
    requires forall j :: 0 <= j < |bufs| ==> bufs[j].blk != b.blk
    ensures Unique(bufs[i := b]) && SameView(bufs, disk, bufs[i := b], disk)
  {
    var b1 := bufs[i := b];
    forall k: Blk | k.dev != 0
      ensures View(b1, disk, k) == View(bufs, disk, k)
    {
      if k == b.blk {
        ViewUncached(bufs, disk, k);
        ViewUncached(b1, disk, k);
      } else if k == bufs[i].blk {
        assert forall j :: 0 <= j < |b1| ==> b1[j].blk != k;
        ViewUncached(b1, disk, k);
        if bufs[i].valid {
          ViewCached(bufs, disk, i, k);
        } else {
          assert forall j :: 0 <= j < |bufs| && bufs[j].blk == k ==> j == i;
          ViewUncached(bufs, disk, k);
        }
      } else {
        ViewOther(bufs, disk, i, b, disk, k);
      }
    }
  }

  /** Reusing a buffer whose contents are not on the disk changes what is seen of its block: exactly the
      clean buffers may be recycled. */
  lemma RecycleExact(bufs: seq<Buf>, disk: Disk, i: int, b: Buf)
    requires 0 <= i < |bufs| && Unique(bufs) && !b.valid && (bufs[i].valid ==> bufs[i].blk.dev != 0)
    requires forall j :: 0 <= j < |bufs| ==> bufs[j].blk != b.blk
    ensures SameView(bufs, disk, bufs[i := b], disk) <==> (bufs[i].valid ==> bufs[i].data == OnDisk(disk, bufs[i].blk))
  {
    if bufs[i].valid && bufs[i].data != OnDisk(disk, bufs[i].blk) {
      ViewCached(bufs, disk, i, bufs[i].blk);
      var b1 := bufs[i := b];
      assert forall j :: 0 <= j < |b1| ==> b1[j].blk != bufs[i].blk;
      ViewUncached(b1, disk, bufs[i].blk);
    } else {
      Recycle(bufs, disk, i, b);
    }
  }

  /** New data in the buffer of a block, and possibly on the disk. */
  lemma Store(bufs: seq<Buf>, disk: Disk, i: int, b: Buf, d1: Disk)
    requires 0 <= i < |bufs| && Unique(bufs) && b.blk == bufs[i].blk && b.valid && b.blk.dev != 0
    requires forall k :: k != b.blk ==> OnDisk(d1, k) == OnDisk(disk, k)
    ensures Unique(bufs[i := b]) && ViewSet(bufs, disk, bufs[i := b], d1, b.blk, b.data)
  {
    var b1 := bufs[i := b];
    forall k: Blk | k.dev != 0
      ensures View(b1, d1, k) == if k == b.blk then b.data else View(bufs, disk, k)
    {
      if k == b.blk {
        ViewCached(b1, d1, i, k);
      } else {
        ViewOther(bufs, disk, i, b, d1, k);
      }
    }
  }

  lemma StoreOk(bufs: seq<Buf>, pins: seq<int>, holds: seq<int>, disk: Disk, i: int, d1: Disk)
    requires AllOk(bufs, pins, holds, disk) && Unique(bufs) && 0 <= i < |bufs| && bufs[i].blk.dev != 0
    requires d1 == disk[bufs[i].blk := bufs[i].data]
    ensures AllOk(bufs, pins, holds, d1)
  {
    assert Shown(true);
    forall j | 0 <= j < |bufs|
      ensures BufOk(bufs[j], pins[j], holds[j], d1)
    {
      assert j != i ==> bufs[j].blk != bufs[i].blk;
    }
  }

  /** A block whose one buffer is not valid looks as on the disk. */
  lemma Untouched(bufs: seq<Buf>, disk: Disk, i: int)
    requires 0 <= i < |bufs| && Unique(bufs) && bufs[i].blk.dev != 0 && !bufs[i].valid
    ensures View(bufs, disk, bufs[i].blk) == OnDisk(disk, bufs[i].blk)
  {
    assert forall j :: 0 <= j < |bufs| && bufs[j].blk == bufs[i].blk ==> j == i;
    ViewUncached(bufs, disk, bufs[i].blk);
  }

  class Cache {
    const n: nat // NBUF; buffer n stands for the list head
    var bufs: seq<Buf>
    var next: seq<int>
    var prev: seq<int>
    var disk: Disk
    ghost var ring: seq<int>
    ghost var pins: seq<int>
    ghost var holds: seq<int>

    /** The list is a permutation of all buffers, headed by n. */
    ghost predicate Listed()
      reads this
    {
      && |next| == n + 1 && |ring| == n + 1 && ring[0] == n
      && Linked(next, prev, ring) && All(ring, n + 1)
    }

    ghost predicate Valid()
      reads this
    {
      |bufs| == n && Listed() && Unique(bufs) && AllOk(bufs, pins, holds, disk)
    }

    /** binit: all buffers start as block 0 of device 0, not valid, unused. */
    constructor (n: nat, disk: Disk)
      ensures Valid() && this.n == n && this.disk == disk
      ensures forall i :: 0 <= i < n ==> !bufs[i].valid && bufs[i].refcnt == 0
    {
      this.n, this.disk := n, disk;
      bufs := seq(n, _ => Buf(false, Blk(0, 0), 0, false, EMPTY));
      pins, holds := seq(n, _ => 0), seq(n, _ => 0);
      next, prev, ring := seq(n + 1, _ => n), seq(n + 1, _ => n), [n];
      new;
      for b := 0 to n
        invariant |next| == n + 1 && |ring| == b + 1 && ring[0] == n && Linked(next, prev, ring)
        invariant forall x :: x in ring <==> 0 <= x < b || x == n
        invariant |bufs| == |pins| == |holds| == n && this.disk == disk
        invariant forall i :: 0 <= i < n ==> bufs[i] == Buf(false, Blk(0, 0), 0, false, EMPTY) && pins[i] == 0 && holds[i] == 0
      {
        PushFront(b);
      }
    }

    /** b->next = head.next; b->prev = &head; head.next->prev = b; head.next = b */
    method PushFront(b: int)
      requires |next| == n + 1 && |ring| > 0 && ring[0] == n && Linked(next, prev, ring) && 0 <= b < n && b !in ring
      modifies this`next, this`prev, this`ring
      ensures |next| == n + 1 && ring == Front(old(ring), b) && Linked(next, prev, ring)
      ensures forall x :: x in ring <==> x in old(ring) || x == b
    {
      LinkFront(next, prev, ring, b);
      var first := next[n];
      next := next[b := first];
      prev := prev[b := n];
      prev := prev[first := b];
      next := next[n := b];
      ring := Front(ring, b);
      assert ring[1] == b && forall x :: x in old(ring) ==> x == old(ring)[0] || x in old(ring)[1..];
    }

    /** The first loop of bget: the buffer that holds block k, or -1. */
    method Lookup(k: Blk) returns (b: int)
      requires Valid()
      ensures b == -1 ==> forall i :: 0 <= i < n ==> bufs[i].blk != k
      ensures b != -1 ==> 0 <= b < n && bufs[b].blk == k
    {
      ghost var j := Succ(0, |ring|);
      PrevAt(next, prev, ring, 0);
      b := next[n];
      while b != n
        invariant 0 <= j < |ring| && b == ring[j]
        invariant forall i :: 0 < i < (if j == 0 then |ring| else j) ==> 0 <= ring[i] < n && bufs[ring[i]].blk != k
        decreases if j == 0 then 0 else |ring| - j
      {
        PrevAt(next, prev, ring, j);
        if bufs[b].blk == k {
          return;
        }
        b, j := next[b], Succ(j, |ring|);
      }
      forall i | 0 <= i < n
        ensures bufs[i].blk != k
      {
        assert i in ring;
      }
      b := -1;
    }

    /** The second loop of bget: the least recently used buffer that is not in use, or -1. */
    method LeastUsed() returns (b: int, ghost j: int)
      requires Valid()
      ensures b == -1 ==> forall i :: 0 <= i < n ==> bufs[i].refcnt != 0
      ensures b != -1 ==> 0 <= b < n && 0 < j < |ring| && ring[j] == b && bufs[b].refcnt == 0
      ensures b != -1 ==> forall i :: j < i < |ring| ==> 0 <= ring[i] < n && bufs[ring[i]].refcnt != 0
    {
      PrevAt(next, prev, ring, 0);
      j := |ring| - 1;
      b := prev[n];
      while b != n
        invariant 0 <= j < |ring| && b == ring[j]
        invariant forall i :: j < i < |ring| ==> 0 <= ring[i] < n && bufs[ring[i]].refcnt != 0
        decreases j
      {
        PrevAt(next, prev, ring, j);
        if bufs[b].refcnt == 0 {
          return;
        }
        b, j := prev[b], j - 1;
      }
      forall i | 0 <= i < n
        ensures bufs[i].refcnt != 0
      {
        assert i in ring;
      }
      b := -1;
    }

    /** bget, up to the wait for the buffer's lock: count one more user of the buffer that holds block
        k, or give k the least recently used buffer that nobody uses. It panics (-1) when all are used. */
    method Bget(k: Blk) returns (r: int, ghost j: int)
      requires Valid() && k.dev != 0
      modifies this`bufs, this`holds
      ensures Valid() && SameView(old(bufs), disk, bufs, disk)
      ensures r == -1 ==> bufs == old(bufs) && holds == old(holds)
      ensures r == -1 <==> forall i :: 0 <= i < n ==> old(bufs)[i].blk != k && old(bufs)[i].refcnt != 0
      ensures r != -1 ==> 0 <= r < n && holds == old(holds)[r := old(holds)[r] + 1]
      ensures r != -1 ==> bufs == old(bufs)[r := if old(bufs)[r].blk == k then old(bufs)[r].(refcnt := old(bufs)[r].refcnt + 1)
                                                 else old(bufs)[r].(blk := k, valid := false, refcnt := 1)]
      ensures r != -1 && old(bufs)[r].blk != k ==>
                && old(bufs)[r].refcnt == 0 && 0 < j < |ring| && ring[j] == r
                && (forall i :: j < i < |ring| ==> 0 <= ring[i] < n && old(bufs)[ring[i]].refcnt != 0)
                && (forall i :: 0 <= i < n ==> old(bufs)[i].blk != k)
    {
      j := 0;
      r := Lookup(k);
      if r != -1 {
        Share(r);
        return;
      }
      r, j := LeastUsed();
      if r != -1 {
        Reuse(r, k);
      }
    }

    /** bget on a buffer that holds the block. */
    method Share(b: int)
      requires Valid() && 0 <= b < n && bufs[b].blk.dev != 0
      modifies this`bufs, this`holds
      ensures Valid() && SameView(old(bufs), disk, bufs, disk)
      ensures holds == old(holds)[b := old(holds)[b] + 1]
      ensures bufs == old(bufs)[b := old(bufs)[b].(refcnt := old(bufs)[b].refcnt + 1)]
    {
      ghost var b1 := bufs[b].(refcnt := bufs[b].refcnt + 1);
      SameBlock(bufs, disk, b, b1);
      OkAt(bufs, pins, holds, disk, b);
      OkHold(bufs, pins, holds, disk, b, b1, holds[b] + 1);
      bufs := bufs[b := bufs[b].(refcnt := bufs[b].refcnt + 1)];
      holds := holds[b := holds[b] + 1];
    }

    /** bget on an unused buffer. */
    method Reuse(b: int, k: Blk)
      requires Valid() && 0 <= b < n && bufs[b].refcnt == 0 && k.dev != 0 && forall i :: 0 <= i < n ==> bufs[i].blk != k
      modifies this`bufs, this`holds
      ensures Valid() && SameView(old(bufs), disk, bufs, disk)
      ensures holds == old(holds)[b := old(holds)[b] + 1]
      ensures bufs == old(bufs)[b := old(bufs)[b].(blk := k, valid := false, refcnt := 1)] && !bufs[b].locked
    {
      ghost var b1 := bufs[b].(blk := k, valid := false, refcnt := 1);
      OkAt(bufs, pins, holds, disk, b);
      Recycle(bufs, disk, b, b1);
      OkHold(bufs, pins, holds, disk, b, b1, holds[b] + 1);
      bufs := bufs[b := bufs[b].(blk := k, valid := false, refcnt := 1)];
      holds := holds[b := holds[b] + 1];
    }

    /** acquiresleep by a thread that has the buffer, once nobody holds the lock. */
    method Acquire(b: int)
      requires Valid() && 0 <= b < n && holds[b] > 0 && !bufs[b].locked
      modifies this`bufs
      ensures Valid() && bufs == old(bufs)[b := old(bufs)[b].(locked := true)] && SameView(old(bufs), disk, bufs, disk)
    {
      SameBlock(bufs, disk, b, bufs[b].(locked := true));
      OkAt(bufs, pins, holds, disk, b);
      OkBuf(bufs, pins, holds, disk, b, bufs[b].(locked := true));
      bufs := bufs[b := bufs[b].(locked := true)];
    }

    /** The rest of bread: the locked buffer now holds what the block contains. */
    method Fill(b: int)
      requires Valid() && 0 <= b < n && bufs[b].locked
      modifies this`bufs
      ensures Valid() && SameView(old(bufs), disk, bufs, disk)
      ensures bufs[b].valid && bufs[b].data == View(bufs, disk, bufs[b].blk)
      ensures bufs == old(bufs)[b := old(bufs)[b].(valid := true, data := bufs[b].data)]
    {
      ghost var k := bufs[b].blk;
      OkAt(bufs, pins, holds, disk, b);
      if !bufs[b].valid {
        var data := OnDisk(disk, bufs[b].blk);
        OkBuf(bufs, pins, holds, disk, b, bufs[b].(valid := true, data := data));
        Store(bufs, disk, b, bufs[b].(valid := true, data := data), disk);
        Untouched(bufs, disk, b);
        bufs := bufs[b := bufs[b].(valid := true, data := data)];
      }
      ViewCached(bufs, disk, b, k);
    }

    /** bread: a locked buffer with the contents of the block. If another thread has the block locked the
        caller waits in acquiresleep, counted as a user of the buffer; Acquire and Fill are the rest. */
    method Bread(k: Blk) returns (r: int, waits: bool, ghost j: int)
      requires Valid() && k.dev != 0
      modifies this`bufs, this`holds
      ensures Valid() && SameView(old(bufs), disk, bufs, disk)
      ensures r == -1 <==> forall i :: 0 <= i < n ==> old(bufs)[i].blk != k && old(bufs)[i].refcnt != 0
      ensures r != -1 ==> 0 <= r < n && bufs[r].locked && bufs[r].blk == k && holds == old(holds)[r := old(holds)[r] + 1]
      ensures waits <==> exists i :: 0 <= i < n && old(bufs)[i].blk == k && old(bufs)[i].locked
      ensures waits ==> r != -1 && bufs == old(bufs)[r := old(bufs)[r].(refcnt := old(bufs)[r].refcnt + 1)]
      ensures r != -1 && !waits ==> bufs[r].data == View(old(bufs), disk, k)
    {
      r, j := Bget(k);
      if r == -1 {
        return r, false, j;
      }
      OkAt(old(bufs), pins, old(holds), disk, r);
      waits := bufs[r].locked;
      if waits {
        assert old(bufs)[r].blk == k && old(bufs)[r].locked;
        return;
      }
      assert forall i :: 0 <= i < n && old(bufs)[i].blk == k ==> i == r;
      Acquire(r);
      Fill(r);
    }

    /** The holder of the lock changes the data. */
    method Modify(b: int, data: Data)
      requires Valid() && 0 <= b < n && bufs[b].locked && bufs[b].valid
      modifies this`bufs
      ensures Valid() && bufs == old(bufs)[b := old(bufs)[b].(data := data)]
      ensures ViewSet(old(bufs), disk, bufs, disk, bufs[b].blk, data)
    {
      OkAt(bufs, pins, holds, disk, b);
      OkBuf(bufs, pins, holds, disk, b, bufs[b].(data := data));
      Store(bufs, disk, b, bufs[b].(data := data), disk);
      bufs := bufs[b := bufs[b].(data := data)];
    }

    /** bwrite: the disk gets what is seen of the block, and what is seen does not change. */
    method Bwrite(b: int) returns (panic: bool)
      requires Valid() && 0 <= b < n && bufs[b].valid
      modifies this`disk
      ensures Valid() && SameView(bufs, old(disk), bufs, disk)
      ensures panic <==> !bufs[b].locked
      ensures disk == if panic then old(disk) else old(disk)[bufs[b].blk := View(bufs, old(disk), bufs[b].blk)]
    {
      if !bufs[b].locked {
        return true;
      }
      ghost var d1 := disk[bufs[b].blk := bufs[b].data];
      OkAt(bufs, pins, holds, disk, b);
      ViewCached(bufs, disk, b, bufs[b].blk);
      StoreOk(bufs, pins, holds, disk, b, d1);
      Store(bufs, disk, b, bufs[b], d1);
      assert bufs[b := bufs[b]] == bufs;
      disk := disk[bufs[b].blk := bufs[b].data];
      return false;
    }

    /** releasesleep. The invariant needs the block to have been written, or pinned to be written later. */
    method Release(b: int)
      requires Valid() && 0 <= b < n && bufs[b].locked
      modifies this`bufs
      ensures bufs == old(bufs)[b := old(bufs)[b].(locked := false)] && SameView(old(bufs), disk, bufs, disk)
      ensures Valid() <==> (bufs[b].valid && pins[b] == 0 ==> bufs[b].data == OnDisk(disk, bufs[b].blk))
    {
      SameBlock(bufs, disk, b, bufs[b].(locked := false));
      OkAt(bufs, pins, holds, disk, b);
      OkBuf(bufs, pins, holds, disk, b, bufs[b].(locked := false));
      bufs := bufs[b := bufs[b].(locked := false)];
    }

    /** brelse after releasesleep: one user less; a buffer without users becomes the most recently used. */
    method Unref(b: int, ghost j: int)
      requires Valid() && 0 <= b < n && holds[b] > 0 && (bufs[b].locked ==> holds[b] > 1) && 0 < j < |ring| && ring[j] == b
      modifies this`bufs, this`holds, this`next, this`prev, this`ring
      ensures Valid() && SameView(old(bufs), disk, bufs, disk)
      ensures holds == old(holds)[b := old(holds)[b] - 1]
      ensures bufs == old(bufs)[b := old(bufs)[b].(refcnt := old(bufs)[b].refcnt - 1)]
      ensures ring == if old(bufs)[b].refcnt == 1 then Front(Without(old(ring), j), b) else old(ring)
    {
      SameBlock(bufs, disk, b, bufs[b].(refcnt := bufs[b].refcnt - 1));
      OkAt(bufs, pins, holds, disk, b);
      OkHold(bufs, pins, holds, disk, b, bufs[b].(refcnt := bufs[b].refcnt - 1), holds[b] - 1);
      bufs := bufs[b := bufs[b].(refcnt := bufs[b].refcnt - 1)];
      holds := holds[b := holds[b] - 1];
      if bufs[b].refcnt == 0 {
        MoveFront(b, j);
      }
    }

    method MoveFront(b: int, ghost j: int)
      requires Listed() && 0 <= b < n && 0 < j < |ring| && ring[j] == b
      modifies this`next, this`prev, this`ring
      ensures Listed() && ring == Front(Without(old(ring), j), b)
    {
      Unlink(next, prev, ring, j);
      WithoutShape(ring, j, n + 1);
      prev, next := prev[next[b] := prev[b]], next[prev[b] := next[b]];
      ring := Without(ring, j);
      PushFront(b);
    }

    method Bpin(b: int)
      requires Valid() && 0 <= b < n && holds[b] > 0
      modifies this`bufs, this`pins
      ensures Valid() && SameView(old(bufs), disk, bufs, disk)
      ensures bufs == old(bufs)[b := old(bufs)[b].(refcnt := old(bufs)[b].refcnt + 1)] && pins == old(pins)[b := old(pins)[b] + 1]
    {
      SameBlock(bufs, disk, b, bufs[b].(refcnt := bufs[b].refcnt + 1));
      OkAt(bufs, pins, holds, disk, b);
      OkPin(bufs, pins, holds, disk, b, bufs[b].(refcnt := bufs[b].refcnt + 1), pins[b] + 1);
      bufs := bufs[b := bufs[b].(refcnt := bufs[b].refcnt + 1)];
      pins := pins[b := pins[b] + 1];
    }

    /** bunpin. The invariant needs the last pin to go only when the block is on the disk, or its buffer
        still locked. */
    method Bunpin(b: int)
      requires Valid() && 0 <= b < n && pins[b] > 0
      modifies this`bufs, this`pins
      ensures bufs == old(bufs)[b := old(bufs)[b].(refcnt := old(bufs)[b].refcnt - 1)] && pins == old(pins)[b := old(pins)[b] - 1]
      ensures SameView(old(bufs), disk, bufs, disk)
      ensures Valid() <==> pins[b] > 0 || bufs[b].locked || !bufs[b].valid || bufs[b].data == OnDisk(disk, bufs[b].blk)
    {
      SameBlock(bufs, disk, b, bufs[b].(refcnt := bufs[b].refcnt - 1));
      OkAt(bufs, pins, holds, disk, b);
      OkPin(bufs, pins, holds, disk, b, bufs[b].(refcnt := bufs[b].refcnt - 1), pins[b] - 1);
      bufs := bufs[b := bufs[b].(refcnt := bufs[b].refcnt - 1)];
      pins := pins[b := pins[b] - 1];
    }
  }
}
