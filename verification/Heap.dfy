/** The user heap of user/umalloc.c (The C Programming Language, 2nd edition, section 8.7): a circular
    free list, kept in address order, whose neighbours are merged on free. */
module Heap {
  import opened Guards
  import opened HeapBlocks

  /** The search of free: the free block after which b belongs. */
  method FindPlace(freep: int, ptr: map<int, int>, ghost fl: seq<int>, b: int) returns (p: int, ghost k: int)
    requires Cycle(ptr, fl) && Rising(fl) && b !in fl && freep in fl && fl[0] < b
    ensures Place(fl, b, k) && p == fl[k]
  {
    k := PlaceOf(fl, b);
    StopAtPlace(ptr, fl, b, k);
    p := freep;
    ghost var i: int :| 0 <= i < |fl| && fl[i] == p;
    while !(b > p && b < ptr[p])
      invariant 0 <= i < |fl| && fl[i] == p && p in ptr
      decreases if i <= k then k - i else k + |fl| - i
    {
      if p >= ptr[p] && (b > p || b < ptr[p]) {
        break;
      }
      assert ptr[fl[i]] == fl[Succ(i, |fl|)];
      p, i := ptr[p], Succ(i, |fl|);
    }
  }

  /** The first half of free, after the search: merge with the block above, or point to it. */
  method LinkNext(ghost base: int, ghost freep: int, ptr: map<int, int>, size: map<int, int>, ghost s: Blocks,
                  b: int, p: int, ghost k: int)
    returns (ptr': map<int, int>, size': map<int, int>, ghost t: Blocks)
    requires Sound(base, freep, ptr, s) && size == s.size && b in s.live && Place(s.fl, b, k) && p == s.fl[k]
    ensures Half(t, ptr', b, k) && size' == t.size && Extended(s, t, b, k)
  {
    SoundNext(base, freep, ptr, s, b, k);
    var next := ptr[p];
    if b + size[b] == next {
      size' := size[b := size[b] + size[next]];
      ptr' := ptr[b := ptr[next]];
      t := AbsorbNext(s, b, k + 1);
    } else {
      size', ptr', t := size, ptr[b := next], s;
    }
  }

  /** The second half: merge with the block below, or become its successor. */
  method LinkPrev(ptr: map<int, int>, size: map<int, int>, ghost s: Blocks, b: int, p: int, ghost k: int)
    returns (ptr': map<int, int>, size': map<int, int>, ghost t: Blocks, ghost h: int)
    requires Half(s, ptr, b, k) && size == s.size && 0 <= k < |s.fl| && p == s.fl[k]
    ensures t.Ok() && Cycle(ptr', t.fl) && size' == t.size && p in t.fl
    ensures Released(s, t, b, h)
  {
    HalfFacts(s, ptr, b, k);
    if p + size[p] == b {
      WholeJoined(s, ptr, b, k);
      size' := size[p := size[p] + size[b]];
      ptr' := ptr[p := ptr[b]];
      t, h := JoinPrev(s, b, k), p;
    } else {
      WholeAlone(s, ptr, b, k);
      size', ptr' := size, ptr[p := b];
      t, h := InsertAfter(s, b, k), b;
    }
  }

  /** Position of x on the way round the cycle that starts after f and ends at f. */
  function Turn(f: int, x: int, n: int): int {
    if x > f then x - f else x - f + n
  }

  /** The blocks on the first t - 1 positions have less than n units. */
  ghost predicate TooSmall(fl: seq<int>, size: map<int, int>, f: int, t: int, n: int) {
    forall o {:trigger Bared(o)} :: Bared(o) ==>
      forall x :: 0 <= x < |fl| && fl[x] in size && Turn(f, x, |fl|) < t ==> size[fl[x]] < n
  }

  /** What the search relies on: an ordered cycle of blocks whose first has no units. */
  ghost predicate Searchable(ptr: map<int, int>, size: map<int, int>, fl: seq<int>) {
    forall o {:trigger Bared(o)} :: Bared(o) ==>
      && Cycle(ptr, fl) && Rising(fl) && (forall x :: 0 <= x < |fl| ==> fl[x] in size)
      && (fl != [] ==> size[fl[0]] == 0)
  }

  /** The search is at block i, after block j, on its way round from block f. */
  ghost predicate AtBlock(fl: seq<int>, f: int, i: int, j: int) {
    0 <= f < |fl| && 0 <= i < |fl| && 0 <= j < |fl| && i == Succ(j, |fl|)
  }

  lemma ScanStart(ptr: map<int, int>, size: map<int, int>, fl: seq<int>, f: int, n: int)
    requires Searchable(ptr, size, fl) && 0 <= f < |fl|
    ensures fl[f] in ptr && AtBlock(fl, f, Succ(f, |fl|), f) && ptr[fl[f]] == fl[Succ(f, |fl|)] && fl[Succ(f, |fl|)] in size
    ensures TooSmall(fl, size, f, Turn(f, Succ(f, |fl|), |fl|), n)
  {
    assert Bared(true);
  }

  /** A block that is too small: the next one. */
  lemma ScanNext(ptr: map<int, int>, size: map<int, int>, fl: seq<int>, f: int, i: int, n: int)
    requires Searchable(ptr, size, fl) && 0 <= f < |fl| && 0 <= i < |fl| && fl[i] != fl[f]
    requires TooSmall(fl, size, f, Turn(f, i, |fl|), n) && fl[i] in size && size[fl[i]] < n
    ensures fl[i] in ptr && AtBlock(fl, f, Succ(i, |fl|), i) && ptr[fl[i]] == fl[Succ(i, |fl|)] && fl[Succ(i, |fl|)] in size
    ensures Turn(f, Succ(i, |fl|), |fl|) == Turn(f, i, |fl|) + 1 <= |fl|
    ensures TooSmall(fl, size, f, Turn(f, Succ(i, |fl|), |fl|), n)
  {
    assert Bared(true);
    forall x | 0 <= x < |fl| && fl[x] in size && Turn(f, x, |fl|) < Turn(f, i, |fl|) + 1
      ensures size[fl[x]] < n
    {
      if x != i {
        assert Turn(f, x, |fl|) < Turn(f, i, |fl|);
      }
    }
  }

  /** Back at the start: every block is too small. */
  lemma ScanAll(ptr: map<int, int>, size: map<int, int>, fl: seq<int>, f: int, i: int, n: int)
    requires Searchable(ptr, size, fl) && 0 <= f < |fl| && 0 <= i < |fl| && fl[i] == fl[f]
    requires TooSmall(fl, size, f, Turn(f, i, |fl|), n) && fl[i] in size && size[fl[i]] < n
    ensures forall x :: 0 <= x < |fl| ==> fl[x] in size && size[fl[x]] < n
  {
    assert Bared(true);
    assert i == f;
  }

  /** A block with units is not the first, so its predecessor in the cycle is the one before it. */
  lemma ScanFound(ptr: map<int, int>, size: map<int, int>, fl: seq<int>, f: int, i: int, j: int)
    requires Searchable(ptr, size, fl) && AtBlock(fl, f, i, j) && fl[i] in size && size[fl[i]] > 0
    ensures 0 < i && j == i - 1
  {
    assert Bared(true);
  }

  /** The search of malloc: the first block of at least n units on the way round from freep, with its
      predecessor. */
  method Scan(freep: int, ptr: map<int, int>, size: map<int, int>, ghost fl: seq<int>, n: int)
    returns (found: bool, prevp: int, p: int, ghost i: int, ghost f: int)
    requires Searchable(ptr, size, fl) && freep in fl && n > 0
    ensures 0 <= f < |fl| && fl[f] == freep
    ensures found ==> 0 < i < |fl| && fl[i] == p && fl[i - 1] == prevp && p in size && size[p] >= n
    ensures found ==> TooSmall(fl, size, f, Turn(f, i, |fl|), n)
    ensures !found ==> forall x :: 0 <= x < |fl| ==> fl[x] in size && size[fl[x]] < n
  {
    f :| 0 <= f < |fl| && fl[f] == freep;
    ghost var j := f;
    ScanStart(ptr, size, fl, f, n);
    prevp := freep;
    p, i := ptr[prevp], Succ(f, |fl|);
    while true
      invariant AtBlock(fl, f, i, j) && fl[i] == p && fl[j] == prevp && p in size
      invariant TooSmall(fl, size, f, Turn(f, i, |fl|), n)
      decreases |fl| - Turn(f, i, |fl|)
    {
      if size[p] >= n {
        ScanFound(ptr, size, fl, f, i, j);
        found := true;
        return;
      }
      if p == freep {
        found := false;
        ScanAll(ptr, size, fl, f, i, n);
        return;
      }
      ScanNext(ptr, size, fl, f, i, n);
      prevp, j := p, i;
      p, i := ptr[p], Succ(i, |fl|);
    }
  }

  lemma LiveFacts(s: Blocks, b: int)
    requires s.Ok() && b in s.live
    ensures Rising(s.fl) && s.fl != [] && s.fl[0] < b && b !in s.fl
  {
    OkRising(s);
  }

  /** nunits of malloc: the header and as few units as hold nbytes. */
  function UnitsFor(nbytes: nat): (n: nat)
    ensures n > 0 && nbytes <= 16 * (n - 1) < nbytes + 16
  {
    (nbytes + 15) / 16 + 1
  }

  /** What morecore asks for: the larger of 4096 units and what is needed. */
  function CoreUnits(n: int): int {
    if n < 4096 then 4096 else n
  }

  lemma CoreUnitsEnough(n: int)
    ensures n <= CoreUnits(n) && 4096 <= CoreUnits(n) && (CoreUnits(n) == n || CoreUnits(n) == 4096)
  {
  }

  /** The argument that reaches sbrk(int): the number of bytes, cut to 32 bits and read as signed. */
  function SbrkArg(n: nat): int {
    var w := n * 16 % 0x1_0000_0000;
    if w < 0x8000_0000 then w else w - 0x1_0000_0000
  }

  /** sbrk is asked for the units that morecore records exactly when they are fewer than 2^27. */
  lemma SbrkExact(nbytes: nat)
    requires nbytes < 0x1_0000_0000
    ensures SbrkArg(CoreUnits(UnitsFor(nbytes))) == CoreUnits(UnitsFor(nbytes)) * 16 <==> UnitsFor(nbytes) < 0x800_0000
  {
  }

  /** The largest request: morecore records 2^28 + 1 units and asks for the 16 bytes of one. */
  lemma SbrkCutShort()
    ensures CoreUnits(UnitsFor(0xFFFF_FFFF)) == 0x1000_0001 && SbrkArg(0x1000_0001) == 16
  {
  }

  /** free on the fields of the heap. */
  method Release(ghost base: int, freep: int, ptr: map<int, int>, size: map<int, int>, ghost s: Blocks, bp: int)
    returns (p: int, ptr': map<int, int>, size': map<int, int>, ghost t: Blocks, ghost h: int)
    requires Sound(base, freep, ptr, s) && s.size == size && bp in s.live
    ensures Sound(base, p, ptr', t) && t.size == size' && Released(s, t, bp, h) && 0 < p
  {
    assert Bared(true);
    LiveFacts(s, bp);
    ghost var k, t1;
    p, k := FindPlace(freep, ptr, s.fl, bp);
    var ptr1, size1;
    ptr1, size1, t1 := LinkNext(base, freep, ptr, size, s, bp, p, k);
    ptr', size', t, h := LinkPrev(ptr1, size1, t1, bp, p, k);
    ExtendedReleased(s, t1, t, bp, k, h);
  }

  /** Byte k behind the header of a live block lies in that block and, so OneBlock, in no other. */
  lemma Payload(base: int, freep: int, ptr: map<int, int>, s: Blocks, b: int, nbytes: nat, k: nat)
    requires Sound(base, freep, ptr, s) && b in s.live && b in s.size && nbytes <= 16 * (s.size[b] - 1) && k < nbytes
    ensures b + 1 + k / 16 in s.own && s.own[b + 1 + k / 16] == b
  {
    assert Bared(true) && Shown(true);
    assert s.Head(b) ==> s.Of(b + 1 + k / 16) == Some(b);
  }

  lemma SoundStart(base: int, own: map<int, int>)
    requires base > 0 && own == map[]
    ensures Sound(base, base, map[base := base], Blocks([base], {}, map[base := 0], own))
  {
    var s := Blocks([base], {}, map[base := 0], own);
    assert s.Tiles();
  }

  lemma SoundObtain(base: int, freep: int, ptr: map<int, int>, s: Blocks, p: int, n: int)
    requires Sound(base, freep, ptr, s) && n > 0 && base < p && forall u :: u in s.own ==> u < p
    ensures Sound(base, freep, ptr, Obtain(s, p, n)) && p !in s.live && Obtain(s, p, n).own.Keys == s.own.Keys + Units(p, n)
  {
    assert Bared(true);
    ObtainOk(s, p, n);
  }

  /** The search of malloc on the fields of the heap. */
  method Search(ghost base: int, freep: int, ptr: map<int, int>, size: map<int, int>, ghost s: Blocks, n: int)
    returns (found: bool, prevp: int, p: int, ghost i: int)
    requires Sound(base, freep, ptr, s) && s.size == size && n > 0
    ensures found ==> Fits(s, prevp, p, i, n)
    ensures !found ==> forall b :: b in s.fl ==> b in size && size[b] < n
  {
    assert Bared(true);
    OkRising(s);
    ghost var f;
    found, prevp, p, i, f := Scan(freep, ptr, size, s.fl, n);
  }

  /** The block found: all of it, or its last n units. */
  method Carve(ghost base: int, ghost freep: int, ptr: map<int, int>, size: map<int, int>, ghost s: Blocks,
               prevp: int, p: int, ghost i: int, n: int)
    returns (a: int, ptr': map<int, int>, size': map<int, int>, ghost t: Blocks)
    requires Sound(base, freep, ptr, s) && s.size == size && n > 0 && Fits(s, prevp, p, i, n)
    ensures Sound(base, prevp, ptr', t) && t.size == size' && Taken(s, t, a, n) && 0 < base < a && 0 < prevp
  {
    if size[p] == n {
      SoundTakeAll(base, freep, ptr, s, i);
      ptr', size', a, t := ptr[prevp := ptr[p]], size, p, TakeAll(s, i);
    } else {
      SoundTakeTail(base, freep, ptr, s, i, n);
      size' := size[p := size[p] - n];
      a := p + size'[p];
      size' := size'[a := n];
      ptr', t := ptr, TakeTail(s, i, n);
    }
  }

  class Heap {
    const base: int
    var freep: int // 0 before the first call of malloc
    var ptr: map<int, int>
    var size: map<int, int>
    ghost var fl: seq<int>
    ghost var live: set<int>
    ghost var own: map<int, int> // the units that morecore has recorded

    ghost function B(): Blocks
      reads this
    {
      Blocks(fl, live, size, own)
    }

    ghost predicate Valid()
      reads this
    {
      base > 0 && freep >= 0 && if freep == 0 then live == {} && own == map[] else Sound(base, freep, ptr, B())
    }

    constructor (base: int)
      requires base > 0
      ensures Valid() && this.base == base && live == {} && own == map[]
    {
      this.base := base;
      freep, ptr, size, fl, live, own := 0, map[], map[], [], {}, map[];
    }

    /** free: the block goes back to the free list, merged with the free blocks that touch it. */
    method Free(ap: int) returns (ghost h: int)
      requires Valid() && ap - 1 in live
      modifies this
      ensures Valid() && freep != 0 && Released(old(B()), B(), ap - 1, h)
    {
      ghost var t;
      freep, ptr, size, t, h := Release(base, freep, ptr, size, B(), ap - 1);
      fl, live, own := t.fl, t.live, t.own;
      assert B() == t;
    }

    /** What sbrk may return: -1, or memory above all that was obtained before. */
    ghost predicate Grantable(grant: int)
      reads this
    {
      grant == -1 || (base < grant && forall u :: u in own ==> u < grant)
    }

    /** The blocks that were live are live and have their sizes. */
    twostate predicate Kept()
      reads this
    {
      live == old(live) && forall c :: c in live && c in old(size) ==> c in size && size[c] == old(size)[c]
    }

    /** morecore: at least n new units, put on the free list; grant is what sbrk returns. */
    method MoreCore(n: int, grant: int) returns (p: int, ghost h: int)
      requires Valid() && freep != 0 && n > 0 && Grantable(grant)
      modifies this
      ensures Valid() && freep != 0 && Kept()
      ensures p == 0 <==> grant == -1
      ensures p == 0 ==> B() == old(B()) && freep == old(freep)
      ensures p != 0 ==> own.Keys == old(own).Keys + Units(grant, CoreUnits(n))
      ensures p != 0 ==> h in fl && h in size && size[h] >= n
    {
      var nu := CoreUnits(n);
      if grant == -1 {
        return 0, 0;
      }
      SoundObtain(base, freep, ptr, B(), grant, nu);
      ghost var s := Obtain(B(), grant, nu);
      size := size[grant := nu];
      live, own := s.live, s.own;
      assert B() == s;
      h := Free(grant + 1);
      p := freep;
    }

    /** The search of malloc from freep on, and what it takes; 0 if no free block has n units. */
    method TryTake(n: int) returns (r: int)
      requires Valid() && freep != 0 && n > 0
      modifies this
      ensures Valid() && freep != 0
      ensures r == 0 ==> B() == old(B()) && forall b :: b in fl ==> b in size && size[b] < n
      ensures r != 0 ==> Taken(old(B()), B(), r - 1, n) && exists b :: b in old(fl) && b in old(size) && old(size)[b] >= n
    {
      var found, prevp, p, i := Search(base, freep, ptr, size, B(), n);
      if !found {
        return 0;
      }
      assert fl[i] in fl;
      var a := Take(prevp, p, i, n);
      return a + 1;
    }

    method Take(prevp: int, p: int, ghost i: int, n: int) returns (a: int)
      requires Valid() && freep != 0 && n > 0 && Fits(B(), prevp, p, i, n)
      modifies this
      ensures Valid() && freep != 0 && a > 0 && Taken(old(B()), B(), a, n)
    {
      ghost var s := B();
      var ptr1, size1;
      ghost var t;
      a, ptr1, size1, t := Carve(base, freep, ptr, size, s, prevp, p, i, n);
      ptr, size, freep, fl, live, own := ptr1, size1, prevp, t.fl, t.live, t.own;
      assert B() == t;
    }

    /** No free block has n units; so before the first call. */
    ghost predicate NoFit(n: int)
      reads this
    {
      freep == 0 || forall b :: b in fl && b in size ==> size[b] < n
    }

    /** malloc: a new live block of the units for nbytes; or 0, if no free block is large enough and
        sbrk fails. sbrk is called at most once, and only when no free block is large enough. The units
        recorded are those that sbrk was asked for exactly below 2^27 units. */
    method Malloc(nbytes: nat, grant: int) returns (r: int, ghost grown: bool, ghost asked: int)
      requires Valid() && Grantable(grant) && nbytes < 0x1_0000_0000
      modifies this
      ensures Valid() && freep != 0
      ensures asked == SbrkArg(CoreUnits(UnitsFor(nbytes))) && CoreUnits(UnitsFor(nbytes)) >= 4096
      ensures asked == 16 * CoreUnits(UnitsFor(nbytes)) <==> UnitsFor(nbytes) < 0x800_0000
      ensures own.Keys == old(own).Keys + if grown then Units(grant, CoreUnits(UnitsFor(nbytes))) else {}
      ensures grown <==> grant != -1 && old(NoFit(UnitsFor(nbytes)))
      ensures r == 0 <==> grant == -1 && old(NoFit(UnitsFor(nbytes)))
      ensures r == 0 ==> Kept()
      ensures r != 0 ==> r - 1 !in old(live) && live == old(live) + {r - 1} && r - 1 in size && size[r - 1] == UnitsFor(nbytes)
      ensures r != 0 ==> nbytes <= 16 * (size[r - 1] - 1) < nbytes + 16
      ensures r != 0 ==> forall k :: 0 <= k < nbytes ==> r + k / 16 in own && own[r + k / 16] == r - 1
      ensures r != 0 ==> forall c :: c in old(live) && c in old(size) ==> c in size && size[c] == old(size)[c]
    {
      var n := UnitsFor(nbytes);
      asked := SbrkArg(CoreUnits(n));
      SbrkExact(nbytes);
      if freep == 0 {
        ptr, size, freep, fl := map[base := base], map[base := 0], base, [base];
        SoundStart(base, own);
      }
      ghost var h := 0;
      grown := false;
      while true
        invariant Valid() && freep != 0 && Kept() && (!grown ==> Grantable(grant))
        invariant own.Keys == old(own).Keys + if grown then Units(grant, CoreUnits(n)) else {}
        invariant grown ==> h in fl && h in size && size[h] >= n
        invariant !grown ==> NoFit(n) == old(NoFit(n))
        invariant grown ==> grant != -1 && old(NoFit(n))
        decreases if grown then 0 else 1
      {
        r := TryTake(n);
        if r != 0 {
          forall k | 0 <= k < nbytes
            ensures r + k / 16 in own && own[r + k / 16] == r - 1
          {
            Payload(base, freep, ptr, B(), r - 1, nbytes, k);
          }
          return;
        }
        var p;
        p, h := MoreCore(n, grant);
        if p == 0 {
          return 0, false, asked;
        }
        grown := true;
      }
    }
  }
}
