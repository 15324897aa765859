/** User memory of kernel/vm.c, built from walk, mappages and uvmunmap. */
module UserMemory {
  import opened Guards
  import opened PageTree
  import opened PageTables

  /** The pages mapped at vpn .. vpn + k, in the order in which freeing them one by one stacks them. */
  ghost function Ppns(a: Space, root: int, vpn: int, k: nat): seq<int> {
    seq(k, j => Flat(a.pt, a.roots, root, vpn + k - 1 - j).ppn)
  }

  /** The user pages among them. */
  ghost function UserPpns(a: Space, root: int, vpn: int, k: nat): set<int> {
    set v | vpn <= v < vpn + k && v < TRAPFRAME :: Flat(a.pt, a.roots, root, v).ppn
  }

  /** A page is mapped at each of vpn .. vpn + n. */
  ghost predicate Present(a: Space, root: int, vpn: int, n: int) {
    (forall v :: vpn <= v < vpn + n ==> Flat(a.pt, a.roots, root, v).v) == true
  }

  lemma PresentNext(a: Space, b: Space, root: int, vpn: int, k: nat)
    requires Present(a, root, vpn, k) && Rewired(a, b, root, vpn, k, Nothing())
    ensures Flat(b.pt, b.roots, root, vpn + k) == Flat(a.pt, a.roots, root, vpn + k)
    ensures Flat(a.pt, a.roots, root, vpn + k).v ==> Present(a, root, vpn, k + 1)
  {
  }

  lemma PpnsNext(a: Space, root: int, vpn: int, k: nat)
    ensures Ppns(a, root, vpn, k + 1) == [Flat(a.pt, a.roots, root, vpn + k).ppn] + Ppns(a, root, vpn, k)
    ensures UserPpns(a, root, vpn, k + 1)
         == UserPpns(a, root, vpn, k) + if vpn + k < TRAPFRAME then {Flat(a.pt, a.roots, root, vpn + k).ppn} else {}
  {
  }

  /** uvmunmap after k pages: what the free list and the kernel's own pages have become. */
  ghost predicate Unmapped(a: Space, b: Space, f0: seq<int>, f1: seq<int>, h0: set<int>, h1: set<int>,
                           root: int, vpn: int, k: nat, doFree: bool) {
    forall x {:trigger Shown(x)} :: Shown(x) ==>
      && Rewired(a, b, root, vpn, k, Nothing())
      && Present(a, root, vpn, k)
      && f1 == (if doFree then Ppns(a, root, vpn, k) else []) + f0
      && h1 == h0 + (if doFree then {} else UserPpns(a, root, vpn, k))
  }

  lemma UnmappedStart(a: Space, f: seq<int>, h: set<int>, root: int, vpn: int, doFree: bool)
    ensures Unmapped(a, a, f, f, h, h, root, vpn, 0, doFree)
  {
    assert Ppns(a, root, vpn, 0) + f == f;
  }

  lemma UnmappedNext(a: Space, b: Space, c: Space, f0: seq<int>, f1: seq<int>, f2: seq<int>,
                     h0: set<int>, h1: set<int>, h2: set<int>, root: int, vpn: int, k: nat, doFree: bool)
    requires Unmapped(a, b, f0, f1, h0, h1, root, vpn, k, doFree)
    requires Flat(b.pt, b.roots, root, vpn + k).v && Rewired(b, c, root, vpn + k, 1, Nothing())
    requires f2 == (if doFree then [Flat(b.pt, b.roots, root, vpn + k).ppn] else []) + f1
    requires h2 == h1 + (if !doFree && vpn + k < TRAPFRAME then {Flat(b.pt, b.roots, root, vpn + k).ppn} else {})
    ensures Unmapped(a, c, f0, f2, h0, h2, root, vpn, k + 1, doFree)
  {
    assert Shown(true);
    PresentNext(a, b, root, vpn, k);
    PpnsNext(a, root, vpn, k);
    RewiredOneMore(a, b, c, root, vpn, k, Nothing());
  }

  method UnmapNext(vm: Vm, ghost a0: Space, ghost f0: seq<int>, ghost h0: set<int>, root: int, ghost vpn: int, ghost k: nat,
                   v: int, doFree: bool) returns (panic: bool)
    requires vm.Valid() && root in vm.roots && v == vpn + k && 0 <= v < MAXVPN && (doFree ==> v < TRAPFRAME)
    requires Unmapped(a0, vm.A(), f0, vm.pool.free, h0, vm.held, root, vpn, k, doFree)
    modifies vm`pt, vm`owner, vm`held, vm.pool
    ensures vm.Valid() && (panic <==> !Flat(a0.pt, a0.roots, root, v).v)
    ensures Unmapped(a0, vm.A(), f0, vm.pool.free, h0, vm.held, root, vpn, if panic then k else k + 1, doFree)
  {
    ghost var b, f, h := vm.A(), vm.pool.free, vm.held;
    assert Present(a0, root, vpn, k) && Rewired(a0, b, root, vpn, k, Nothing()) by {
      assert Shown(true);
    }
    PresentNext(a0, b, root, vpn, k);
    panic := vm.UnmapOne(root, v, doFree);
    if !panic {
      UnmappedNext(a0, b, vm.A(), f0, f, vm.pool.free, h0, h, vm.held, root, vpn, k, doFree);
    }
  }

  /** uvmunmap: the first k pages are unmapped, and freed if doFree; it panics at the first one of
      the n that is not mapped. */
  method UvmUnmap(vm: Vm, root: int, vpn: int, n: nat, doFree: bool) returns (panic: bool, ghost k: nat)
    requires vm.Valid() && root in vm.roots && 0 <= vpn && vpn + n <= MAXVPN && (doFree ==> vpn + n <= TRAPFRAME)
    modifies vm`pt, vm`owner, vm`held, vm.pool
    ensures vm.Valid()
    ensures Unmapped(old(vm.A()), vm.A(), old(vm.pool.free), vm.pool.free, old(vm.held), vm.held, root, vpn, k, doFree)
    ensures if panic then k < n && !Flat(old(vm.pt), old(vm.roots), root, vpn + k).v else k == n
  {
    var a := vpn;
    k := 0;
    UnmappedStart(vm.A(), vm.pool.free, vm.held, root, vpn, doFree);
    while a < vpn + n
      invariant a == vpn + k && k <= n
      invariant vm.Valid()
      invariant Unmapped(old(vm.A()), vm.A(), old(vm.pool.free), vm.pool.free, old(vm.held), vm.held, root, vpn, k, doFree)
    {
      panic := UnmapNext(vm, old(vm.A()), old(vm.pool.free), old(vm.held), root, vpn, k, a, doFree);
      if panic {
        return;
      }
      a, k := a + 1, k + 1;
    }
    return false, k;
  }

  // ----- Growing and copying -----

  /** PGROUNDUP(sz) / PGSIZE */
  function PgUp(sz: int): int {
    (sz + 4095) / 4096
  }

  /** A mapped user page belongs to the spot it is mapped at. */
  lemma LeafOwned(a: Space, root: int, vpn: int)
    requires a.Ok() && Flat(a.pt, a.roots, root, vpn).v && vpn < TRAPFRAME
    ensures Flat(a.pt, a.roots, root, vpn).ppn in a.owner
    ensures a.owner[Flat(a.pt, a.roots, root, vpn).ppn] == Spot(root, -1, vpn)
  {
    var s := Spot(root, -1, vpn);
    assert Up(s) == Spot(root, 0, vpn / 512);
    var t := Tab(a.pt, a.roots, Up(s));
    FlatAt(a, root, vpn, t);
    assert a.F()(s) == Flat(a.pt, a.roots, root, vpn).ppn;
  }

  /** No user page is mapped at two places, in one address space or in two. */
  lemma NoSharing(a: Space, r1: int, v1: int, r2: int, v2: int)
    requires a.Ok() && v1 < TRAPFRAME && v2 < TRAPFRAME
    requires Flat(a.pt, a.roots, r1, v1).v && Flat(a.pt, a.roots, r2, v2).v
    requires Flat(a.pt, a.roots, r1, v1).ppn == Flat(a.pt, a.roots, r2, v2).ppn
    ensures r1 == r2 && v1 == v2
  {
    LeafOwned(a, r1, v1);
    LeafOwned(a, r2, v2);
  }

  /** The same pages are mapped, with the same entries. */
  ghost predicate SameMap(a: Space, b: Space) {
    && b.roots == a.roots
    && forall r, v :: && Flat(b.pt, b.roots, r, v).v == Flat(a.pt, a.roots, r, v).v
                      && (Flat(a.pt, a.roots, r, v).v ==> Flat(b.pt, b.roots, r, v) == Flat(a.pt, a.roots, r, v))
  }

  /** j pages from lo on have been added to an address space, with the given flags and contents. The
      other pages are mapped as before, and the contents of user pages are as before. */
  ghost predicate Backed(a: Space, b: Space, m0: map<int, seq<Byte>>, m1: map<int, seq<Byte>>,
                         root: int, lo: int, j: int, perms: int -> Perm, data: int -> seq<Byte>) {
    forall x {:trigger Bared(x)} :: Bared(x) ==>
      && Elsewhere(a, b, root)
      && (forall r, v :: !(r == root && lo <= v < lo + j) ==> Flat(b.pt, b.roots, r, v) == Flat(a.pt, a.roots, r, v))
      && (forall v :: lo <= v < lo + j ==> Holds(b, m1, root, v, perms(v), data(v)))
      && Kept(a, m0, m1)
  }

  lemma BackedNone(a: Space, m: map<int, seq<Byte>>, root: int, lo: int, j: int, perms: int -> Perm, data: int -> seq<Byte>)
    requires j <= 0
    ensures Backed(a, a, m, m, root, lo, j, perms, data)
  {
  }

  /** A page that has not been added is mapped as before, and holds what it held. */
  lemma BackedElsewhere(a: Space, b: Space, m0: map<int, seq<Byte>>, m1: map<int, seq<Byte>>,
                        root: int, lo: int, j: int, perms: int -> Perm, data: int -> seq<Byte>, r: int, v: int)
    requires Backed(a, b, m0, m1, root, lo, j, perms, data) && !(r == root && lo <= v < lo + j)
    ensures Flat(b.pt, b.roots, r, v) == Flat(a.pt, a.roots, r, v)
    ensures Flat(a.pt, a.roots, r, v).v && v < TRAPFRAME && Flat(a.pt, a.roots, r, v).ppn in m0 ==>
              Flat(a.pt, a.roots, r, v).ppn in m1 && m1[Flat(a.pt, a.roots, r, v).ppn] == m0[Flat(a.pt, a.roots, r, v).ppn]
  {
    assert Bared(true);
  }

  lemma BackedKept(a: Space, b: Space, m0: map<int, seq<Byte>>, m1: map<int, seq<Byte>>,
                   root: int, lo: int, j: int, perms: int -> Perm, data: int -> seq<Byte>)
    requires Backed(a, b, m0, m1, root, lo, j, perms, data)
    ensures Kept(a, m0, m1)
  {
    assert Bared(true);
  }

  ghost predicate Holds(b: Space, m: map<int, seq<Byte>>, root: int, v: int, perm: Perm, data: seq<Byte>) {
    var e := Flat(b.pt, b.roots, root, v);
    e.v && e.perm == perm && e.ppn in m && m[e.ppn] == data
  }

  /** The contents of the user pages of a. */
  ghost predicate Kept(a: Space, m0: map<int, seq<Byte>>, m1: map<int, seq<Byte>>) {
    forall r, v :: Flat(a.pt, a.roots, r, v).v && v < TRAPFRAME && Flat(a.pt, a.roots, r, v).ppn in m0 ==>
      Flat(a.pt, a.roots, r, v).ppn in m1 && m1[Flat(a.pt, a.roots, r, v).ppn] == m0[Flat(a.pt, a.roots, r, v).ppn]
  }

  lemma KeptPut(a: Space, m: map<int, seq<Byte>>, p: int, data: seq<Byte>)
    requires a.Ok() && p !in a.owner
    ensures Kept(a, m, m[p := data])
  {
    forall r, v | Flat(a.pt, a.roots, r, v).v && v < TRAPFRAME
      ensures Flat(a.pt, a.roots, r, v).ppn != p
    {
      LeafOwned(a, r, v);
    }
  }

  lemma BackedNext(a: Space, b: Space, c: Space, m0: map<int, seq<Byte>>, m1: map<int, seq<Byte>>,
                   root: int, lo: int, j: nat, perms: int -> Perm, data: int -> seq<Byte>, p: int)
    requires Backed(a, b, m0, m1, root, lo, j, perms, data) && Vacant(a, root, lo, j) && lo + j < TRAPFRAME
    requires b.Ok() && p !in b.owner && Rewired(b, c, root, lo + j, 1, Linear(lo + j, p, perms(lo + j)))
    ensures Backed(a, c, m0, m1[p := data(lo + j)], root, lo, j + 1, perms, data)
  {
    assert Bared(true);
    var m2 := m1[p := data(lo + j)];
    KeptPut(b, m1, p, data(lo + j));
    forall r, v
      ensures Flat(c.pt, c.roots, r, v)
           == if r == root && lo + j <= v < lo + j + 1 then Pte(true, perms(v), p) else Flat(b.pt, b.roots, r, v)
    {
    }
    forall v | lo <= v < lo + j + 1
      ensures Holds(c, m2, root, v, perms(v), data(v))
    {
      if v < lo + j {
        assert Holds(b, m1, root, v, perms(v), data(v));
      }
    }
    KeptBoth(a, b, m0, m1, m2, root, lo, j);
  }

  lemma KeptBoth(a: Space, b: Space, m0: map<int, seq<Byte>>, m1: map<int, seq<Byte>>, m2: map<int, seq<Byte>>,
                 root: int, lo: int, j: nat)
    requires Kept(a, m0, m1) && Kept(b, m1, m2) && Vacant(a, root, lo, j)
    requires forall r, v :: !(r == root && lo <= v < lo + j) ==> Flat(b.pt, b.roots, r, v) == Flat(a.pt, a.roots, r, v)
    ensures Kept(a, m0, m2)
  {
    forall r, v | Flat(a.pt, a.roots, r, v).v && v < TRAPFRAME && Flat(a.pt, a.roots, r, v).ppn in m0
      ensures Flat(a.pt, a.roots, r, v).ppn in m2
      ensures m2[Flat(a.pt, a.roots, r, v).ppn] == m0[Flat(a.pt, a.roots, r, v).ppn]
    {
      assert Flat(b.pt, b.roots, r, v) == Flat(a.pt, a.roots, r, v);
    }
  }

  lemma BackedSame(a: Space, b: Space, c: Space, m0: map<int, seq<Byte>>, m1: map<int, seq<Byte>>, m2: map<int, seq<Byte>>,
                   root: int, lo: int, j: nat, perms: int -> Perm, data: int -> seq<Byte>)
    requires Backed(a, b, m0, m1, root, lo, j, perms, data) && Vacant(a, root, lo, j) && lo + j <= TRAPFRAME
    requires Rewired(b, c, root, lo + j, 0, Nothing()) && Kept(b, m1, m2)
    ensures Backed(a, c, m0, m2, root, lo, j, perms, data)
  {
    assert Bared(true);
    forall r, v
      ensures Flat(c.pt, c.roots, r, v) == Flat(b.pt, b.roots, r, v)
    {
    }
    forall v | lo <= v < lo + j
      ensures Holds(c, m2, root, v, perms(v), data(v))
    {
      assert Holds(b, m1, root, v, perms(v), data(v));
    }
    KeptBoth(a, b, m0, m1, m2, root, lo, j);
  }

  lemma BackedPresent(a: Space, b: Space, m0: map<int, seq<Byte>>, m1: map<int, seq<Byte>>,
                      root: int, lo: int, j: nat, perms: int -> Perm, data: int -> seq<Byte>)
    requires Backed(a, b, m0, m1, root, lo, j, perms, data)
    ensures Present(b, root, lo, j)
  {
    assert Bared(true);
    forall v | lo <= v < lo + j
      ensures Flat(b.pt, b.roots, root, v).v
    {
      assert Holds(b, m1, root, v, perms(v), data(v));
    }
  }

  /** Unmapping the pages that were added restores the address space. */
  lemma BackedUndo(a: Space, b: Space, c: Space, m0: map<int, seq<Byte>>, m1: map<int, seq<Byte>>,
                   root: int, lo: int, j: nat, perms: int -> Perm, data: int -> seq<Byte>)
    requires Backed(a, b, m0, m1, root, lo, j, perms, data) && Vacant(a, root, lo, j)
    requires Rewired(b, c, root, lo, j, Nothing())
    ensures SameMap(a, c) && Elsewhere(a, c, root)
  {
    assert Bared(true);
    forall r, v
      ensures Flat(c.pt, c.roots, r, v) == if r == root && lo <= v < lo + j then NONE else Flat(a.pt, a.roots, r, v)
    {
      assert Flat(b.pt, b.roots, r, v) == Flat(b.pt, b.roots, r, v);
    }
  }

  lemma NoneRewired(a: Space, b: Space, root: int, v: int, g: int -> Pte)
    requires Rewired(a, b, root, v, 0, g)
    ensures Rewired(a, b, root, v, 0, Nothing())
  {
  }

  lemma NothingRewired(a: Space, root: int, v: int)
    ensures Rewired(a, a, root, v, 0, Nothing())
  {
  }

  lemma KeptFresh(vm: Vm, p: int, data: seq<Byte>)
    requires vm.Valid() && p in vm.held
    ensures Kept(vm.A(), vm.mem, vm.mem[p := data])
  {
    assert Opened(true);
    KeptPut(vm.A(), vm.mem, p, data);
  }

  /** kalloc, fill the page, mappages of that one page; the page is freed again if mappages fails. It
      panics if a page is mapped there already. */
  method MapNew(vm: Vm, root: int, v: int, perm: Perm, data: seq<Byte>) returns (r: Outcome, ghost p: int)
    requires vm.Valid() && vm.Filled() && root in vm.roots && 0 <= v <= TRAPFRAME && perm.Leaf() && |data| == 4096
    requires v == TRAPFRAME ==> vm.pool.free == []
    modifies vm`pt, vm`owner, vm`held, vm`mem, vm.pool
    ensures vm.Valid() && vm.Filled() && (r != Panic ==> vm.held == old(vm.held))
    ensures r == NoMemory <==> old(|vm.pool.free|) < 1 + Missing(old(vm.A()), root, v)
    ensures r == Panic <==> old(|vm.pool.free|) >= 1 && Flat(old(vm.pt), old(vm.roots), root, v).v
    ensures r == Done ==> |vm.pool.free| == old(|vm.pool.free|) - 1 - Missing(old(vm.A()), root, v)
    ensures r == Done ==> p !in old(vm.owner) && vm.mem == old(vm.mem)[p := data]
    ensures r == Done ==> Rewired(old(vm.A()), vm.A(), root, v, 1, Linear(v, p, perm)) && Spread(old(vm.A()), vm.A(), root, v, 1)
    ensures r != Done ==> Rewired(old(vm.A()), vm.A(), root, v, 0, Nothing()) && Kept(old(vm.A()), old(vm.mem), vm.mem)
  {
    var page := vm.Kalloc();
    p := page;
    if page == 0 {
      NothingRewired(vm.A(), root, v);
      return NoMemory, p;
    }
    KeptFresh(vm, page, data);
    vm.mem := vm.mem[page := data];
    r := MapHeld(vm, root, v, page, perm);
    assert old(vm.held) + {page} - {page} == old(vm.held);
  }

  /** mappages of one page that the kernel holds; if that fails the page is freed. */
  method MapHeld(vm: Vm, root: int, v: int, page: int, perm: Perm) returns (r: Outcome)
    requires vm.Valid() && root in vm.roots && 0 <= v < TRAPFRAME && perm.Leaf() && page in vm.held && page > 0
    modifies vm`pt, vm`owner, vm`held, vm.pool
    ensures vm.Valid() && (r != Panic ==> vm.held == old(vm.held) - {page})
    ensures r == NoMemory <==> old(|vm.pool.free|) < Missing(old(vm.A()), root, v)
    ensures r == Panic <==> Flat(old(vm.pt), old(vm.roots), root, v).v
    ensures r == Done ==> |vm.pool.free| == old(|vm.pool.free|) - Missing(old(vm.A()), root, v)
    ensures r == Done ==> Rewired(old(vm.A()), vm.A(), root, v, 1, Linear(v, page, perm)) && Spread(old(vm.A()), vm.A(), root, v, 1)
    ensures r != Done ==> Rewired(old(vm.A()), vm.A(), root, v, 0, Nothing())
  {
    vm.OneMissing(root, v);
    ghost var k;
    r, k := vm.MapPages(root, v, 1, page, perm);
    HandedSets(old(vm.held), vm.held, v, page, k);
    if r != Done {
      NoneRewired(old(vm.A()), vm.A(), root, v, Linear(v, page, perm));
    }
    if r == NoMemory {
      vm.Kfree(page);
    }
  }

  /** uvmdealloc: the pages from PGROUNDUP(newsz) to PGROUNDUP(oldsz) are unmapped and freed. */
  method UvmDealloc(vm: Vm, root: int, oldsz: nat, newsz: nat) returns (r: nat, panic: bool, ghost k: nat)
    requires vm.Valid() && root in vm.roots && PgUp(oldsz) <= TRAPFRAME
    modifies vm`pt, vm`owner, vm`held, vm.pool
    ensures vm.Valid()
    ensures Unmapped(old(vm.A()), vm.A(), old(vm.pool.free), vm.pool.free, old(vm.held), vm.held, root, PgUp(newsz), k, true)
    ensures !panic ==> k == (if newsz >= oldsz then 0 else PgUp(oldsz) - PgUp(newsz)) && r == (if newsz >= oldsz then oldsz else newsz)
    ensures panic ==> PgUp(newsz) + k < PgUp(oldsz) && !Flat(old(vm.pt), old(vm.roots), root, PgUp(newsz) + k).v
    ensures panic <==> newsz < oldsz && !Present(old(vm.A()), root, PgUp(newsz), PgUp(oldsz) - PgUp(newsz))
  {
    panic, k := false, 0;
    if newsz < oldsz && PgUp(newsz) < PgUp(oldsz) {
      panic, k := UvmUnmap(vm, root, PgUp(newsz), PgUp(oldsz) - PgUp(newsz), true);
    } else {
      UnmappedStart(vm.A(), vm.pool.free, vm.held, root, PgUp(newsz), true);
    }
    r := if newsz >= oldsz then oldsz else newsz;
    assert Shown(true);
  }

  /** uvmdealloc with an old size beyond what is mapped: a new address space has no page to give up. */
  method DeallocBeyond(vm: Vm) returns (root: int, r: nat, panic: bool)
    requires vm.Valid() && vm.pool.free != []
    modifies vm`pt, vm`roots, vm`owner, vm`held, vm.pool
    ensures vm.Valid() && root in vm.roots && panic
  {
    root := vm.UvmCreate();
    ghost var k;
    assert !Present(vm.A(), root, PgUp(0), PgUp(4096) - PgUp(0)) by {
      assert PgUp(0) == 0 && PgUp(4096) == 1;
      assert !Flat(vm.pt, vm.roots, root, 0).v;
    }
    assert Rewired(vm.A(), vm.A(), root, 0, 0, Nothing());
    r, panic, k := UvmDealloc(vm, root, 4096, 0);
    assert Shown(true);
  }

  /** f free pages are enough for n pages from lo on and the tables that are missing on the way to them. */
  ghost predicate Enough(a: Space, root: int, lo: int, n: int, f: int) {
    !TooFew(a, root, lo, n, f - n)
  }

  lemma EnoughIs(a: Space, root: int, lo: int, n: nat, f: int)
    ensures Enough(a, root, lo, n, f) <==> f >= n + |MissingTables(a, root, lo, n)|
  {
    TooFewIs(a, root, lo, n, f - n);
  }

  /** j pages from lo on, none of which was mapped, have been added; f0 pages were free and f are now. */
  ghost predicate Ready(a: Space, b: Space, root: int, lo: int, j: int, f0: int, f: int) {
    forall x {:trigger Settled(x)} :: Settled(x) ==> Vacant(a, root, lo, j) && Counted(a, b, root, lo, j, f0 - j, f)
  }

  /** The next page is not added: the pages left are too few for it, or else it is mapped already. */
  ghost predicate Stops(a: Space, root: int, lo: int, j: int, f0: int, r: Outcome) {
    forall x {:trigger Settled(x)} :: Settled(x) ==>
      && Vacant(a, root, lo, j)
      && (r == NoMemory <==> !Enough(a, root, lo, j + 1, f0))
      && (r == Panic ==> Flat(a.pt, a.roots, root, lo + j).v)
  }

  lemma ReadyNone(a: Space, root: int, lo: int, f: int)
    ensures Ready(a, a, root, lo, 0, f, f)
  {
    CountedNone(a, root, lo, f);
  }

  lemma ReadyIs(a: Space, b: Space, root: int, lo: int, j: int, f0: int, f: int)
    requires Ready(a, b, root, lo, j, f0, f)
    ensures Vacant(a, root, lo, j) && Counted(a, b, root, lo, j, f0 - j, f)
  {
    assert Settled(true);
  }

  lemma ReadyNext(a: Space, b: Space, c: Space, root: int, lo: int, j: nat, f0: int, f: int, f': int)
    requires Ready(a, b, root, lo, j, f0, f) && Spread(b, c, root, lo + j, 1) && f' == f - 1 - Missing(b, root, lo + j)
    requires !Flat(a.pt, a.roots, root, lo + j).v
    ensures Ready(a, c, root, lo, j + 1, f0, f')
  {
    ReadyIs(a, b, root, lo, j, f0, f);
    CountedLess(a, b, root, lo, j, f0 - j, f);
    CountedNext(a, b, c, root, lo, j, f0 - j - 1, f - 1, f');
    VacantNext(a, root, lo, j);
  }

  lemma VacantNext(a: Space, root: int, lo: int, j: nat)
    requires Vacant(a, root, lo, j) && !Flat(a.pt, a.roots, root, lo + j).v
    ensures Vacant(a, root, lo, j + 1)
  {
  }

  lemma ReadyStops(a: Space, b: Space, root: int, lo: int, j: nat, f0: int, f: int, r: Outcome)
    requires Ready(a, b, root, lo, j, f0, f) && (r == NoMemory <==> f < 1 + Missing(b, root, lo + j))
    requires r == Panic ==> Flat(a.pt, a.roots, root, lo + j).v
    ensures Stops(a, root, lo, j, f0, r)
  {
    ReadyIs(a, b, root, lo, j, f0, f);
    CountedLess(a, b, root, lo, j, f0 - j, f);
    CountedFew(a, b, root, lo, j, f0 - j - 1, f - 1);
  }

  /** The value of a turn that adds a page. */
  lemma BackDone(a: Space, b: Space, c: Space, m0: map<int, seq<Byte>>, m1: map<int, seq<Byte>>, root: int, lo: int, j: nat, v: int,
                 perms: int -> Perm, data: int -> seq<Byte>, p: int, perm: Perm, bytes: seq<Byte>, f0: int, f: int, f': int)
    requires Backed(a, b, m0, m1, root, lo, j, perms, data) && Ready(a, b, root, lo, j, f0, f) && v == lo + j < TRAPFRAME
    requires perm == perms(v) && bytes == data(v)
    requires b.Ok() && p !in b.owner && Rewired(b, c, root, v, 1, Linear(v, p, perm))
    requires Spread(b, c, root, v, 1) && f' == f - 1 - Missing(b, root, v) && !Flat(b.pt, b.roots, root, v).v
    ensures Backed(a, c, m0, m1[p := bytes], root, lo, j + 1, perms, data) && Ready(a, c, root, lo, j + 1, f0, f')
  {
    BackedElsewhere(a, b, m0, m1, root, lo, j, perms, data, root, v);
    ReadyNext(a, b, c, root, lo, j, f0, f, f');
    ReadyIs(a, b, root, lo, j, f0, f);
    BackedNext(a, b, c, m0, m1, root, lo, j, perms, data, p);
  }

  /** The value of a turn that does not. */
  lemma BackStops(a: Space, b: Space, c: Space, m0: map<int, seq<Byte>>, m1: map<int, seq<Byte>>, m2: map<int, seq<Byte>>,
                  root: int, lo: int, j: nat, v: int, perms: int -> Perm, data: int -> seq<Byte>, f0: int, f: int, r: Outcome)
    requires Backed(a, b, m0, m1, root, lo, j, perms, data) && Ready(a, b, root, lo, j, f0, f) && v == lo + j <= TRAPFRAME
    requires Rewired(b, c, root, v, 0, Nothing()) && Kept(b, m1, m2)
    requires (r == NoMemory <==> f < 1 + Missing(b, root, v)) && (r == Panic ==> Flat(b.pt, b.roots, root, v).v)
    ensures Backed(a, c, m0, m2, root, lo, j, perms, data) && Stops(a, root, lo, j, f0, r)
  {
    BackedElsewhere(a, b, m0, m1, root, lo, j, perms, data, root, v);
    ReadyStops(a, b, root, lo, j, f0, f, r);
    ReadyIs(a, b, root, lo, j, f0, f);
    BackedSame(a, b, c, m0, m1, m2, root, lo, j, perms, data);
  }

  /** One turn of the loops of uvmalloc and uvmcopy; f0 pages were free at first. */
  method BackOne(vm: Vm, ghost a0: Space, ghost m0: map<int, seq<Byte>>, ghost f0: nat, root: int, ghost lo: int, ghost j: nat, v: int,
                 perm: Perm, bytes: seq<Byte>, ghost perms: int -> Perm, ghost data: int -> seq<Byte>) returns (r: Outcome)
    requires vm.Valid() && vm.Filled() && root in vm.roots && 0 <= lo && v == lo + j <= TRAPFRAME
    requires v == TRAPFRAME ==> vm.pool.free == []
    requires perm == perms(v) && perm.Leaf() && bytes == data(v) && |bytes| == 4096
    requires Backed(a0, vm.A(), m0, vm.mem, root, lo, j, perms, data) && Ready(a0, vm.A(), root, lo, j, f0, |vm.pool.free|)
    modifies vm`pt, vm`owner, vm`held, vm`mem, vm.pool
    ensures vm.Valid() && vm.Filled() && (r != Panic ==> vm.held == old(vm.held))
    ensures Backed(a0, vm.A(), m0, vm.mem, root, lo, if r == Done then j + 1 else j, perms, data)
    ensures if r == Done then Ready(a0, vm.A(), root, lo, j + 1, f0, |vm.pool.free|) else Stops(a0, root, lo, j, f0, r)
  {
    ghost var b, m1, f := vm.A(), vm.mem, |vm.pool.free|;
    assert b.Ok() by {
      assert Opened(true);
    }
    ghost var p;
    r, p := MapNew(vm, root, v, perm, bytes);
    if r == Done {
      BackDone(a0, b, vm.A(), m0, m1, root, lo, j, v, perms, data, p, perm, bytes, f0, f, |vm.pool.free|);
    } else {
      BackStops(a0, b, vm.A(), m0, m1, vm.mem, root, lo, j, v, perms, data, f0, f, r);
    }
  }

  /** What the loops say when all n pages have been added ... */
  lemma ReadyEnough(a: Space, b: Space, root: int, lo: int, n: nat, f0: nat, f: nat)
    requires Ready(a, b, root, lo, n, f0, f)
    ensures Vacant(a, root, lo, n) && Enough(a, root, lo, n, f0) && f == f0 - n - |MissingTables(a, root, lo, n)|
  {
    ReadyIs(a, b, root, lo, n, f0, f);
    CountedIs(a, b, root, lo, n, f0 - n, f);
    CountedEnough(a, b, root, lo, n, f0 - n, f);
  }

  /** ... and when they stop before. */
  lemma StopsShort(a: Space, root: int, lo: int, j: nat, n: nat, f0: nat, r: Outcome)
    requires Stops(a, root, lo, j, f0, r) && j < n && r != Done
    ensures !(Vacant(a, root, lo, n) && Enough(a, root, lo, n, f0))
    ensures Vacant(a, root, lo, j) && (r == NoMemory <==> !Enough(a, root, lo, j + 1, f0))
    ensures r == Panic ==> Flat(a.pt, a.roots, root, lo + j).v
  {
    assert Settled(true);
    EnoughIs(a, root, lo, j + 1, f0);
    EnoughIs(a, root, lo, n, f0);
    MissingBound(a, root, lo, j + 1, n);
  }

  /** Nothing of any other address space has changed, and the only pages added are tables of this one. */
  ghost predicate TablesOnly(a: Space, b: Space, root: int) {
    && Elsewhere(a, b, root)
    && (forall p :: p in b.owner && p !in a.owner ==> b.owner[p].root == root && b.owner[p].level >= 0)
  }

  lemma LeftOver(vm: Vm, a: Space, root: int)
    requires vm.Valid() && a.Ok() && SameMap(a, vm.A()) && Elsewhere(a, vm.A(), root)
    ensures TablesOnly(a, vm.A(), root)
  {
    assert Opened(true);
    forall p | p in vm.owner && vm.owner[p].level < 0
      ensures p in a.owner
    {
      LeafKept(a, vm.A(), p);
    }
  }

  /** A user page of b is one of a if both map the same. */
  lemma LeafKept(a: Space, b: Space, p: int)
    requires a.Ok() && b.Ok() && SameMap(a, b) && p in b.owner && b.owner[p].level < 0
    ensures p in a.owner
  {
    var s := b.owner[p];
    LeafAt(b, p);
    assert Flat(a.pt, a.roots, s.root, s.prefix) == Flat(b.pt, b.roots, s.root, s.prefix);
    LeafOwned(a, s.root, s.prefix);
  }

  /** A user page is mapped at the spot that owns it. */
  lemma LeafAt(a: Space, p: int)
    requires a.Ok() && p in a.owner && a.owner[p].level < 0
    ensures var s := a.owner[p]; s.prefix < TRAPFRAME && Flat(a.pt, a.roots, s.root, s.prefix).v && Flat(a.pt, a.roots, s.root, s.prefix).ppn == p
  {
    var s := a.owner[p];
    assert a.F()(s) == p != 0 && Owning(s);
    assert Up(s) == Spot(s.root, 0, s.prefix / 512);
  }

  /** The call of uvmdealloc when uvmalloc gives up: all the pages it names are mapped, so it restores the address space. */
  method UnwindAlloc(vm: Vm, ghost a0: Space, ghost m0: map<int, seq<Byte>>, root: int, oldsz: nat, a: nat,
                     ghost lo: nat, ghost j: nat, ghost perms: int -> Perm, ghost data: int -> seq<Byte>)
    requires vm.Valid() && root in vm.roots && lo + j <= TRAPFRAME && oldsz == lo * 4096 && a == (lo + j) * 4096 && a0.Ok()
    requires Backed(a0, vm.A(), m0, vm.mem, root, lo, j, perms, data) && Vacant(a0, root, lo, j)
    modifies vm`pt, vm`owner, vm`held, vm.pool
    ensures vm.Valid() && vm.held == old(vm.held) && SameMap(a0, vm.A()) && TablesOnly(a0, vm.A(), root)
  {
    ghost var b := vm.A();
    BackedPresent(a0, b, m0, vm.mem, root, lo, j, perms, data);
    var r, panic, k := UvmDealloc(vm, root, a, oldsz);
    assert Shown(true);
    assert !panic && k == j;
    BackedUndo(a0, b, vm.A(), m0, vm.mem, root, lo, j, perms, data);
    LeftOver(vm, a0, root);
  }

  /** uvmalloc: zeroed pages are mapped from PGROUNDUP(oldsz) to PGROUNDUP(newsz), or nothing is. It
      panics at the first page of the range that is mapped already. */
  method UvmAlloc(vm: Vm, root: int, oldsz: nat, newsz: nat, xperm: Perm) returns (r: nat, out: Outcome, ghost j: nat)
    requires vm.Valid() && vm.Filled() && root in vm.roots
    requires PgUp(newsz) <= TRAPFRAME || PgUp(oldsz) + |vm.pool.free| <= TRAPFRAME
    modifies vm`pt, vm`owner, vm`held, vm`mem, vm.pool
    ensures vm.Valid() && vm.Filled() && (out != Panic ==> vm.held == old(vm.held))
    ensures newsz < oldsz ==> out == Done && vm.A() == old(vm.A()) && vm.pool.free == old(vm.pool.free)
    ensures newsz >= oldsz ==>
              (out == Done <==>
               && Vacant(old(vm.A()), root, PgUp(oldsz), PgUp(newsz) - PgUp(oldsz))
               && Enough(old(vm.A()), root, PgUp(oldsz), PgUp(newsz) - PgUp(oldsz), old(|vm.pool.free|)))
    ensures out == Done && newsz >= oldsz ==>
              |vm.pool.free| == old(|vm.pool.free|) - (PgUp(newsz) - PgUp(oldsz))
                                - |MissingTables(old(vm.A()), root, PgUp(oldsz), PgUp(newsz) - PgUp(oldsz))|
    ensures out == Done ==> r == if newsz < oldsz then oldsz else newsz
    ensures out == Done ==> Backed(old(vm.A()), vm.A(), old(vm.mem), vm.mem, root, PgUp(oldsz), PgUp(newsz) - PgUp(oldsz),
                                   _ => Perm(true, xperm.w, xperm.x, true), _ => ZeroPage())
    ensures out == NoMemory ==> r == 0 && SameMap(old(vm.A()), vm.A()) && TablesOnly(old(vm.A()), vm.A(), root)
    ensures out == NoMemory ==> Kept(old(vm.A()), old(vm.mem), vm.mem)
    ensures out != Done ==> PgUp(oldsz) + j < PgUp(newsz) && Vacant(old(vm.A()), root, PgUp(oldsz), j)
    ensures out != Done ==> (out == NoMemory <==> !Enough(old(vm.A()), root, PgUp(oldsz), j + 1, old(|vm.pool.free|)))
    ensures out == Panic ==> Flat(old(vm.pt), old(vm.roots), root, PgUp(oldsz) + j).v
  {
    var perm := Perm(true, xperm.w, xperm.x, true);
    ghost var perms: int -> Perm, data: int -> seq<Byte> := _ => perm, _ => ZeroPage();
    if newsz < oldsz {
      BackedNone(vm.A(), vm.mem, root, PgUp(oldsz), PgUp(newsz) - PgUp(oldsz), perms, data);
      return oldsz, Done, 0;
    }
    out, j := AllocGrow(vm, root, oldsz, newsz, PgUp(newsz) - PgUp(oldsz), perm, perms, data);
    r := if out == Done then newsz else 0;
  }

  /** uvmalloc when it has n pages to add. */
  method AllocGrow(vm: Vm, root: int, oldsz: nat, newsz: nat, ghost n: nat, perm: Perm, ghost perms: int -> Perm, ghost data: int -> seq<Byte>)
    returns (out: Outcome, ghost j: nat)
    requires vm.Valid() && vm.Filled() && root in vm.roots && oldsz <= newsz && n == PgUp(newsz) - PgUp(oldsz)
    requires PgUp(newsz) <= TRAPFRAME || PgUp(oldsz) + |vm.pool.free| <= TRAPFRAME
    requires perm.Leaf() && forall v :: perms(v) == perm && data(v) == ZeroPage()
    modifies vm`pt, vm`owner, vm`held, vm`mem, vm.pool
    ensures vm.Valid() && vm.Filled() && (out != Panic ==> vm.held == old(vm.held))
    ensures out == Done <==>
            Vacant(old(vm.A()), root, PgUp(oldsz), n) && Enough(old(vm.A()), root, PgUp(oldsz), n, old(|vm.pool.free|))
    ensures out == Done ==> |vm.pool.free| == old(|vm.pool.free|) - n - |MissingTables(old(vm.A()), root, PgUp(oldsz), n)|
    ensures out == Done ==> Backed(old(vm.A()), vm.A(), old(vm.mem), vm.mem, root, PgUp(oldsz), n, perms, data)
    ensures out == NoMemory ==> SameMap(old(vm.A()), vm.A()) && TablesOnly(old(vm.A()), vm.A(), root) && Kept(old(vm.A()), old(vm.mem), vm.mem)
    ensures out != Done ==> j < n && Vacant(old(vm.A()), root, PgUp(oldsz), j)
    ensures out != Done ==> (out == NoMemory <==> !Enough(old(vm.A()), root, PgUp(oldsz), j + 1, old(|vm.pool.free|)))
    ensures out == Panic ==> Flat(old(vm.pt), old(vm.roots), root, PgUp(oldsz) + j).v
  {
    ghost var a0, f0 := vm.A(), |vm.pool.free|;
    out, j := AllocRun(vm, root, oldsz, newsz, perm, perms, data);
    if out == Done {
      ReadyEnough(a0, vm.A(), root, PgUp(oldsz), n, f0, |vm.pool.free|);
    } else {
      StopsShort(a0, root, PgUp(oldsz), j, n, f0, out);
    }
  }

  /** The loop of uvmalloc. */
  method AllocRun(vm: Vm, root: int, oldsz: nat, newsz: nat, perm: Perm, ghost perms: int -> Perm, ghost data: int -> seq<Byte>)
    returns (out: Outcome, ghost j: nat)
    requires vm.Valid() && vm.Filled() && root in vm.roots && oldsz <= newsz
    requires PgUp(newsz) <= TRAPFRAME || PgUp(oldsz) + |vm.pool.free| <= TRAPFRAME
    requires perm.Leaf() && forall v :: perms(v) == perm && data(v) == ZeroPage()
    modifies vm`pt, vm`owner, vm`held, vm`mem, vm.pool
    ensures vm.Valid() && vm.Filled() && (out != Panic ==> vm.held == old(vm.held))
    ensures out == Done ==> j == PgUp(newsz) - PgUp(oldsz) && Ready(old(vm.A()), vm.A(), root, PgUp(oldsz), j, old(|vm.pool.free|), |vm.pool.free|)
    ensures out == Done ==> Backed(old(vm.A()), vm.A(), old(vm.mem), vm.mem, root, PgUp(oldsz), j, perms, data)
    ensures out != Done ==> PgUp(oldsz) + j < PgUp(newsz) && Stops(old(vm.A()), root, PgUp(oldsz), j, old(|vm.pool.free|), out)
    ensures out == NoMemory ==> SameMap(old(vm.A()), vm.A()) && TablesOnly(old(vm.A()), vm.A(), root) && Kept(old(vm.A()), old(vm.mem), vm.mem)
  {
    ghost var a0, m0, f0, lo := vm.A(), vm.mem, |vm.pool.free|, PgUp(oldsz);
    assert a0.Ok() by {
      assert Opened(true);
    }
    BackedNone(a0, m0, root, lo, 0, perms, data);
    ReadyNone(a0, root, lo, f0);
    j := 0;
    var a := PgUp(oldsz) * 4096;
    while a < newsz
      invariant a == (lo + j) * 4096 && lo + j <= PgUp(newsz) && vm.Valid() && vm.Filled() && vm.held == old(vm.held)
      invariant Ready(a0, vm.A(), root, lo, j, f0, |vm.pool.free|)
      invariant Backed(a0, vm.A(), m0, vm.mem, root, lo, j, perms, data)
    {
      ReadyUses(a0, vm.A(), root, lo, j, f0, |vm.pool.free|);
      out := BackOne(vm, a0, m0, f0, root, lo, j, a / 4096, perm, ZeroPage(), perms, data);
      if out == NoMemory {
        BackedKept(a0, vm.A(), m0, vm.mem, root, lo, j, perms, data);
        StopsVacant(a0, root, lo, j, f0, out);
        UnwindAlloc(vm, a0, m0, root, PgUp(oldsz) * 4096, a, lo, j, perms, data);
      }
      if out != Done {
        return;
      }
      a, j := a + 4096, j + 1;
    }
    out := Done;
  }

  /** A page has been used for each page added. */
  lemma ReadyUses(a: Space, b: Space, root: int, lo: int, j: nat, f0: int, f: int)
    requires Ready(a, b, root, lo, j, f0, f)
    ensures f <= f0 - j
  {
    ReadyIs(a, b, root, lo, j, f0, f);
    CountedIs(a, b, root, lo, j, f0 - j, f);
  }

  lemma StopsVacant(a: Space, root: int, lo: int, j: nat, f0: int, r: Outcome)
    requires Stops(a, root, lo, j, f0, r)
    ensures Vacant(a, root, lo, j)
  {
    assert Settled(true);
  }

  // ----- uvmcopy -----

  /** The flags and the bytes of the user page at v. */
  ghost function PermOf(a: Space, root: int): int -> Perm {
    (v: int) => Flat(a.pt, a.roots, root, v).perm
  }

  ghost function BytesOf(a: Space, m: map<int, seq<Byte>>, root: int): int -> seq<Byte> {
    (v: int) => var p := Flat(a.pt, a.roots, root, v).ppn; if p in m then m[p] else []
  }

  /** walk(old, i, 0), and what the entry says; 0 if there is none. */
  method Lookup(vm: Vm, root: int, v: int) returns (e: Pte)
    requires vm.Valid() && root in vm.roots && 0 <= v < MAXVPN
    modifies vm`pt, vm`owner, vm.pool
    ensures vm.Valid() && vm.A() == old(vm.A()) && vm.pool.free == old(vm.pool.free)
    ensures e == Flat(vm.pt, vm.roots, root, v)
    ensures e.v && v < TRAPFRAME ==> e.perm.Leaf() && vm.pool.lo <= e.ppn < vm.pool.hi
  {
    var t := vm.Walk(root, v, false);
    vm.EntryOf(root, v, t);
    if t == 0 {
      return NONE;
    }
    e := vm.pt[t][v % 512];
    if e.v && v < TRAPFRAME {
      UserEntry(vm, root, v);
    }
  }

  lemma UserEntry(vm: Vm, root: int, v: int)
    requires vm.Valid() && 0 <= v < TRAPFRAME && Flat(vm.pt, vm.roots, root, v).v
    ensures Flat(vm.pt, vm.roots, root, v).perm.Leaf()
    ensures vm.pool.lo <= Flat(vm.pt, vm.roots, root, v).ppn < vm.pool.hi
  {
    assert Opened(true);
    LeafOwned(vm.A(), root, v);
    FlatAt(vm.A(), root, v, vm.A().F()(Spot(root, 0, v / 512)));
  }

  lemma UserPagesFilled(vm: Vm, root: int)
    requires vm.Valid() && vm.Filled()
    ensures PagesFilled(vm.A(), vm.mem, root)
  {
    forall v | 0 <= v < TRAPFRAME && Flat(vm.pt, vm.roots, root, v).v
      ensures Flat(vm.pt, vm.roots, root, v).ppn in vm.mem
    {
      UserEntry(vm, root, v);
    }
  }

  /** The user pages of an address space have contents. */
  ghost predicate PagesFilled(a: Space, m: map<int, seq<Byte>>, root: int) {
    forall x {:trigger Settled(x)} :: Settled(x) ==>
      forall v :: 0 <= v < TRAPFRAME && Flat(a.pt, a.roots, root, v).v ==> Flat(a.pt, a.roots, root, v).ppn in m
  }

  lemma PageFilled(a: Space, m: map<int, seq<Byte>>, root: int, v: int)
    requires PagesFilled(a, m, root) && 0 <= v < TRAPFRAME && Flat(a.pt, a.roots, root, v).v
    ensures Flat(a.pt, a.roots, root, v).ppn in m
  {
    assert Settled(true);
  }

  /** The parent has the first k pages and the child has none of them. */
  ghost predicate Copyable(a: Space, parent: int, child: int, k: int) {
    forall x {:trigger Settled(x)} :: Settled(x) ==> Present(a, parent, 0, k) && Vacant(a, child, 0, k)
  }

  lemma CopyableNone(a: Space, parent: int, child: int)
    ensures Copyable(a, parent, child, 0)
  {
  }

  lemma CopyableNext(a: Space, b: Space, parent: int, child: int, k: nat, f0: int, f: int)
    requires Copyable(a, parent, child, k) && Flat(a.pt, a.roots, parent, k).v && Ready(a, b, child, 0, k + 1, f0, f)
    ensures Copyable(a, parent, child, k + 1)
  {
    CopyableIs(a, parent, child, k);
    ReadyIs(a, b, child, 0, k + 1, f0, f);
    assert Present(a, parent, 0, k + 1);
  }

  lemma CopyableIs(a: Space, parent: int, child: int, k: nat)
    requires Copyable(a, parent, child, k)
    ensures Present(a, parent, 0, k) && Vacant(a, child, 0, k)
  {
    assert Settled(true);
  }

  /** One turn of the loop of uvmcopy. */
  method CopyOne(vm: Vm, ghost a0: Space, ghost m0: map<int, seq<Byte>>, ghost f0: nat, parent: int, child: int, v: nat) returns (r: Outcome)
    requires vm.Valid() && vm.Filled() && parent in vm.roots && child in vm.roots && parent != child && v < TRAPFRAME
    requires Backed(a0, vm.A(), m0, vm.mem, child, 0, v, PermOf(a0, parent), BytesOf(a0, m0, parent))
    requires Ready(a0, vm.A(), child, 0, v, f0, |vm.pool.free|)
    requires PagesFilled(a0, m0, parent)
    modifies vm`pt, vm`owner, vm`held, vm`mem, vm.pool
    ensures vm.Valid() && vm.Filled() && (r != Panic ==> vm.held == old(vm.held))
    ensures Backed(a0, vm.A(), m0, vm.mem, child, 0, if r == Done then v + 1 else v, PermOf(a0, parent), BytesOf(a0, m0, parent))
    ensures r != Panic ==> Flat(a0.pt, a0.roots, parent, v).v
    ensures r == Done ==> Ready(a0, vm.A(), child, 0, v + 1, f0, |vm.pool.free|)
    ensures r != Done && Flat(a0.pt, a0.roots, parent, v).v ==> Stops(a0, child, 0, v, f0, r)
  {
    BackedElsewhere(a0, vm.A(), m0, vm.mem, child, 0, v, PermOf(a0, parent), BytesOf(a0, m0, parent), parent, v);
    var e := Lookup(vm, parent, v);
    if !e.v {
      return Panic;
    }
    PageFilled(a0, m0, parent, v);
    r := BackOne(vm, a0, m0, f0, child, 0, v, v, e.perm, vm.mem[e.ppn], PermOf(a0, parent), BytesOf(a0, m0, parent));
  }

  /** uvmcopy: the child gets its own copy of each of the parent's pages below sz, or, when memory
      runs out, no page at all. It panics at the first page that the parent does not have or that the
      child has already. */
  method UvmCopy(vm: Vm, parent: int, child: int, sz: nat) returns (r: Outcome, ghost k: nat)
    requires vm.Valid() && vm.Filled() && parent in vm.roots && child in vm.roots && parent != child && PgUp(sz) <= TRAPFRAME
    modifies vm`pt, vm`owner, vm`held, vm`mem, vm.pool
    ensures vm.Valid() && vm.Filled() && (r != Panic ==> vm.held == old(vm.held))
    ensures r == Done <==>
            && Present(old(vm.A()), parent, 0, PgUp(sz)) && Vacant(old(vm.A()), child, 0, PgUp(sz))
            && Enough(old(vm.A()), child, 0, PgUp(sz), old(|vm.pool.free|))
    ensures r == Done ==> |vm.pool.free| == old(|vm.pool.free|) - PgUp(sz) - |MissingTables(old(vm.A()), child, 0, PgUp(sz))|
    ensures r != NoMemory ==> Backed(old(vm.A()), vm.A(), old(vm.mem), vm.mem, child, 0, k,
                                     PermOf(old(vm.A()), parent), BytesOf(old(vm.A()), old(vm.mem), parent))
    ensures if r == Done then k == PgUp(sz) else k < PgUp(sz) && Present(old(vm.A()), parent, 0, k) && Vacant(old(vm.A()), child, 0, k)
    ensures r == Panic ==> !Flat(old(vm.pt), old(vm.roots), parent, k).v || Flat(old(vm.pt), old(vm.roots), child, k).v
    ensures r == NoMemory ==> Flat(old(vm.pt), old(vm.roots), parent, k).v && !Enough(old(vm.A()), child, 0, k + 1, old(|vm.pool.free|))
    ensures r == NoMemory ==> SameMap(old(vm.A()), vm.A()) && TablesOnly(old(vm.A()), vm.A(), child)
                              && Kept(old(vm.A()), old(vm.mem), vm.mem)
  {
    ghost var a0, f0 := vm.A(), |vm.pool.free|;
    r, k := CopyRun(vm, parent, child, sz);
    CopyableIs(a0, parent, child, k);
    if r == Done {
      ReadyEnough(a0, vm.A(), child, 0, k, f0, |vm.pool.free|);
    } else if Flat(a0.pt, a0.roots, parent, k).v {
      StopsShort(a0, child, 0, k, PgUp(sz), f0, r);
    }
  }

  /** The loop of uvmcopy. */
  method CopyRun(vm: Vm, parent: int, child: int, sz: nat) returns (r: Outcome, ghost k: nat)
    requires vm.Valid() && vm.Filled() && parent in vm.roots && child in vm.roots && parent != child && PgUp(sz) <= TRAPFRAME
    modifies vm`pt, vm`owner, vm`held, vm`mem, vm.pool
    ensures vm.Valid() && vm.Filled() && (r != Panic ==> vm.held == old(vm.held))
    ensures Copyable(old(vm.A()), parent, child, k) && if r == Done then k == PgUp(sz) else k < PgUp(sz)
    ensures r != NoMemory ==> Backed(old(vm.A()), vm.A(), old(vm.mem), vm.mem, child, 0, k,
                                     PermOf(old(vm.A()), parent), BytesOf(old(vm.A()), old(vm.mem), parent))
    ensures r == Done ==> Ready(old(vm.A()), vm.A(), child, 0, k, old(|vm.pool.free|), |vm.pool.free|)
    ensures r == NoMemory ==> Flat(old(vm.pt), old(vm.roots), parent, k).v
    ensures r != Done && Flat(old(vm.pt), old(vm.roots), parent, k).v ==> Stops(old(vm.A()), child, 0, k, old(|vm.pool.free|), r)
    ensures r == NoMemory ==> SameMap(old(vm.A()), vm.A()) && TablesOnly(old(vm.A()), vm.A(), child)
                              && Kept(old(vm.A()), old(vm.mem), vm.mem)
  {
    ghost var a0, m0, f0 := vm.A(), vm.mem, |vm.pool.free|;
    assert a0.Ok() by {
      assert Opened(true);
    }
    var i := 0;
    k := 0;
    UserPagesFilled(vm, parent);
    BackedNone(a0, m0, child, 0, 0, PermOf(a0, parent), BytesOf(a0, m0, parent));
    ReadyNone(a0, child, 0, f0);
    CopyableNone(a0, parent, child);
    while i < sz
      invariant i == k * 4096 && k <= PgUp(sz) && vm.Valid() && vm.Filled() && vm.held == old(vm.held)
      invariant Ready(a0, vm.A(), child, 0, k, f0, |vm.pool.free|) && Copyable(a0, parent, child, k)
      invariant Backed(a0, vm.A(), m0, vm.mem, child, 0, k, PermOf(a0, parent), BytesOf(a0, m0, parent))
    {
      assert i / 4096 == k;
      r := CopyTurn(vm, a0, m0, f0, parent, child, i / 4096);
      if r != Done {
        return;
      }
      CopyableNext(a0, vm.A(), parent, child, k, f0, |vm.pool.free|);
      i, k := i + 4096, k + 1;
    }
    return Done, k;
  }

  /** One turn of the loop of uvmcopy with its error exit. */
  method CopyTurn(vm: Vm, ghost a0: Space, ghost m0: map<int, seq<Byte>>, ghost f0: nat, parent: int, child: int, v: nat) returns (r: Outcome)
    requires vm.Valid() && vm.Filled() && parent in vm.roots && child in vm.roots && parent != child && v < TRAPFRAME && a0.Ok()
    requires Backed(a0, vm.A(), m0, vm.mem, child, 0, v, PermOf(a0, parent), BytesOf(a0, m0, parent))
    requires Ready(a0, vm.A(), child, 0, v, f0, |vm.pool.free|)
    requires PagesFilled(a0, m0, parent)
    modifies vm`pt, vm`owner, vm`held, vm`mem, vm.pool
    ensures vm.Valid() && vm.Filled() && (r != Panic ==> vm.held == old(vm.held))
    ensures r != NoMemory ==> Backed(a0, vm.A(), m0, vm.mem, child, 0, if r == Done then v + 1 else v, PermOf(a0, parent), BytesOf(a0, m0, parent))
    ensures r != Panic ==> Flat(a0.pt, a0.roots, parent, v).v
    ensures r == Done ==> Ready(a0, vm.A(), child, 0, v + 1, f0, |vm.pool.free|)
    ensures r != Done && Flat(a0.pt, a0.roots, parent, v).v ==> Stops(a0, child, 0, v, f0, r)
    ensures r == NoMemory ==> SameMap(a0, vm.A()) && TablesOnly(a0, vm.A(), child) && Kept(a0, m0, vm.mem)
  {
    r := CopyOne(vm, a0, m0, f0, parent, child, v);
    if r == NoMemory {
      BackedKept(a0, vm.A(), m0, vm.mem, child, 0, v, PermOf(a0, parent), BytesOf(a0, m0, parent));
      StopsVacant(a0, child, 0, v, f0, r);
      UnwindCopy(vm, a0, m0, child, v, PermOf(a0, parent), BytesOf(a0, m0, parent));
    }
  }

  method UnwindCopy(vm: Vm, ghost a0: Space, ghost m0: map<int, seq<Byte>>, root: int, n: nat,
                    ghost perms: int -> Perm, ghost data: int -> seq<Byte>)
    requires vm.Valid() && root in vm.roots && n <= TRAPFRAME && a0.Ok()
    requires Backed(a0, vm.A(), m0, vm.mem, root, 0, n, perms, data) && Vacant(a0, root, 0, n)
    modifies vm`pt, vm`owner, vm`held, vm.pool
    ensures vm.Valid() && vm.held == old(vm.held) && SameMap(a0, vm.A()) && TablesOnly(a0, vm.A(), root)
  {
    ghost var b := vm.A();
    BackedPresent(a0, b, m0, vm.mem, root, 0, n, perms, data);
    var panic, k := UvmUnmap(vm, root, 0, n, true);
    assert Shown(true);
    assert !panic;
    BackedUndo(a0, b, vm.A(), m0, vm.mem, root, 0, n, perms, data);
    LeftOver(vm, a0, root);
  }
}
