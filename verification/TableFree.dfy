/** Tearing down page tables: freewalk, uvmfree and the process page tables of kernel/proc.c. */
module TableFree {
  import opened Guards
  import opened PageTree
  import opened PageTables
  import opened UserMemory

  /** s is d or lies below d. */
  ghost predicate Under(s: Spot, d: Spot)
    decreases d.level - s.level
  {
    s == d || (s.level < d.level && Under(Up(s), d))
  }

  lemma {:induction false} UnderTrans(s: Spot, d: Spot, e: Spot)
    requires Under(s, d) && Under(d, e)
    ensures Under(s, e)
    decreases d.level - s.level
  {
    UnderLevel(d, e);
    UnderLevel(s, d);
    if s != d {
      UnderTrans(Up(s), d, e);
    }
  }

  lemma {:induction false} UnderLevel(s: Spot, d: Spot)
    requires Under(s, d)
    ensures s.level <= d.level && (s == d || s.level < d.level)
    decreases d.level - s.level
  {
    if s != d {
      UnderLevel(Up(s), d);
    }
  }

  /** The pages of d and of the spots below it. */
  ghost function PagesUnder(owner: map<int, Spot>, d: Spot): set<int> {
    set p | p in owner && Under(owner[p], d)
  }

  /** The tables without those under d. */
  ghost function Pruned(a: Space, d: Spot): Space {
    Space(a.pt - PagesUnder(a.owner, d), a.roots, a.owner - PagesUnder(a.owner, d))
  }

  /** ... and with the entry that led there cleared. */
  ghost function Cut(a: Space, u: Spot, t: int, i: int): Space
    requires a.pt.Keys <= a.owner.Keys
  {
    var b := Pruned(a, Down(u, i));
    if t in b.pt && 0 <= i < |b.pt[t]| then b.(pt := b.pt[t := b.pt[t][i := NONE]]) else b
  }

  /** Nothing is mapped under u. */
  ghost predicate NoLeaf(a: Space, u: Spot) {
    forall p, i {:trigger a.pt[p][i]} ::
      p in a.pt && p in a.owner && a.owner[p].level == 0 && Under(a.owner[p], u) && 0 <= i < |a.pt[p]| ==> !a.pt[p][i].v
  }

  lemma OkKeys(a: Space)
    requires a.Ok()
    ensures a.pt.Keys <= a.owner.Keys
  {
    forall p | p in a.pt
      ensures p in a.owner
    {
    }
  }

  lemma {:induction false} TabCut(a: Space, u: Spot, t: int, i: int, s: Spot)
    requires a.Ok() && At(a, u, t) && u.level > 0 && 0 <= i < 512 && s.level >= -1 && a.pt.Keys <= a.owner.Keys
    ensures Tab(Cut(a, u, t, i).pt, a.roots, s) == if Under(s, Down(u, i)) then 0 else Tab(a.pt, a.roots, s)
    decreases 2 - s.level
  {
    var d := Down(u, i);
    AtTable(a, u, t);
    DownUp(u, i, s);
    DownUp(u, i, d);
    if s.level < 2 && s.prefix >= 0 {
      TabCut(a, u, t, i, Up(s));
      var p := Tab(a.pt, a.roots, Up(s));
      if Under(Up(s), d) {
        UnderLevel(Up(s), d);
      } else if p != 0 {
        assert a.F()(Up(s)) == p;
      }
    }
  }

  lemma CutEntries(a: Space, u: Spot, t: int, i: int)
    requires a.Ok() && At(a, u, t) && u.level > 0 && 0 <= i < 512 && a.pt.Keys <= a.owner.Keys
    ensures Cut(a, u, t, i).Entries()
  {
    AtTable(a, u, t);
    NotUnder(u, Down(u, i));
  }

  lemma NotUnder(u: Spot, d: Spot)
    requires u.level > d.level
    ensures !Under(u, d)
  {
  }

  lemma CutOk(a: Space, u: Spot, t: int, i: int)
    requires a.Ok() && At(a, u, t) && u.level > 0 && 0 <= i < 512 && a.pt.Keys <= a.owner.Keys
    ensures Cut(a, u, t, i).Ok() && At(Cut(a, u, t, i), u, t)
  {
    var b, d := Cut(a, u, t, i), Down(u, i);
    CutEntries(a, u, t, i);
    NotUnder(u, d);
    forall s: Spot
      ensures b.F()(s) == if Under(s, d) then 0 else a.F()(s)
    {
      if s.level >= -1 {
        TabCut(a, u, t, i, s);
      }
    }
    OwnsPrune(a.F(), b.F(), a.owner, b.owner, d);
  }

  lemma OwnsPrune(f: Spot -> int, f': Spot -> int, owner: map<int, Spot>, owner': map<int, Spot>, d: Spot)
    requires Owns(f, owner) && forall s {:trigger f'(s)} :: f'(s) == if Under(s, d) then 0 else f(s)
    requires owner' == owner - PagesUnder(owner, d)
    ensures Owns(f', owner')
  {
    forall s | f'(s) != 0
      ensures f'(s) in owner' && owner'[f'(s)] == s
    {
    }
    forall p | p in owner'
      ensures f'(owner'[p]) == p
    {
      assert f(owner[p]) == p;
    }
  }

  /** Clearing a subtree below u leaves the same tables outside u. */
  lemma CutInside(a: Space, u: Spot, t: int, i: int)
    requires a.Ok() && At(a, u, t) && u.level > 0 && 0 <= i < 512 && a.pt.Keys <= a.owner.Keys
    ensures Cut(a, u, t, i).pt.Keys <= Cut(a, u, t, i).owner.Keys
    ensures Pruned(Cut(a, u, t, i), u) == Pruned(a, u)
  {
    var b, d := Cut(a, u, t, i), Down(u, i);
    AtTable(a, u, t);
    NotUnder(u, d);
    DownUp(u, i, d);
    forall s | Under(s, d)
      ensures Under(s, u)
    {
      UnderTrans(s, d, u);
    }
  }

  /** Clearing a subtree without leaves changes nothing as to whether there is a leaf under u. */
  lemma CutLeaves(a: Space, u: Spot, t: int, i: int)
    requires a.Ok() && At(a, u, t) && u.level > 0 && 0 <= i < 512 && a.pt.Keys <= a.owner.Keys && NoLeaf(a, Down(u, i))
    ensures NoLeaf(Cut(a, u, t, i), u) <==> NoLeaf(a, u)
  {
    var b, d := Cut(a, u, t, i), Down(u, i);
    AtTable(a, u, t);
    forall p | p in a.pt && p in a.owner && a.owner[p].level == 0 && !Under(a.owner[p], d)
      ensures p in b.pt && b.pt[p] == a.pt[p] && p in b.owner && b.owner[p] == a.owner[p]
    {
    }
    if NoLeaf(b, u) {
      forall p, j | p in a.pt && p in a.owner && a.owner[p].level == 0 && Under(a.owner[p], u) && 0 <= j < |a.pt[p]|
        ensures !a.pt[p][j].v
      {
        if !Under(a.owner[p], d) {
          assert !b.pt[p][j].v;
        }
      }
    }
    if NoLeaf(a, u) {
      forall p, j | p in b.pt && p in b.owner && b.owner[p].level == 0 && Under(b.owner[p], u) && 0 <= j < |b.pt[p]|
        ensures !b.pt[p][j].v
      {
        assert !a.pt[p][j].v;
      }
    }
  }

  /** A leaf under a child is a leaf under u. */
  lemma ChildLeaves(a: Space, u: Spot, i: int)
    requires 0 <= i < 512 && 0 <= u.prefix && NoLeaf(a, u)
    ensures NoLeaf(a, Down(u, i))
  {
    var d := Down(u, i);
    DownUp(u, i, d);
    forall s | Under(s, d)
      ensures Under(s, u)
    {
      UnderTrans(s, d, u);
    }
  }

  /** With every entry of t clear, t is the only table at or under u. */
  lemma {:induction false} OnlyRoot(a: Space, u: Spot, t: int, s: Spot)
    requires a.Ok() && At(a, u, t) && t in a.pt && |a.pt[t]| == 512 && s.level >= -1
    requires forall i :: 0 <= i < 512 ==> !a.pt[t][i].v
    requires Under(s, u) && s != u
    ensures Tab(a.pt, a.roots, s) == 0
    decreases 2 - s.level
  {
    if s.prefix >= 0 && s.level < 2 && Up(s) != u {
      OnlyRoot(a, u, t, Up(s));
    }
  }

  lemma LastTable(a: Space, u: Spot, t: int)
    requires a.Ok() && At(a, u, t) && t in a.pt && |a.pt[t]| == 512 && a.pt.Keys <= a.owner.Keys
    requires forall i :: 0 <= i < 512 ==> !a.pt[t][i].v
    ensures Pruned(a, u) == Space(a.pt - {t}, a.roots, a.owner - {t})
    ensures forall p :: p in a.owner && Under(a.owner[p], u) ==> p == t
    ensures NoLeaf(a, u)
  {
    AtTable(a, u, t);
    forall p | p in a.owner && Under(a.owner[p], u)
      ensures p == t
    {
      assert a.F()(a.owner[p]) == p;
      if a.owner[p] != u {
        OnlyRoot(a, u, t, a.owner[p]);
      }
    }
  }

  /** The pages at or under u that a had and b no longer has are on the free list, and nothing else came to it. */
  ghost predicate Freed(a: Space, b: Space, f0: seq<int>, f1: seq<int>, u: Spot) {
    && (forall p :: p in b.owner ==> p in a.owner && b.owner[p] == a.owner[p])
    && (forall p :: p in f1 <==> p in f0 || (p in a.owner && Under(a.owner[p], u) && p !in b.owner))
  }

  lemma FreedThen(a: Space, b: Space, c: Space, f0: seq<int>, f1: seq<int>, f2: seq<int>, u: Spot, d: Spot)
    requires Freed(a, b, f0, f1, u) && Freed(b, c, f1, f2, d) && Under(d, u)
    requires forall p :: p in b.owner && p !in c.owner ==> Under(b.owner[p], d)
    ensures Freed(a, c, f0, f2, u)
  {
    forall s | Under(s, d)
      ensures Under(s, u)
    {
      UnderTrans(s, d, u);
    }
  }

  /** freewalk at u, after i entries. */
  ghost predicate Freeing(a0: Space, a: Space, f0: seq<int>, f: seq<int>, u: Spot, t: int, i: int) {
    (&& a.Ok() && At(a, u, t) && (NoLeaf(a, u) <==> NoLeaf(a0, u)) && a.pt.Keys <= a.owner.Keys
     && a0.pt.Keys <= a0.owner.Keys && Pruned(a, u) == Pruned(a0, u)
     && t in a.pt && |a.pt[t]| == 512 && (forall j :: 0 <= j < i && j < 512 ==> !a.pt[t][j].v)
     && Freed(a0, a, f0, f, u)) == true
  }

  lemma FreeingStart(a: Space, f: seq<int>, u: Spot, t: int)
    requires a.Ok() && At(a, u, t)
    ensures Freeing(a, a, f, f, u, t, 0)
  {
    OkKeys(a);
    AtTable(a, u, t);
  }

  /** The entry i is a leaf, or leads to a table. */
  lemma FreeingChild(a0: Space, a: Space, f0: seq<int>, f: seq<int>, u: Spot, t: int, i: int)
    requires Freeing(a0, a, f0, f, u, t, i) && 0 <= i < 512
    ensures t in a.pt && |a.pt[t]| == 512 && a.pt.Keys <= a.owner.Keys
    ensures a.pt[t][i].v && a.pt[t][i].perm.Leaf() ==> !NoLeaf(a0, u)
    ensures a.pt[t][i].v && !a.pt[t][i].perm.Leaf() ==> u.level > 0 && At(a, Down(u, i), a.pt[t][i].ppn)
    ensures !NoLeaf(a, Down(u, i)) ==> !NoLeaf(a0, u)
    ensures !a.pt[t][i].v ==> Freeing(a0, a, f0, f, u, t, i + 1)
  {
    AtTable(a, u, t);
    DownUp(u, i, Down(u, i));
    if NoLeaf(a, u) {
      ChildLeaves(a, u, i);
    }
  }

  lemma FreeingNext(a0: Space, a: Space, f0: seq<int>, f1: seq<int>, f2: seq<int>, u: Spot, t: int, i: int)
    requires Freeing(a0, a, f0, f1, u, t, i) && 0 <= i < 512 && u.level > 0 && a.pt.Keys <= a.owner.Keys && NoLeaf(a, Down(u, i))
    requires Freed(a, Pruned(a, Down(u, i)), f1, f2, Down(u, i))
    ensures Freeing(a0, Cut(a, u, t, i), f0, f2, u, t, i + 1)
  {
    var b, d := Cut(a, u, t, i), Down(u, i);
    CutOk(a, u, t, i);
    CutInside(a, u, t, i);
    CutLeaves(a, u, t, i);
    AtTable(a, u, t);
    NotUnder(u, d);
    DownUp(u, i, d);
    FreedThen(a0, a, b, f0, f1, f2, u, d);
  }

  /** One turn of the loop of freewalk. */
  method FreeEntry(vm: Vm, ghost a0: Space, ghost f0: seq<int>, ghost u: Spot, t: int, i: int) returns (panic: bool)
    requires vm.Valid() && Freeing(a0, vm.A(), f0, vm.pool.free, u, t, i) && 0 <= i < 512 && u.level >= 0
    modifies vm`pt, vm`owner, vm.pool
    ensures panic ==> !NoLeaf(a0, u)
    ensures !panic ==> vm.Valid() && Freeing(a0, vm.A(), f0, vm.pool.free, u, t, i + 1)
    decreases u.level, 0
  {
    ghost var a, f1 := vm.A(), vm.pool.free;
    FreeingChild(a0, a, f0, f1, u, t, i);
    var pte := vm.pt[t][i];
    if pte.v && !pte.perm.Leaf() {
      panic := FreeWalk(vm, Down(u, i), pte.ppn);
      if !panic {
        FreeingNext(a0, a, f0, f1, vm.pool.free, u, t, i);
        vm.pt := vm.pt[t := vm.pt[t][i := NONE]];
      }
    } else {
      panic := pte.v;
    }
  }

  /** kfree(pagetable) at the end of freewalk. */
  method FreeLast(vm: Vm, ghost a0: Space, ghost f0: seq<int>, ghost u: Spot, t: int)
    requires vm.Valid() && Freeing(a0, vm.A(), f0, vm.pool.free, u, t, 512) && a0.pt.Keys <= a0.owner.Keys
    modifies vm`pt, vm`owner, vm.pool
    ensures vm.pool.Valid() && vm.A() == Pruned(a0, u) && Freed(a0, vm.A(), f0, vm.pool.free, u)
    ensures Partition(vm.pool.lo, vm.pool.hi, vm.owner, vm.pool.free, vm.held) && NoLeaf(a0, u)
  {
    assert Opened(true);
    AtTable(vm.A(), u, t);
    LastTable(vm.A(), u, t);
    var panic := vm.pool.Kfree(t);
    vm.pt, vm.owner := vm.pt - {t}, vm.owner - {t};
  }

  /** freewalk: every table at or under u goes to the free list. The entry that led to u still
      points to the freed page; the caller clears it. It panics exactly when a page is still mapped
      under u, and then nothing is promised. */
  method FreeWalk(vm: Vm, ghost u: Spot, t: int) returns (panic: bool)
    requires vm.Valid() && At(vm.A(), u, t) && vm.pt.Keys <= vm.owner.Keys
    modifies vm`pt, vm`owner, vm.pool
    ensures panic <==> !NoLeaf(old(vm.A()), u)
    ensures !panic ==> vm.pool.Valid() && vm.A() == Pruned(old(vm.A()), u)
    ensures !panic ==> Freed(old(vm.A()), vm.A(), old(vm.pool.free), vm.pool.free, u)
    ensures !panic ==> Partition(vm.pool.lo, vm.pool.hi, vm.owner, vm.pool.free, vm.held)
    decreases u.level, 1
  {
    var i := 0;
    assert vm.A().Ok() by {
      assert Opened(true);
    }
    FreeingStart(vm.A(), vm.pool.free, u, t);
    while i < 512
      invariant 0 <= i <= 512 && vm.Valid()
      invariant Freeing(old(vm.A()), vm.A(), old(vm.pool.free), vm.pool.free, u, t, i)
    {
      panic := FreeEntry(vm, old(vm.A()), old(vm.pool.free), u, t, i);
      if panic {
        return;
      }
      i := i + 1;
    }
    FreeLast(vm, old(vm.A()), old(vm.pool.free), u, t);
    return false;
  }

  // ----- A whole address space -----

  lemma {:induction false} UnderRoot(s: Spot, d: Spot)
    requires Under(s, d)
    ensures s.root == d.root
    decreases d.level - s.level
  {
    if s != d {
      UnderRoot(Up(s), d);
    }
  }

  /** Every page of an address space lies under its root. */
  lemma {:induction false} TabUnder(a: Space, s: Spot)
    requires Tab(a.pt, a.roots, s) != 0 && s.level >= -1
    ensures Under(s, Spot(s.root, 2, 0)) && s.level <= 2 && s.root in a.roots
    decreases 2 - s.level
  {
    if s.level < 2 {
      TabUnder(a, Up(s));
    }
  }

  ghost function DropRoot(a: Space, root: int): Space {
    var own := set p | p in a.owner && a.owner[p].root == root;
    Space(a.pt - own, a.roots - {root}, a.owner - own)
  }

  lemma DropPruned(a: Space, root: int)
    requires a.Ok() && a.pt.Keys <= a.owner.Keys
    ensures Pruned(a, Spot(root, 2, 0)).(roots := a.roots - {root}) == DropRoot(a, root)
  {
    forall p | p in a.owner
      ensures Under(a.owner[p], Spot(root, 2, 0)) <==> a.owner[p].root == root
    {
      assert a.F()(a.owner[p]) == p;
      TabUnder(a, a.owner[p]);
      if Under(a.owner[p], Spot(root, 2, 0)) {
        UnderRoot(a.owner[p], Spot(root, 2, 0));
      }
    }
  }

  lemma {:induction false} TabDrop(a: Space, root: int, s: Spot)
    requires a.Ok() && s.level >= -1
    ensures Tab(DropRoot(a, root).pt, DropRoot(a, root).roots, s) == if s.root == root then 0 else Tab(a.pt, a.roots, s)
    decreases 2 - s.level
  {
    if s.level < 2 && s.prefix >= 0 {
      TabDrop(a, root, Up(s));
      var t := Tab(a.pt, a.roots, Up(s));
      if t != 0 {
        assert a.F()(Up(s)) == t;
      }
    }
  }

  lemma DropOk(a: Space, root: int)
    requires a.Ok()
    ensures DropRoot(a, root).Ok()
  {
    var b := DropRoot(a, root);
    forall s: Spot
      ensures b.F()(s) == if s.root == root then 0 else a.F()(s)
    {
      if s.level >= -1 {
        TabDrop(a, root, s);
      }
    }
    OwnsDrop(a.F(), b.F(), a.owner, b.owner, root);
    DropEntries(a, root);
  }

  lemma OwnsDrop(f: Spot -> int, f': Spot -> int, owner: map<int, Spot>, owner': map<int, Spot>, root: int)
    requires Owns(f, owner) && forall s {:trigger f'(s)} :: f'(s) == if s.root == root then 0 else f(s)
    requires forall p :: p in owner' <==> p in owner && owner[p].root != root
    requires forall p :: p in owner' ==> owner'[p] == owner[p]
    ensures Owns(f', owner')
  {
    forall p | p in owner'
      ensures f'(owner'[p]) == p
    {
      assert f(owner[p]) == p;
    }
  }

  lemma DropEntries(a: Space, root: int)
    requires a.Ok()
    ensures DropRoot(a, root).Entries()
  {
  }

  lemma DropFlat(a: Space, root: int, r: int, v: int)
    requires a.Ok()
    ensures Flat(DropRoot(a, root).pt, DropRoot(a, root).roots, r, v) == if r == root then NONE else Flat(a.pt, a.roots, r, v)
  {
    var s := Spot(r, 0, v / 512);
    TabDrop(a, root, s);
    if Tab(a.pt, a.roots, s) != 0 {
      assert a.F()(s) == Tab(a.pt, a.roots, s);
    }
  }

  lemma NoLeafRoot(a: Space, root: int)
    requires a.Ok() && forall v :: !Flat(a.pt, a.roots, root, v).v
    ensures NoLeaf(a, Spot(root, 2, 0))
  {
    forall p, i | p in a.pt && p in a.owner && a.owner[p].level == 0 && Under(a.owner[p], Spot(root, 2, 0)) && 0 <= i < |a.pt[p]|
      ensures !a.pt[p][i].v
    {
      var s := a.owner[p];
      assert a.F()(s) == p;
      UnderRoot(s, Spot(root, 2, 0));
      var v := s.prefix * 512 + i;
      assert v / 512 == s.prefix && v % 512 == i;
      assert !Flat(a.pt, a.roots, root, v).v;
    }
  }

  lemma LeafRoot(a: Space, root: int, v: int)
    requires a.Ok() && NoLeaf(a, Spot(root, 2, 0))
    ensures !Flat(a.pt, a.roots, root, v).v
  {
    if Flat(a.pt, a.roots, root, v).v {
      var s := Spot(root, 0, v / 512);
      var t := Tab(a.pt, a.roots, s);
      assert a.F()(s) == t;
      TabUnder(a, s);
    }
  }

  /** The pages that are mapped: user memory of n pages, and the two pages on top as far as they are there. */
  ghost predicate Layout(a: Space, root: int, n: int, frame: bool, trampoline: bool) {
    forall v :: Flat(a.pt, a.roots, root, v).v <==>
                0 <= v < n || (frame && v == TRAPFRAME) || (trampoline && v == TRAMPOLINE)
  }

  /** The address space has disappeared; the others, and their pages, are as they were. */
  ghost predicate Gone(a: Space, b: Space, root: int) {
    && b.roots == a.roots - {root}
    && (forall p :: p in b.owner <==> p in a.owner && a.owner[p].root != root)
    && (forall p :: p in b.owner ==> b.owner[p] == a.owner[p])
    && (forall r, v :: r != root ==> Flat(b.pt, b.roots, r, v) == Flat(a.pt, a.roots, r, v))
  }

  /** Its pages, and no others, have come to the free list. */
  ghost predicate Reclaimed(a: Space, f0: seq<int>, f1: seq<int>, root: int) {
    forall p :: p in f1 <==> p in f0 || (p in a.owner && a.owner[p].root == root)
  }

  lemma DropGone(a: Space, b: Space, root: int, n: int)
    requires b.Ok() && Rewired(a, b, root, 0, n, Nothing())
    ensures DropRoot(b, root).Ok() && Gone(a, DropRoot(b, root), root)
  {
    DropOk(b, root);
    var c := DropRoot(b, root);
    forall r, v | r != root
      ensures Flat(c.pt, c.roots, r, v) == Flat(a.pt, a.roots, r, v)
    {
      DropFlat(b, root, r, v);
      assert Flat(b.pt, b.roots, r, v) == Flat(a.pt, a.roots, r, v);
    }
  }

  lemma PartitionReclaims(lo: int, hi: int, a: Space, b: Space, f0: seq<int>, f1: seq<int>, held: set<int>, root: int)
    requires Partition(lo, hi, a.owner, f0, held) && Partition(lo, hi, b.owner, f1, held) && Gone(a, b, root)
    ensures Reclaimed(a, f0, f1, root)
  {
  }

  /** Once the n user pages are unmapped nothing is left exactly when they were all there was. */
  lemma ClearedEmpty(a: Space, b: Space, root: int, n: int)
    requires a.Ok() && b.Ok() && Present(a, root, 0, n) && Rewired(a, b, root, 0, n, Nothing())
    ensures NoLeaf(b, Spot(root, 2, 0)) <==> Layout(a, root, n, false, false)
  {
    if Layout(a, root, n, false, false) {
      forall v
        ensures !Flat(b.pt, b.roots, root, v).v
      {
        assert Flat(a.pt, a.roots, root, v).v <==> 0 <= v < n;
      }
      NoLeafRoot(b, root);
    }
    if NoLeaf(b, Spot(root, 2, 0)) {
      forall v
        ensures Flat(a.pt, a.roots, root, v).v <==> 0 <= v < n
      {
        LeafRoot(b, root, v);
        assert Flat(b.pt, b.roots, root, v) == if 0 <= v < n then NONE else Flat(a.pt, a.roots, root, v);
      }
    }
  }

  /** freewalk of a whole page table. */
  method FreeTables(vm: Vm, root: int, ghost a: Space, ghost n: int) returns (panic: bool)
    requires vm.Valid() && root in vm.roots && Rewired(a, vm.A(), root, 0, n, Nothing())
    modifies vm`pt, vm`owner, vm`roots, vm.pool
    ensures panic <==> !NoLeaf(old(vm.A()), Spot(root, 2, 0))
    ensures !panic ==> vm.Valid() && Gone(a, vm.A(), root)
  {
    ghost var b := vm.A();
    vm.RootAt(root);
    assert b.Ok() by {
      assert Opened(true);
    }
    OkKeys(b);
    DropGone(a, b, root, n);
    DropPruned(b, root);
    panic := FreeWalk(vm, Spot(root, 2, 0), root);
    if !panic {
      vm.roots := vm.roots - {root};
      assert vm.A() == DropRoot(b, root);
    }
  }

  /** uvmfree: the user pages below sz and all page-table pages go back to the free list. It panics
      exactly when the pages below sz are not just the pages that are mapped; then nothing is promised. */
  method UvmFree(vm: Vm, root: int, sz: nat) returns (panic: bool)
    requires vm.Valid() && root in vm.roots && PgUp(sz) <= TRAPFRAME
    modifies vm`pt, vm`owner, vm`held, vm`roots, vm.pool
    ensures panic <==> !Layout(old(vm.A()), root, PgUp(sz), false, false)
    ensures !panic ==> vm.Valid() && vm.held == old(vm.held) && Gone(old(vm.A()), vm.A(), root)
    ensures !panic ==> Reclaimed(old(vm.A()), old(vm.pool.free), vm.pool.free, root)
  {
    ghost var a, n := vm.A(), PgUp(sz);
    ghost var f := vm.pool.free;
    assert a.Ok() && Partition(vm.pool.lo, vm.pool.hi, a.owner, f, vm.held) by {
      assert Opened(true);
    }
    panic := UnmapAll(vm, root, sz);
    if panic {
      return;
    }
    panic := FreeTables(vm, root, a, n);
    if panic {
      return;
    }
    assert Partition(vm.pool.lo, vm.pool.hi, vm.owner, vm.pool.free, vm.held) by {
      assert Opened(true);
    }
    PartitionReclaims(vm.pool.lo, vm.pool.hi, a, vm.A(), f, vm.pool.free, vm.held, root);
  }

  method UnmapAll(vm: Vm, root: int, sz: nat) returns (panic: bool)
    requires vm.Valid() && root in vm.roots && PgUp(sz) <= TRAPFRAME
    modifies vm`pt, vm`owner, vm`held, vm.pool
    ensures panic ==> !Layout(old(vm.A()), root, PgUp(sz), false, false)
    ensures !panic ==> vm.Valid() && vm.held == old(vm.held) && root in vm.roots
    ensures !panic ==> Rewired(old(vm.A()), vm.A(), root, 0, PgUp(sz), Nothing())
    ensures !panic ==> (NoLeaf(vm.A(), Spot(root, 2, 0)) <==> Layout(old(vm.A()), root, PgUp(sz), false, false))
  {
    ghost var a := vm.A();
    assert a.Ok() by {
      assert Opened(true);
    }
    panic := false;
    if sz > 0 {
      ghost var k;
      panic, k := UvmUnmap(vm, root, 0, PgUp(sz), true);
      assert Shown(true);
      if panic {
        return;
      }
    } else {
      NothingRewired(a, root, 0);
    }
    assert vm.A().Ok() by {
      assert Opened(true);
    }
    ClearedEmpty(a, vm.A(), root, PgUp(sz));
  }

  // ----- proc_pagetable -----

  /** The same address spaces, owning the same pages, mapped in the same way. */
  ghost predicate Same(a: Space, b: Space, f0: seq<int>, f1: seq<int>) {
    && b.roots == a.roots && b.owner == a.owner
    && (forall r, v :: r in a.roots ==> Flat(b.pt, b.roots, r, v) == Flat(a.pt, a.roots, r, v))
    && (forall p :: p in f1 <==> p in f0)
  }

  lemma GoneKeeps(a: Space, b: Space, c: Space, root: int, vpn: int, k: int, g: int -> Pte)
    requires Gone(b, a, root) && root in b.roots && Rewired(b, c, root, vpn, k, g)
    ensures Gone(c, a, root) && root in c.roots
  {
    forall r, v | r != root
      ensures Flat(a.pt, a.roots, r, v) == Flat(c.pt, c.roots, r, v)
    {
      assert Flat(b.pt, b.roots, r, v) == Flat(c.pt, c.roots, r, v);
    }
  }

  /** Dropping the address space that was added restores all. */
  lemma GoneTwice(lo: int, hi: int, a: Space, b: Space, c: Space, f0: seq<int>, f1: seq<int>, held: set<int>, root: int)
    requires Gone(b, a, root) && Gone(b, c, root)
    requires Partition(lo, hi, a.owner, f0, held) && Partition(lo, hi, c.owner, f1, held)
    ensures Same(a, c, f0, f1)
  {
    forall p
      ensures p in a.owner.Keys <==> p in c.owner.Keys
    {
      assert p in a.owner <==> p in b.owner && b.owner[p].root != root;
    }
    assert a.owner.Keys == c.owner.Keys;
    assert forall p :: p in a.owner ==> a.owner[p] == c.owner[p];
    forall r, v | r in a.roots
      ensures Flat(c.pt, c.roots, r, v) == Flat(a.pt, a.roots, r, v)
    {
      assert Flat(b.pt, b.roots, r, v) == Flat(a.pt, a.roots, r, v);
    }
  }

  lemma LayoutMap(a: Space, b: Space, root: int, n: int, ppn: int, perm: Perm)
    requires n <= TRAPFRAME
    ensures Layout(a, root, n, false, false) && Rewired(a, b, root, TRAMPOLINE, 1, Linear(TRAMPOLINE, ppn, perm)) ==>
              Layout(b, root, n, false, true) && Flat(b.pt, b.roots, root, TRAMPOLINE) == Pte(true, perm, ppn)
    ensures Layout(a, root, n, false, true) && Rewired(a, b, root, TRAPFRAME, 1, Linear(TRAPFRAME, ppn, perm)) ==>
              && Layout(b, root, n, true, true) && Flat(b.pt, b.roots, root, TRAPFRAME) == Pte(true, perm, ppn)
              && Flat(b.pt, b.roots, root, TRAMPOLINE) == Flat(a.pt, a.roots, root, TRAMPOLINE)
  {
  }

  lemma LayoutUnmap(a: Space, b: Space, root: int, n: int, frame: bool, v: int)
    requires n <= TRAPFRAME
    ensures Layout(a, root, n, frame, true) && Rewired(a, b, root, TRAMPOLINE, 1, Nothing()) ==> Layout(b, root, n, frame, false)
    ensures Layout(a, root, n, true, false) && Rewired(a, b, root, TRAPFRAME, 1, Nothing()) ==> Layout(b, root, n, false, false)
    ensures Layout(a, root, n, frame, true) && Rewired(a, b, root, v, 0, Nothing()) ==> Layout(b, root, n, frame, true)
    ensures Layout(a, root, n, frame, false) && Rewired(a, b, root, v, 0, Nothing()) ==> Layout(b, root, n, frame, false)
  {
  }

  /** Giving up on a new page table: uvmfree with nothing mapped restores the state before uvmcreate. */
  method Abandon(vm: Vm, root: int, ghost a: Space, ghost f: seq<int>)
    requires vm.Valid() && root in vm.roots && Layout(vm.A(), root, 0, false, false) && Gone(vm.A(), a, root)
    requires Partition(vm.pool.lo, vm.pool.hi, a.owner, f, vm.held)
    modifies vm`pt, vm`owner, vm`held, vm`roots, vm.pool
    ensures vm.Valid() && vm.held == old(vm.held) && Same(a, vm.A(), f, vm.pool.free)
  {
    ghost var b := vm.A();
    var panic := UvmFree(vm, root, 0);
    assert Partition(vm.pool.lo, vm.pool.hi, vm.owner, vm.pool.free, vm.held) by {
      assert Opened(true);
    }
    GoneTwice(vm.pool.lo, vm.pool.hi, a, b, vm.A(), f, vm.pool.free, vm.held, root);
  }

  /** uvmcreate for proc_pagetable. */
  method Begin(vm: Vm) returns (root: int)
    requires vm.Valid()
    modifies vm`pt, vm`owner, vm`roots, vm.pool
    ensures vm.Valid() && Partition(vm.pool.lo, vm.pool.hi, old(vm.owner), old(vm.pool.free), old(vm.held))
    ensures root == 0 ==> Same(old(vm.A()), vm.A(), old(vm.pool.free), vm.pool.free)
    ensures root != 0 ==> root in vm.roots && root !in old(vm.roots)
    ensures root != 0 ==> Gone(vm.A(), old(vm.A()), root) && Layout(vm.A(), root, 0, false, false)
    ensures root == 0 <==> old(vm.pool.free) == []
    ensures root != 0 ==> |vm.pool.free| == old(|vm.pool.free|) - 1 && Missing(vm.A(), root, TRAMPOLINE) == 2
  {
    ghost var a := vm.A();
    assert a.Ok() && Partition(vm.pool.lo, vm.pool.hi, a.owner, vm.pool.free, vm.held) by {
      assert Opened(true);
    }
    root := vm.UvmCreate();
    if root != 0 {
      NotOwned(a, root);
      NewMissing(vm, a, root);
    }
  }

  /** A new address space has no table but its root. */
  lemma NewMissing(vm: Vm, a: Space, root: int)
    requires vm.Valid() && vm.owner == a.owner[root := Spot(root, 2, 0)]
    requires root !in a.owner && forall p :: p in a.owner ==> a.owner[p].root != root
    ensures Missing(vm.A(), root, TRAMPOLINE) == 2
  {
    assert Opened(true);
    forall s: Spot | s.root == root && s.level < 2
      ensures vm.A().F()(s) == 0
    {
    }
  }

  lemma NotOwned(a: Space, root: int)
    requires a.Ok() && root > 0 && root !in a.owner
    ensures root !in a.roots && forall p :: p in a.owner ==> a.owner[p].root != root
  {
    RootsOwned(a);
    forall p | p in a.owner
      ensures a.owner[p].root in a.roots
    {
      assert a.F()(a.owner[p]) == p;
      TabUnder(a, a.owner[p]);
    }
  }

  /** proc_pagetable: a page table with the trampoline and the trapframe and no user memory; or 0, and
      then every page is where it was. */
  method ProcPagetable(vm: Vm, trampoline: int, trapframe: int) returns (root: int)
    requires vm.Valid() && trapframe in vm.held && trapframe > 0
    requires trampoline > 0 && !(vm.pool.lo <= trampoline < vm.pool.hi)
    modifies vm`pt, vm`owner, vm`held, vm`roots, vm.pool
    ensures vm.Valid() && vm.held == old(vm.held)
    ensures root != 0 <==> old(|vm.pool.free|) >= 3
    ensures root == 0 ==> Same(old(vm.A()), vm.A(), old(vm.pool.free), vm.pool.free)
    ensures root != 0 ==> root in vm.roots && root !in old(vm.roots) && Gone(vm.A(), old(vm.A()), root)
    ensures root != 0 ==>
              && Layout(vm.A(), root, 0, true, true)
              && Flat(vm.pt, vm.roots, root, TRAMPOLINE) == Pte(true, Perm(true, false, true, false), trampoline)
              && Flat(vm.pt, vm.roots, root, TRAPFRAME) == Pte(true, Perm(true, true, false, false), trapframe)
  {
    ghost var a, f := vm.A(), vm.pool.free;
    root := Begin(vm);
    if root == 0 {
      return;
    }
    var ok := MapTop(vm, root, TRAMPOLINE, trampoline, Perm(true, false, true, false), a);
    if !ok {
      Abandon(vm, root, a, f);
      return 0;
    }
    TopReady(vm, root);
    ok := MapTop(vm, root, TRAPFRAME, trapframe, Perm(true, true, false, false), a);
    assert ok; // the two pages share a table, so this error exit is never taken
  }

  /** The trapframe lies in the table of the trampoline. */
  lemma TopReady(vm: Vm, root: int)
    requires vm.Valid() && Flat(vm.pt, vm.roots, root, TRAMPOLINE).v
    ensures Missing(vm.A(), root, TRAPFRAME) == 0
  {
    assert Opened(true);
    NothingMissing(vm.A(), root, TRAMPOLINE);
  }

  /** mappages of one of the two pages on top, into a page table with nothing at that page. */
  method MapTop(vm: Vm, root: int, v: int, ppn: int, perm: Perm, ghost a: Space) returns (ok: bool)
    requires vm.Valid() && root in vm.roots && perm.Leaf() && !perm.u && ppn > 0
    requires ppn in vm.held || !(vm.pool.lo <= ppn < vm.pool.hi)
    requires v == TRAMPOLINE || v == TRAPFRAME
    requires Gone(vm.A(), a, root) && Layout(vm.A(), root, 0, false, v == TRAPFRAME)
    modifies vm`pt, vm`owner, vm`held, vm.pool
    ensures vm.Valid() && vm.held == old(vm.held) && root in vm.roots && Gone(vm.A(), a, root)
    ensures ok <==> old(|vm.pool.free|) >= Missing(old(vm.A()), root, v)
    ensures ok ==> |vm.pool.free| == old(|vm.pool.free|) - Missing(old(vm.A()), root, v)
    ensures ok ==> Layout(vm.A(), root, 0, v == TRAPFRAME, true)
    ensures ok ==> Flat(vm.pt, vm.roots, root, v) == Pte(true, perm, ppn)
    ensures ok && v == TRAPFRAME ==> Flat(vm.pt, vm.roots, root, TRAMPOLINE) == Flat(old(vm.pt), old(vm.roots), root, TRAMPOLINE)
    ensures !ok ==> Layout(vm.A(), root, 0, false, v == TRAPFRAME)
  {
    ghost var b := vm.A();
    vm.OneMissing(root, v);
    var r, k := vm.MapPages(root, v, 1, ppn, perm);
    HandedSets(old(vm.held), vm.held, v, ppn, k);
    GoneKeeps(a, b, vm.A(), root, v, k, Linear(v, ppn, perm));
    if r == Done {
      LayoutMap(b, vm.A(), root, 0, ppn, perm);
      return true;
    }
    NoneRewired(b, vm.A(), root, v, Linear(v, ppn, perm));
    LayoutUnmap(b, vm.A(), root, 0, false, v);
    return false;
  }

  /** uvmunmap(pagetable, va, 1, 0) of one of the two pages on top. */
  method UnmapTop(vm: Vm, root: int, v: int, ghost a: Space) returns (panic: bool)
    requires vm.Valid() && root in vm.roots && (v == TRAMPOLINE || v == TRAPFRAME) && Gone(vm.A(), a, root)
    modifies vm`pt, vm`owner, vm`held, vm.pool
    ensures panic <==> !Flat(old(vm.pt), old(vm.roots), root, v).v
    ensures !panic ==> vm.Valid() && vm.held == old(vm.held) && root in vm.roots && Gone(vm.A(), a, root)
    ensures !panic ==> Rewired(old(vm.A()), vm.A(), root, v, 1, Nothing())
  {
    ghost var b := vm.A();
    ghost var k;
    panic, k := UvmUnmap(vm, root, v, 1, false);
    assert Shown(true);
    if !panic {
      assert UserPpns(b, root, v, 1) == {};
      GoneKeeps(a, b, vm.A(), root, v, 1, Nothing());
    }
  }

  /** What is left once the two pages on top are unmapped. */
  lemma LayoutBelow(a: Space, b: Space, c: Space, root: int, n: int)
    requires n <= TRAPFRAME && Flat(a.pt, a.roots, root, TRAMPOLINE).v && Flat(b.pt, b.roots, root, TRAPFRAME).v
    requires Rewired(a, b, root, TRAMPOLINE, 1, Nothing()) && Rewired(b, c, root, TRAPFRAME, 1, Nothing())
    ensures Layout(c, root, n, false, false) <==> Layout(a, root, n, true, true)
  {
    forall v
      ensures Flat(c.pt, c.roots, root, v) == if v == TRAMPOLINE || v == TRAPFRAME then NONE else Flat(a.pt, a.roots, root, v)
    {
      assert Flat(b.pt, b.roots, root, v) == if v == TRAMPOLINE then NONE else Flat(a.pt, a.roots, root, v);
    }
    assert Flat(b.pt, b.roots, root, TRAPFRAME) == Flat(a.pt, a.roots, root, TRAPFRAME);
  }

  lemma LayoutTop(a: Space, b: Space, root: int, n: int)
    requires Layout(a, root, n, true, true)
    ensures Flat(a.pt, a.roots, root, TRAMPOLINE).v
    ensures Rewired(a, b, root, TRAMPOLINE, 1, Nothing()) ==> Flat(b.pt, b.roots, root, TRAPFRAME).v
  {
    assert Flat(a.pt, a.roots, root, TRAPFRAME).v;
  }

  /** proc_freepagetable: user memory and page tables go back to the free list; the trapframe page
      stays with the kernel. It panics exactly when something else is mapped than the pages below sz
      and the two pages on top; then nothing is promised. */
  method ProcFreePagetable(vm: Vm, root: int, sz: nat) returns (panic: bool)
    requires vm.Valid() && root in vm.roots && PgUp(sz) <= TRAPFRAME
    modifies vm`pt, vm`owner, vm`held, vm`roots, vm.pool
    ensures panic <==> !Layout(old(vm.A()), root, PgUp(sz), true, true)
    ensures !panic ==> vm.Valid() && vm.held == old(vm.held) && Gone(old(vm.A()), vm.A(), root)
    ensures !panic ==> Reclaimed(old(vm.A()), old(vm.pool.free), vm.pool.free, root)
  {
    ghost var a, f, n := vm.A(), vm.pool.free, PgUp(sz);
    ghost var rest := DropRoot(a, root);
    assert Gone(a, rest, root) && Partition(vm.pool.lo, vm.pool.hi, a.owner, f, vm.held) by {
      assert Opened(true);
      NothingRewired(a, root, 0);
      DropGone(a, a, root, 0);
    }
    panic := UnmapTwo(vm, root, n, rest);
    if panic {
      return;
    }
    ghost var c := vm.A();
    panic := UvmFree(vm, root, sz);
    if panic {
      return;
    }
    assert Partition(vm.pool.lo, vm.pool.hi, vm.owner, vm.pool.free, vm.held) by {
      assert Opened(true);
    }
    GoneAll(a, c, vm.A(), rest, root);
    PartitionReclaims(vm.pool.lo, vm.pool.hi, a, vm.A(), f, vm.pool.free, vm.held, root);
  }

  /** The two calls of uvmunmap at the start of proc_freepagetable. */
  method UnmapTwo(vm: Vm, root: int, ghost n: int, ghost rest: Space) returns (panic: bool)
    requires vm.Valid() && root in vm.roots && n <= TRAPFRAME && Gone(vm.A(), rest, root)
    modifies vm`pt, vm`owner, vm`held, vm.pool
    ensures panic ==> !Layout(old(vm.A()), root, n, true, true)
    ensures !panic ==> vm.Valid() && vm.held == old(vm.held) && root in vm.roots && Gone(vm.A(), rest, root)
    ensures !panic ==> (Layout(vm.A(), root, n, false, false) <==> Layout(old(vm.A()), root, n, true, true))
  {
    ghost var a := vm.A();
    panic := UnmapTop(vm, root, TRAMPOLINE, rest);
    if Layout(a, root, n, true, true) {
      LayoutTop(a, vm.A(), root, n);
    }
    if panic {
      return;
    }
    ghost var b := vm.A();
    panic := UnmapTop(vm, root, TRAPFRAME, rest);
    if !panic {
      LayoutBelow(a, b, vm.A(), root, n);
    }
  }

  lemma GoneAll(a: Space, b: Space, c: Space, rest: Space, root: int)
    requires Gone(a, rest, root) && Gone(b, rest, root) && Gone(b, c, root) && root in a.roots && root in b.roots
    ensures Gone(a, c, root)
  {
    forall r, v | r != root
      ensures Flat(c.pt, c.roots, r, v) == Flat(a.pt, a.roots, r, v)
    {
      assert Flat(rest.pt, rest.roots, r, v) == Flat(a.pt, a.roots, r, v);
      assert Flat(rest.pt, rest.roots, r, v) == Flat(b.pt, b.roots, r, v);
    }
  }
}
