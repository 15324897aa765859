/** Sv39 page tables (kernel/vm.c; section 4.4 of the RISC-V Privileged Architecture, version
    20211203) as a tree of table pages, and who owns each page of the pool.

    Addresses are page numbers. A spot names a place in an address space: a table page at level 2,
    1 or 0, or (level -1) the user page mapped at a virtual page number. */
module PageTree {

  /** Flag bits of a page-table entry other than V. */
  datatype Perm = Perm(r: bool, w: bool, x: bool, u: bool) {
    /** PTE_LEAF */
    predicate Leaf() {
      r || w || x
    }
  }

  datatype Pte = Pte(v: bool, perm: Perm, ppn: int)

  const NONE: Pte := Pte(false, Perm(false, false, false, false), 0)

  /** The flags of an entry that points to a table: V alone. */
  const TABLE: Perm := Perm(false, false, false, false)

  const MAXVPN: nat := 0x400_0000 // MAXVA / PGSIZE
  const TRAMPOLINE: nat := MAXVPN - 1
  const TRAPFRAME: nat := MAXVPN - 2 // user memory lies below

  /** The contents of the pages in use as page tables. */
  type Tables = map<int, seq<Pte>>

  datatype Spot = Spot(root: int, level: int, prefix: int)

  function ZeroTable(): seq<Pte> {
    seq(512, _ => NONE)
  }

  ghost predicate TableShape(pt: Tables) {
    forall p :: p in pt ==> p > 0 && |pt[p]| == 512
  }

  /** Entry i of table page p; none if p is not a table page. */
  ghost function Entry(pt: Tables, p: int, i: int): Pte {
    if p in pt && 0 <= i < |pt[p]| then pt[p][i] else NONE
  }

  /** The table page of a spot, or 0: follow the valid entries down from the root. */
  ghost function Tab(pt: Tables, roots: set<int>, s: Spot): int
    decreases 2 - s.level
  {
    if s.level >= 2 then (if s.level == 2 && s.prefix == 0 && s.root in roots then s.root else 0)
    else if s.prefix < 0 then 0
    else
      var p := Tab(pt, roots, Up(s));
      var e := Entry(pt, p, s.prefix % 512);
      if p != 0 && e.v then e.ppn else 0
  }

  function Up(s: Spot): Spot {
    Spot(s.root, s.level + 1, s.prefix / 512)
  }

  /** The leaf entry of virtual page vpn: the flat map that the tree stands for. */
  ghost function Flat(pt: Tables, roots: set<int>, root: int, vpn: int): Pte {
    if 0 <= vpn then
      var t := Tab(pt, roots, Spot(root, 0, vpn / 512));
      if t == 0 then NONE else Entry(pt, t, vpn % 512)
    else NONE
  }

  /** A spot that owns its page: every table page, and every user page. */
  predicate Owning(s: Spot) {
    s.level >= -1 && (s.level == -1 ==> 0 <= s.prefix < TRAPFRAME)
  }

  ghost function Pages(pt: Tables, roots: set<int>): Spot -> int {
    (s: Spot) => if Owning(s) then Tab(pt, roots, s) else 0
  }

  // ----- Ownership -----

  /** Each page has one owner: f and owner are inverse to each other. */
  ghost predicate Owns(f: Spot -> int, owner: map<int, Spot>) {
    && 0 !in owner
    && (forall s :: f(s) != 0 ==> f(s) in owner && owner[f(s)] == s)
    && (forall p {:trigger f(owner[p])} :: p in owner ==> f(owner[p]) == p)
  }

  lemma OwnsAdd(f: Spot -> int, f': Spot -> int, owner: map<int, Spot>, s: Spot, p: int)
    requires Owns(f, owner) && f(s) == 0 && p != 0 && p !in owner
    requires forall q {:trigger f'(q)} {:trigger f(q)} :: f'(q) == if q == s then p else f(q)
    ensures Owns(f', owner[p := s])
  {
    forall q | f'(q) != 0
      ensures f'(q) in owner[p := s] && owner[p := s][f'(q)] == q
    {
    }
  }

  lemma OwnsRemove(f: Spot -> int, f': Spot -> int, owner: map<int, Spot>, s: Spot)
    requires Owns(f, owner) && f(s) != 0
    requires forall q {:trigger f'(q)} {:trigger f(q)} :: f'(q) == if q == s then 0 else f(q)
    ensures Owns(f', owner - {f(s)})
  {
    forall q | f'(q) != 0
      ensures f'(q) in owner - {f(s)} && (owner - {f(s)})[f'(q)] == q
    {
    }
  }

  /** The page tables: which pages are tables, and what their entries may look like. An entry above
      level 0 points to a table and has no other flag; an entry of level 0 is a leaf, and only user
      pages have the U flag. */
  datatype Space = Space(pt: Tables, roots: set<int>, owner: map<int, Spot>) {
    ghost function F(): Spot -> int {
      Pages(pt, roots)
    }

    ghost predicate Ok() {
      (Owns(F(), owner) && Entries()) == true
    }

    ghost predicate Entries() {
      && TableShape(pt)
      && 0 !in roots
      && (forall p :: p in owner ==> Owning(owner[p]))
      && (forall p :: p in pt <==> p in owner && owner[p].level >= 0)
      && (forall p, i {:trigger pt[p][i]} :: p in pt && 0 <= i < 512 && pt[p][i].v ==>
            && pt[p][i].ppn > 0
            && pt[p][i].perm.Leaf() == (owner[p].level == 0)
            && (pt[p][i].perm.u ==> Owning(Down(owner[p], i))))
    }
  }

  /** The spot below u at index i. */
  function Down(u: Spot, i: int): Spot {
    Spot(u.root, u.level - 1, u.prefix * 512 + i)
  }

  lemma DownUp(u: Spot, i: int, s: Spot)
    requires 0 <= i < 512 && 0 <= u.prefix
    ensures s == Down(u, i) <==> s.prefix >= 0 && Up(s) == u && s.prefix % 512 == i
  {
  }

  /** Writing entry i of the table at u: pt with the entry e there, and a zeroed table at e.ppn if it points to one. */
  ghost function Put(pt: Tables, t: int, i: int, e: Pte, above: bool): Tables
    requires t in pt && 0 <= i < |pt[t]|
  {
    var q := pt[t := pt[t][i := e]];
    if above && e.v then q[e.ppn := ZeroTable()] else q
  }

  /** u is a table spot of a and t its page. */
  ghost predicate At(a: Space, u: Spot, t: int) {
    0 <= u.level <= 2 && a.F()(u) == t != 0 && u.prefix >= 0
  }

  lemma AtTable(a: Space, u: Spot, t: int)
    requires a.Ok() && At(a, u, t)
    ensures t in a.pt && |a.pt[t]| == 512 && a.owner[t] == u && Tab(a.pt, a.roots, u) == t
  {
  }

  lemma RootsOwned(a: Space)
    requires a.Ok()
    ensures forall r :: r in a.roots ==> r in a.owner
  {
    forall r | r in a.roots
      ensures r in a.owner
    {
      assert a.F()(Spot(r, 2, 0)) == r;
    }
  }

  /** Filling an empty entry with a page nobody owns gives that page to one spot and changes no other. */
  lemma {:induction false} TabPut(a: Space, u: Spot, t: int, i: int, e: Pte, s: Spot)
    requires a.Ok() && At(a, u, t) && 0 <= i < 512 && s.level >= -1
    requires e.v && e.ppn != 0 && e.ppn !in a.pt && t in a.pt && |a.pt[t]| == 512 && !a.pt[t][i].v
    ensures Tab(Put(a.pt, t, i, e, u.level > 0), a.roots, s) == if s == Down(u, i) then e.ppn else Tab(a.pt, a.roots, s)
    decreases 2 - s.level
  {
    DownUp(u, i, s);
    if s.level < 2 && s.prefix >= 0 {
      TabPut(a, u, t, i, e, Up(s));
      var p := Tab(a.pt, a.roots, Up(s));
      DownUp(u, i, Up(s));
      if p == t {
        assert a.F()(Up(s)) == t;
      }
      if Up(s) == Down(u, i) {
        EmptyBelow(a, u, t, i);
      }
    }
  }

  lemma EmptyBelow(a: Space, u: Spot, t: int, i: int)
    requires a.Ok() && At(a, u, t) && 0 <= i < 512 && t in a.pt && |a.pt[t]| == 512 && !a.pt[t][i].v
    ensures Tab(a.pt, a.roots, Down(u, i)) == 0
  {
    DownUp(u, i, Down(u, i));
  }

  // ----- A new table page -----

  /** The entry is empty and the page belongs to nobody. */
  ghost predicate Fillable(a: Space, u: Spot, t: int, i: int, p: int) {
    && a.Ok() && At(a, u, t) && 0 <= i < 512 && t in a.pt && |a.pt[t]| == 512 && !a.pt[t][i].v
    && p > 0 && p !in a.owner
  }

  ghost function WithTable(a: Space, u: Spot, t: int, i: int, p: int): Space
    requires t in a.pt && 0 <= i < |a.pt[t]|
  {
    Space(Put(a.pt, t, i, Pte(true, TABLE, p), true), a.roots, a.owner[p := Down(u, i)])
  }

  lemma WithTableEntries(a: Space, u: Spot, t: int, i: int, p: int)
    requires Fillable(a, u, t, i, p) && u.level > 0
    ensures WithTable(a, u, t, i, p).Entries()
  {
    AtTable(a, u, t);
  }

  lemma WithTableOk(a: Space, u: Spot, t: int, i: int, p: int)
    requires Fillable(a, u, t, i, p) && u.level > 0
    ensures WithTable(a, u, t, i, p).Ok()
    ensures forall s: Spot :: WithTable(a, u, t, i, p).F()(s) == if s == Down(u, i) then p else a.F()(s)
  {
    var b, e := WithTable(a, u, t, i, p), Pte(true, TABLE, p);
    WithTableEntries(a, u, t, i, p);
    EmptyBelow(a, u, t, i);
    forall s: Spot
      ensures b.F()(s) == if s == Down(u, i) then p else a.F()(s)
    {
      if s.level >= -1 {
        TabPut(a, u, t, i, e, s);
      }
    }
    OwnsAdd(a.F(), b.F(), a.owner, Down(u, i), p);
  }

  /** A new table maps nothing: the flat map is what it was. */
  lemma WithTableFlat(a: Space, u: Spot, t: int, i: int, p: int, root: int, vpn: int)
    requires Fillable(a, u, t, i, p) && u.level > 0
    ensures Flat(WithTable(a, u, t, i, p).pt, a.roots, root, vpn) == Flat(a.pt, a.roots, root, vpn)
  {
    var s := Spot(root, 0, vpn / 512);
    AtTable(a, u, t);
    EmptyBelow(a, u, t, i);
    if 0 <= vpn {
      TabPut(a, u, t, i, Pte(true, TABLE, p), s);
      assert a.F()(s) == Tab(a.pt, a.roots, s);
    }
  }

  // ----- A new or cleared leaf -----

  /** Entry i of the level-0 table t becomes e; the user page it maps, if any, belongs to the spot. */
  ghost function WithLeaf(a: Space, u: Spot, t: int, i: int, e: Pte): Space
    requires t in a.pt && 0 <= i < |a.pt[t]|
  {
    Space(a.pt[t := a.pt[t][i := e]], a.roots, if Owning(Down(u, i)) then a.owner[e.ppn := Down(u, i)] else a.owner)
  }

  lemma WithLeafEntries(a: Space, u: Spot, t: int, i: int, e: Pte)
    requires a.Ok() && At(a, u, t) && u.level == 0 && 0 <= i < 512 && t in a.pt && |a.pt[t]| == 512
    requires e.v && e.perm.Leaf() && e.ppn > 0 && (e.perm.u ==> Owning(Down(u, i))) && (Owning(Down(u, i)) ==> e.ppn !in a.owner) && e.ppn !in a.pt
    ensures WithLeaf(a, u, t, i, e).Entries()
  {
    AtTable(a, u, t);
  }

  lemma WithLeafOk(a: Space, u: Spot, t: int, i: int, e: Pte)
    requires a.Ok() && At(a, u, t) && u.level == 0 && 0 <= i < 512 && t in a.pt && |a.pt[t]| == 512 && !a.pt[t][i].v
    requires e.v && e.perm.Leaf() && e.ppn > 0 && (e.perm.u ==> Owning(Down(u, i))) && (Owning(Down(u, i)) ==> e.ppn !in a.owner) && e.ppn !in a.pt
    ensures WithLeaf(a, u, t, i, e).Ok()
    ensures Owning(Down(u, i)) ==> forall s: Spot :: WithLeaf(a, u, t, i, e).F()(s) == if s == Down(u, i) then e.ppn else a.F()(s)
    ensures !Owning(Down(u, i)) ==> forall s: Spot :: WithLeaf(a, u, t, i, e).F()(s) == a.F()(s)
  {
    var b := WithLeaf(a, u, t, i, e);
    WithLeafEntries(a, u, t, i, e);
    EmptyBelow(a, u, t, i);
    forall s: Spot
      ensures b.F()(s) == if s == Down(u, i) && Owning(s) then e.ppn else a.F()(s)
    {
      if s.level >= -1 {
        TabPut(a, u, t, i, e, s);
      }
    }
    if Owning(Down(u, i)) {
      OwnsAdd(a.F(), b.F(), a.owner, Down(u, i), e.ppn);
    }
  }

  /** The virtual page number of entry i of the level-0 table at u. */
  function Vpn(u: Spot, i: int): int {
    u.prefix * 512 + i
  }

  lemma LeafFlat(a: Space, u: Spot, t: int, i: int, e: Pte, root: int, vpn: int)
    requires a.Ok() && At(a, u, t) && u.level == 0 && 0 <= i < 512 && t in a.pt && |a.pt[t]| == 512
    requires !e.v || (e.ppn != 0 && e.ppn !in a.pt && !a.pt[t][i].v)
    ensures Flat(a.pt[t := a.pt[t][i := e]], a.roots, root, vpn)
         == if root == u.root && vpn == Vpn(u, i) && 0 <= vpn then e else Flat(a.pt, a.roots, root, vpn)
  {
    if 0 <= vpn {
      var s := Spot(root, 0, vpn / 512);
      if e.v {
        TabPut(a, u, t, i, e, s);
      } else {
        TabClear(a, u, t, i, e, s);
      }
      LeafEntry(a, u, t, i, e, root, vpn);
    }
  }

  /** The entry of vpn when entry i of the level-0 table t changes and no table does. */
  lemma LeafEntry(a: Space, u: Spot, t: int, i: int, e: Pte, root: int, vpn: int)
    requires a.Ok() && At(a, u, t) && u.level == 0 && 0 <= i < 512 && t in a.pt && |a.pt[t]| == 512 && 0 <= vpn
    requires Tab(a.pt[t := a.pt[t][i := e]], a.roots, Spot(root, 0, vpn / 512)) == Tab(a.pt, a.roots, Spot(root, 0, vpn / 512))
    ensures Flat(a.pt[t := a.pt[t][i := e]], a.roots, root, vpn)
         == if root == u.root && vpn == Vpn(u, i) then e else Flat(a.pt, a.roots, root, vpn)
  {
    var s := Spot(root, 0, vpn / 512);
    AtTable(a, u, t);
    if Tab(a.pt, a.roots, s) == t {
      assert a.F()(s) == t;
    }
  }

  /** Clearing a leaf empties one spot and changes no other. */
  lemma {:induction false} TabClear(a: Space, u: Spot, t: int, i: int, e: Pte, s: Spot)
    requires a.Ok() && At(a, u, t) && u.level == 0 && 0 <= i < 512 && s.level >= -1 && t in a.pt && |a.pt[t]| == 512 && !e.v
    ensures Tab(a.pt[t := a.pt[t][i := e]], a.roots, s) == if s == Down(u, i) then 0 else Tab(a.pt, a.roots, s)
    decreases 2 - s.level
  {
    DownUp(u, i, s);
    if s.level < 2 && s.prefix >= 0 {
      TabClear(a, u, t, i, e, Up(s));
      if Tab(a.pt, a.roots, Up(s)) == t {
        assert a.F()(Up(s)) == t;
      }
    }
  }

  ghost function WithoutLeaf(a: Space, u: Spot, t: int, i: int): Space
    requires t in a.pt && 0 <= i < |a.pt[t]|
  {
    Space(a.pt[t := a.pt[t][i := NONE]], a.roots, if Owning(Down(u, i)) then a.owner - {a.pt[t][i].ppn} else a.owner)
  }

  lemma WithoutLeafEntries(a: Space, u: Spot, t: int, i: int)
    requires a.Ok() && At(a, u, t) && u.level == 0 && 0 <= i < 512 && t in a.pt && |a.pt[t]| == 512 && a.pt[t][i].v
    ensures WithoutLeaf(a, u, t, i).Entries()
  {
    AtTable(a, u, t);
    DownUp(u, i, Down(u, i));
    if Owning(Down(u, i)) {
      assert a.F()(Down(u, i)) == a.pt[t][i].ppn;
    }
  }

  lemma WithoutLeafOk(a: Space, u: Spot, t: int, i: int)
    requires a.Ok() && At(a, u, t) && u.level == 0 && 0 <= i < 512 && t in a.pt && |a.pt[t]| == 512 && a.pt[t][i].v && a.pt[t][i].ppn != 0
    ensures WithoutLeaf(a, u, t, i).Ok()
    ensures Owning(Down(u, i)) ==>
              && a.F()(Down(u, i)) == a.pt[t][i].ppn
              && forall s: Spot :: WithoutLeaf(a, u, t, i).F()(s) == if s == Down(u, i) then 0 else a.F()(s)
    ensures !Owning(Down(u, i)) ==> forall s: Spot :: WithoutLeaf(a, u, t, i).F()(s) == a.F()(s)
  {
    var b := WithoutLeaf(a, u, t, i);
    WithoutLeafEntries(a, u, t, i);
    DownUp(u, i, Down(u, i));
    forall s: Spot
      ensures b.F()(s) == if s == Down(u, i) then 0 else a.F()(s)
    {
      if s.level >= -1 {
        TabClear(a, u, t, i, NONE, s);
      }
    }
    if Owning(Down(u, i)) {
      OwnsRemove(a.F(), b.F(), a.owner, Down(u, i));
    }
  }

  // ----- A new address space -----

  ghost function WithRoot(a: Space, p: int): Space {
    Space(a.pt[p := ZeroTable()], a.roots + {p}, a.owner[p := Spot(p, 2, 0)])
  }

  lemma {:induction false} TabRoot(a: Space, p: int, s: Spot)
    requires a.Ok() && p > 0 && p !in a.owner && p !in a.roots && s.level >= -1
    ensures Tab(WithRoot(a, p).pt, WithRoot(a, p).roots, s) == if s == Spot(p, 2, 0) then p else Tab(a.pt, a.roots, s)
    ensures s.root == p ==> Tab(a.pt, a.roots, s) == 0
    decreases 2 - s.level
  {
    if s.level < 2 && s.prefix >= 0 {
      TabRoot(a, p, Up(s));
      var t := Tab(a.pt, a.roots, Up(s));
      if t != 0 {
        assert a.F()(Up(s)) == t;
      }
    }
  }

  lemma WithRootOk(a: Space, p: int)
    requires a.Ok() && p > 0 && p !in a.owner && p !in a.roots
    ensures WithRoot(a, p).Ok()
  {
    var b := WithRoot(a, p);
    forall s: Spot
      ensures b.F()(s) == if s == Spot(p, 2, 0) then p else a.F()(s)
    {
      if s.level >= -1 {
        TabRoot(a, p, s);
      }
    }
    OwnsAdd(a.F(), b.F(), a.owner, Spot(p, 2, 0), p);
  }

  lemma WithRootFlat(a: Space, p: int, r: int, v: int)
    requires a.Ok() && p > 0 && p !in a.owner && p !in a.roots
    ensures Flat(WithRoot(a, p).pt, WithRoot(a, p).roots, r, v) == Flat(a.pt, a.roots, r, v)
    ensures r == p ==> Flat(a.pt, a.roots, r, v) == NONE
  {
    var s := Spot(r, 0, v / 512);
    TabRoot(a, p, s);
    if 0 <= v && Tab(a.pt, a.roots, s) != 0 {
      assert a.F()(s) == Tab(a.pt, a.roots, s);
    }
  }
}
