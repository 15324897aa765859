/** User page tables of kernel/vm.c: walk, mappages, uvmunmap and what is built from them. */
module PageTables {
  import opened Collections
  import opened Guards
  import opened PageTree
  import opened PagePool

  type Byte = b: int | 0 <= b < 256

  function ZeroPage(): seq<Byte> {
    seq(4096, _ => 0)
  }

  /** Every page of the pool is a table page or user page of some address space, or free, or held
      by the kernel for something else -- exactly one of these. */
  ghost predicate Partition(lo: int, hi: int, owner: map<int, Spot>, free: seq<int>, held: set<int>) {
    && (forall p :: p in owner ==> lo <= p < hi && p !in free && p !in held)
    && (forall p :: p in free ==> lo <= p < hi && p !in held)
    && (forall p :: p in held ==> lo <= p < hi)
    && (forall p :: lo <= p < hi ==> p in owner || p in free || p in held)
  }

  lemma PartitionDrop(lo: int, hi: int, owner: map<int, Spot>, free: seq<int>, held: set<int>, page: int)
    requires Partition(lo, hi, owner, free, held) && page in owner
    ensures Partition(lo, hi, owner - {page}, [page] + free, held)
    ensures Partition(lo, hi, owner - {page}, free, held + {page})
    ensures lo <= page < hi && page !in free
  {
  }

  /** A free page finds an owner. */
  lemma PartitionOwn(lo: int, hi: int, owner: map<int, Spot>, free: seq<int>, held: set<int>, s: Spot)
    requires Partition(lo, hi, owner, free, held) && free != [] && NoDup(free)
    ensures free[0] !in owner && lo <= free[0] < hi && Partition(lo, hi, owner[free[0] := s], free[1..], held)
  {
    HeadOnce(free);
  }

  /** A free page goes to the kernel. */
  lemma PartitionHold(lo: int, hi: int, owner: map<int, Spot>, free: seq<int>, held: set<int>)
    requires Partition(lo, hi, owner, free, held) && free != [] && NoDup(free)
    ensures free[0] !in owner && free[0] !in held && lo <= free[0] < hi && Partition(lo, hi, owner, free[1..], held + {free[0]})
  {
    HeadOnce(free);
  }

  lemma HeadOnce(s: seq<int>)
    requires s != [] && NoDup(s)
    ensures forall x :: x in s <==> x == s[0] || x in s[1..]
    ensures s[0] !in s[1..]
  {
  }

  /** Every page of the other address spaces is owned as before. */
  ghost predicate Elsewhere(a: Space, b: Space, root: int) {
    && b.roots == a.roots
    && (forall p :: p in a.owner && a.owner[p].root != root ==> p in b.owner && b.owner[p] == a.owner[p])
    && (forall p :: p in b.owner && b.owner[p].root != root ==> p in a.owner && b.owner[p] == a.owner[p])
  }

  /** Only table pages of one address space have been added: every translation is what it was. */
  ghost predicate Grown(a: Space, b: Space, root: int) {
    (&& Elsewhere(a, b, root)
     && (forall p :: p in a.owner ==> p in b.owner && b.owner[p] == a.owner[p])
     && (forall r, v :: Flat(b.pt, b.roots, r, v) == Flat(a.pt, a.roots, r, v))) == true
  }

  lemma GrownTwice(a: Space, b: Space, c: Space, root: int)
    requires Grown(a, b, root) && Grown(b, c, root)
    ensures Grown(a, c, root)
  {
    forall r, v
      ensures Flat(c.pt, c.roots, r, v) == Flat(a.pt, a.roots, r, v)
    {
      assert Flat(b.pt, b.roots, r, v) == Flat(a.pt, a.roots, r, v);
    }
  }

  lemma TableGrown(a: Space, u: Spot, t: int, i: int, p: int)
    requires Fillable(a, u, t, i, p) && u.level > 0
    ensures Grown(a, WithTable(a, u, t, i, p), u.root) && WithTable(a, u, t, i, p).Ok()
    ensures At(WithTable(a, u, t, i, p), Down(u, i), p)
    ensures forall s: Spot :: s != Down(u, i) ==> WithTable(a, u, t, i, p).F()(s) == a.F()(s)
  {
    WithTableOk(a, u, t, i, p);
    forall r, v
      ensures Flat(WithTable(a, u, t, i, p).pt, a.roots, r, v) == Flat(a.pt, a.roots, r, v)
    {
      WithTableFlat(a, u, t, i, p, r, v);
    }
  }

  /** n pages of one address space from vpn on are remapped as g says; no other translation changes. */
  ghost predicate Rewired(a: Space, b: Space, root: int, vpn: int, n: int, g: int -> Pte) {
    (&& Elsewhere(a, b, root)
     && forall r, v :: Flat(b.pt, b.roots, r, v)
                    == if r == root && vpn <= v < vpn + n then g(v) else Flat(a.pt, a.roots, r, v)) == true
  }

  /** Consecutive pages to consecutive pages. */
  function Linear(vpn: int, ppn: int, perm: Perm): int -> Pte {
    (v: int) => Pte(true, perm, ppn + (v - vpn))
  }

  function Nothing(): int -> Pte {
    (v: int) => NONE
  }

  lemma GrownRewired(a: Space, b: Space, c: Space, root: int, vpn: int, n: int, g: int -> Pte)
    requires Grown(a, b, root) && Rewired(b, c, root, vpn, n, g)
    ensures Rewired(a, c, root, vpn, n, g)
  {
    forall r, v
      ensures Flat(c.pt, c.roots, r, v) == if r == root && vpn <= v < vpn + n then g(v) else Flat(a.pt, a.roots, r, v)
    {
      assert Flat(b.pt, b.roots, r, v) == Flat(a.pt, a.roots, r, v);
    }
  }

  lemma RewiredOneMore(a: Space, b: Space, c: Space, root: int, vpn: int, n: nat, g: int -> Pte)
    requires Rewired(a, b, root, vpn, n, g) && Rewired(b, c, root, vpn + n, 1, g)
    ensures Rewired(a, c, root, vpn, n + 1, g)
  {
    forall r, v
      ensures Flat(c.pt, c.roots, r, v) == if r == root && vpn <= v < vpn + n + 1 then g(v) else Flat(a.pt, a.roots, r, v)
    {
      assert Flat(b.pt, b.roots, r, v) == if r == root && vpn <= v < vpn + n then g(v) else Flat(a.pt, a.roots, r, v);
    }
  }

  lemma FlatAt(a: Space, root: int, vpn: int, t: int)
    requires a.Ok() && 0 <= vpn < MAXVPN && t == a.F()(Spot(root, 0, vpn / 512))
    ensures t == 0 ==> Flat(a.pt, a.roots, root, vpn) == NONE
    ensures t != 0 ==> t in a.pt && |a.pt[t]| == 512 && Flat(a.pt, a.roots, root, vpn) == a.pt[t][vpn % 512]
    ensures t != 0 ==> a.owner[t] == Spot(root, 0, vpn / 512)
  {
    if t != 0 {
      AtTable(a, Spot(root, 0, vpn / 512), t);
    }
  }

  /** Entry i of the level-0 table t at u may become e. */
  ghost predicate LeafFits(a: Space, u: Spot, t: int, i: int, e: Pte) {
    (&& a.Ok() && At(a, u, t) && u.level == 0 && 0 <= i < 512 && 0 <= Vpn(u, i) < MAXVPN && t in a.pt && |a.pt[t]| == 512
     && !a.pt[t][i].v && e.v && e.perm.Leaf() && e.ppn > 0 && e.ppn !in a.pt
     && (Vpn(u, i) < TRAPFRAME ==> e.ppn !in a.owner)
     && (e.perm.u ==> Vpn(u, i) < TRAPFRAME)) == true
  }

  lemma LeafSetFlat(a: Space, u: Spot, t: int, i: int, e: Pte, r: int, v: int)
    requires LeafFits(a, u, t, i, e)
    ensures Flat(WithLeaf(a, u, t, i, e).pt, a.roots, r, v)
         == if r == u.root && v == Vpn(u, i) then e else Flat(a.pt, a.roots, r, v)
  {
    LeafFlat(a, u, t, i, e, r, v);
  }

  lemma LeafSet(a: Space, u: Spot, t: int, i: int, e: Pte, g: int -> Pte)
    requires LeafFits(a, u, t, i, e) && g(Vpn(u, i)) == e
    ensures WithLeaf(a, u, t, i, e).Ok()
    ensures Rewired(a, WithLeaf(a, u, t, i, e), u.root, Vpn(u, i), 1, g)
    ensures forall s: Spot :: s.level >= 0 ==> WithLeaf(a, u, t, i, e).F()(s) == a.F()(s)
  {
    WithLeafOk(a, u, t, i, e);
    LeafSetRewired(a, u, t, i, e, g);
  }

  lemma LeafSetRewired(a: Space, u: Spot, t: int, i: int, e: Pte, g: int -> Pte)
    requires LeafFits(a, u, t, i, e) && g(Vpn(u, i)) == e
    ensures Rewired(a, WithLeaf(a, u, t, i, e), u.root, Vpn(u, i), 1, g)
  {
    var b := WithLeaf(a, u, t, i, e);
    forall r, v
      ensures Flat(b.pt, b.roots, r, v)
           == if r == u.root && Vpn(u, i) <= v < Vpn(u, i) + 1 then g(v) else Flat(a.pt, a.roots, r, v)
    {
      LeafSetFlat(a, u, t, i, e, r, v);
    }
  }

  lemma RewiredGrown(a: Space, b: Space, c: Space, root: int, vpn: int, n: int, g: int -> Pte)
    requires Rewired(a, b, root, vpn, n, g) && Grown(b, c, root)
    ensures Rewired(a, c, root, vpn, n, g)
  {
    forall r, v
      ensures Flat(c.pt, c.roots, r, v) == if r == root && vpn <= v < vpn + n then g(v) else Flat(a.pt, a.roots, r, v)
    {
      assert Flat(b.pt, b.roots, r, v) == if r == root && vpn <= v < vpn + n then g(v) else Flat(a.pt, a.roots, r, v);
    }
  }

  /** Entry i of the level-0 table t at u maps a page. */
  ghost predicate LeafThere(a: Space, u: Spot, t: int, i: int) {
    (&& a.Ok() && At(a, u, t) && u.level == 0 && 0 <= i < 512 && 0 <= Vpn(u, i) < MAXVPN && t in a.pt && |a.pt[t]| == 512
     && a.pt[t][i].v) == true
  }

  lemma LeafCleared(a: Space, u: Spot, t: int, i: int)
    requires LeafThere(a, u, t, i)
    ensures WithoutLeaf(a, u, t, i).Ok() && Rewired(a, WithoutLeaf(a, u, t, i), u.root, Vpn(u, i), 1, Nothing())
    ensures Vpn(u, i) < TRAPFRAME ==> a.pt[t][i].ppn in a.owner
  {
    WithoutLeafOk(a, u, t, i);
    var b := WithoutLeaf(a, u, t, i);
    forall r, v
      ensures Flat(b.pt, b.roots, r, v)
           == if r == u.root && Vpn(u, i) <= v < Vpn(u, i) + 1 then Nothing()(v) else Flat(a.pt, a.roots, r, v)
    {
      LeafFlat(a, u, t, i, NONE, r, v);
    }
  }

  /** After k pages have been mapped by mappages: the user pages among them left the kernel's hands. */
  ghost predicate Handed(before: set<int>, after: set<int>, vpn: int, ppn: int, k: int) {
    forall p :: p in after <==> p in before && !(ppn <= p < ppn + k && vpn + (p - ppn) < TRAPFRAME)
  }

  /** No page is mapped at vpn .. vpn + n. */
  ghost predicate Vacant(a: Space, root: int, vpn: int, n: int) {
    (forall v :: vpn <= v < vpn + n ==> !Flat(a.pt, a.roots, root, v).v) == true
  }

  lemma RewiredNext(a: Space, b: Space, root: int, vpn: int, k: nat, g: int -> Pte)
    requires Vacant(a, root, vpn, k) && Rewired(a, b, root, vpn, k, g)
    ensures Flat(b.pt, b.roots, root, vpn + k) == Flat(a.pt, a.roots, root, vpn + k)
    ensures !Flat(a.pt, a.roots, root, vpn + k).v ==> Vacant(a, root, vpn, k + 1)
  {
  }

  /** mappages after k pages. */
  ghost predicate Progress(a: Space, b: Space, before: set<int>, after: set<int>, root: int, vpn: int, k: int, ppn: int,
                           g: int -> Pte) {
    forall x {:trigger Bared(x)} :: Bared(x) ==>
      Rewired(a, b, root, vpn, k, g) && Handed(before, after, vpn, ppn, k) && Vacant(a, root, vpn, k)
  }

  lemma ProgressIs(a: Space, b: Space, before: set<int>, after: set<int>, root: int, vpn: int, k: nat, ppn: int, g: int -> Pte)
    requires Progress(a, b, before, after, root, vpn, k, ppn, g)
    ensures Rewired(a, b, root, vpn, k, g) && Handed(before, after, vpn, ppn, k) && Vacant(a, root, vpn, k)
  {
    assert Bared(true);
  }

  lemma ProgressAt(a: Space, b: Space, before: set<int>, after: set<int>, root: int, vpn: int, k: nat, ppn: int, g: int -> Pte)
    requires Progress(a, b, before, after, root, vpn, k, ppn, g)
    ensures Flat(b.pt, b.roots, root, vpn + k) == Flat(a.pt, a.roots, root, vpn + k)
    ensures !Flat(a.pt, a.roots, root, vpn + k).v ==> Vacant(a, root, vpn, k + 1)
  {
    assert Bared(true);
    RewiredNext(a, b, root, vpn, k, g);
  }

  lemma ProgressSame(a: Space, b: Space, c: Space, h0: set<int>, h: set<int>, root: int, vpn: int, k: nat, ppn: int, g: int -> Pte)
    requires Progress(a, b, h0, h, root, vpn, k, ppn, g) && Grown(b, c, root)
    ensures Progress(a, c, h0, h, root, vpn, k, ppn, g)
  {
    assert Bared(true);
    RewiredGrown(a, b, c, root, vpn, k, g);
  }

  lemma ProgressNext(
    a: Space, b: Space, c: Space, h0: set<int>, h: set<int>, h1: set<int>, root: int, vpn: int, k: nat, ppn: int, g: int -> Pte)
    requires Progress(a, b, h0, h, root, vpn, k, ppn, g) && Vacant(a, root, vpn, k + 1)
    requires Rewired(b, c, root, vpn + k, 1, g) && h1 == if vpn + k < TRAPFRAME then h - {ppn + k} else h
    ensures Progress(a, c, h0, h1, root, vpn, k + 1, ppn, g)
  {
    assert Bared(true);
    RewiredOneMore(a, b, c, root, vpn, k, g);
  }

  lemma MapNothing(a: Space, held: set<int>, root: int, vpn: int, ppn: int, g: int -> Pte)
    ensures Progress(a, a, held, held, root, vpn, 0, ppn, g)
  {
  }

  lemma HandedSets(before: set<int>, after: set<int>, vpn: int, ppn: int, k: int)
    requires Handed(before, after, vpn, ppn, k) && k <= 1
    ensures after == if k == 1 && vpn < TRAPFRAME then before - {ppn} else before
  {
    forall p
      ensures p in after <==> p in before && !(k == 1 && vpn < TRAPFRAME && p == ppn)
    {
    }
  }

  datatype Outcome = Done | NoMemory | Panic

  /** PX(level, va): the index into the table of that level. */
  function Px(level: int, vpn: int): int {
    if level == 2 then vpn / 512 / 512 % 512 else if level == 1 then vpn / 512 % 512 else vpn % 512
  }

  /** The table spot of a level on the way to vpn. */
  function OnPath(root: int, vpn: int, level: int): Spot {
    Spot(root, level, if level == 2 then 0 else if level == 1 then vpn / 512 / 512 else vpn / 512)
  }

  lemma PathDown(root: int, vpn: int, level: int)
    requires 0 <= vpn < MAXVPN && 1 <= level <= 2
    ensures Down(OnPath(root, vpn, level), Px(level, vpn)) == OnPath(root, vpn, level - 1)
  {
  }

  lemma PathEnds(a: Space, root: int, vpn: int, level: int)
    requires 0 <= vpn < MAXVPN && 0 <= level <= 1 && a.F()(OnPath(root, vpn, level)) == 0
    ensures a.F()(OnPath(root, vpn, 0)) == 0
  {
    assert Up(OnPath(root, vpn, 0)) == OnPath(root, vpn, 1);
  }

  ghost predicate SameAt(a: Space, b: Space, s: Spot) {
    b.F()(s) == a.F()(s)
  }

  /** How many tables walk has to make on the way to the entry of vpn when it has come down to a level. */
  ghost function Made(a: Space, root: int, vpn: int, level: int): nat {
    (if level <= 1 && a.F()(OnPath(root, vpn, 1)) == 0 then 1 else 0) + (if level <= 0 && a.F()(OnPath(root, vpn, 0)) == 0 then 1 else 0)
  }

  /** How many tables are missing on the way to the entry of vpn: 0, 1 or 2. */
  ghost function Missing(a: Space, root: int, vpn: int): (n: nat)
    ensures n <= 2
  {
    Made(a, root, vpn, 0)
  }

  /** A page that is mapped needs no table. */
  lemma NothingMissing(a: Space, root: int, vpn: int)
    requires a.Ok() && 0 <= vpn < MAXVPN && Flat(a.pt, a.roots, root, vpn).v
    ensures forall v :: 0 <= v < MAXVPN && v / 512 == vpn / 512 ==> Missing(a, root, v) == 0
  {
    var t := a.F()(Spot(root, 0, vpn / 512));
    FlatAt(a, root, vpn, t);
    forall v | 0 <= v < MAXVPN && v / 512 == vpn / 512
      ensures Missing(a, root, v) == 0
    {
      if a.F()(OnPath(root, v, 1)) == 0 {
        PathEnds(a, root, v, 1);
      }
    }
  }

  // ----- The tables that a range of pages needs -----

  /** The tables below the root on the way to the entries of n pages from lo on. */
  ghost function Paths(root: int, lo: int, n: int): set<Spot> {
    set v, l | lo <= v < lo + n && 0 <= l <= 1 :: OnPath(root, v, l)
  }

  ghost function Lacking(f: Spot -> int, p: set<Spot>): set<Spot> {
    set s | s in p && f(s) == 0
  }

  /** Those of them that are missing. */
  ghost function MissingTables(a: Space, root: int, lo: int, n: int): set<Spot> {
    Lacking(a.F(), Paths(root, lo, n))
  }

  lemma LackingOne(f: Spot -> int, p: set<Spot>, s: Spot)
    ensures |Lacking(f, p + {s})| == |Lacking(f, p)| + if f(s) == 0 && s !in p then 1 else 0
  {
    var q := Lacking(f, p);
    assert Lacking(f, p + {s}) == if f(s) == 0 && s !in p then q + {s} else q;
  }

  lemma LackingTwo(f: Spot -> int, p: set<Spot>, s: Spot, t: Spot)
    requires s != t
    ensures |Lacking(f, p + {s, t})| == |Lacking(f, p)| + (if f(s) == 0 && s !in p then 1 else 0) + (if f(t) == 0 && t !in p then 1 else 0)
  {
    LackingOne(f, p, s);
    LackingOne(f, p + {s}, t);
    assert p + {s} + {t} == p + {s, t};
  }

  lemma PathsNext(root: int, lo: int, n: nat)
    ensures Paths(root, lo, 0) == {}
    ensures Paths(root, lo, n + 1) == Paths(root, lo, n) + {OnPath(root, lo + n, 0), OnPath(root, lo + n, 1)}
  {
    var v := lo + n;
    forall s | s in Paths(root, lo, n + 1)
      ensures s in Paths(root, lo, n) || s == OnPath(root, v, 0) || s == OnPath(root, v, 1)
    {
    }
    assert OnPath(root, v, 0) in Paths(root, lo, n + 1) && OnPath(root, v, 1) in Paths(root, lo, n + 1);
  }

  /** The tables are those that were there and those on the way to the n pages. */
  ghost predicate Spread(a: Space, b: Space, root: int, lo: int, n: int) {
    forall x {:trigger Settled(x)} :: Settled(x) ==>
      forall s: Spot {:trigger b.F()(s)} {:trigger a.F()(s)} :: 0 <= s.level <= 1 ==>
        (b.F()(s) != 0 <==> a.F()(s) != 0 || s in Paths(root, lo, n))
  }

  lemma SpreadNone(a: Space, root: int, lo: int)
    ensures Spread(a, a, root, lo, 0) && MissingTables(a, root, lo, 0) == {}
  {
    PathsNext(root, lo, 0);
  }

  lemma SpreadNext(a: Space, b: Space, c: Space, root: int, lo: int, n: nat)
    requires Spread(a, b, root, lo, n) && Spread(b, c, root, lo + n, 1)
    ensures Spread(a, c, root, lo, n + 1)
  {
    assert Settled(true);
    PathsNext(root, lo, n);
    PathsNext(root, lo + n, 0);
  }

  lemma SpreadSame(a: Space, b: Space, c: Space, root: int, lo: int, n: nat)
    requires Spread(a, b, root, lo, n) && forall s: Spot :: s.level >= 0 ==> c.F()(s) == b.F()(s)
    ensures Spread(a, c, root, lo, n)
  {
    assert Settled(true);
  }

  /** The page after n pages misses what the n + 1 pages miss beyond the n. */
  lemma MissingNext(a: Space, b: Space, root: int, lo: int, n: nat)
    requires Spread(a, b, root, lo, n)
    ensures |MissingTables(a, root, lo, n + 1)| == |MissingTables(a, root, lo, n)| + Missing(b, root, lo + n)
  {
    var s0, s1 := OnPath(root, lo + n, 0), OnPath(root, lo + n, 1);
    SpreadAt(a, b, root, lo, n, s0);
    SpreadAt(a, b, root, lo, n, s1);
    PathsNext(root, lo, n);
    LackingTwo(a.F(), Paths(root, lo, n), s0, s1);
  }

  lemma SpreadAt(a: Space, b: Space, root: int, lo: int, n: nat, s: Spot)
    requires Spread(a, b, root, lo, n) && 0 <= s.level <= 1
    ensures b.F()(s) == 0 <==> a.F()(s) == 0 && s !in Paths(root, lo, n)
  {
    assert Settled(true);
  }

  /** Of f0 free pages those are left that are not needed as tables for the first n pages. */
  ghost predicate Counted(a: Space, b: Space, root: int, lo: int, n: int, f0: int, f1: int) {
    forall x {:trigger Settled(x)} :: Settled(x) ==> Spread(a, b, root, lo, n) && f1 == f0 - |MissingTables(a, root, lo, n)|
  }

  /** f free pages are too few for the tables of n pages. */
  ghost predicate TooFew(a: Space, root: int, lo: int, n: int, f: int) {
    forall x {:trigger Settled(x)} :: Settled(x) ==> f < |MissingTables(a, root, lo, n)|
  }

  lemma CountedNone(a: Space, root: int, lo: int, f: int)
    ensures Counted(a, a, root, lo, 0, f, f)
  {
    SpreadNone(a, root, lo);
  }

  lemma CountedIs(a: Space, b: Space, root: int, lo: int, n: nat, f0: int, f1: int)
    requires Counted(a, b, root, lo, n, f0, f1)
    ensures Spread(a, b, root, lo, n) && f1 == f0 - |MissingTables(a, root, lo, n)|
  {
    assert Settled(true);
  }

  lemma CountedNext(a: Space, b: Space, c: Space, root: int, lo: int, n: nat, f0: int, f1: int, f2: int)
    requires Counted(a, b, root, lo, n, f0, f1) && Spread(b, c, root, lo + n, 1) && f2 == f1 - Missing(b, root, lo + n)
    ensures Counted(a, c, root, lo, n + 1, f0, f2)
  {
    CountedIs(a, b, root, lo, n, f0, f1);
    SpreadNext(a, b, c, root, lo, n);
    MissingNext(a, b, root, lo, n);
  }

  lemma CountedFew(a: Space, b: Space, root: int, lo: int, n: nat, f0: int, f1: int)
    requires Counted(a, b, root, lo, n, f0, f1)
    ensures TooFew(a, root, lo, n + 1, f0) <==> f1 < Missing(b, root, lo + n)
  {
    CountedIs(a, b, root, lo, n, f0, f1);
    MissingNext(a, b, root, lo, n);
    TooFewIs(a, root, lo, n + 1, f0);
  }

  lemma CountedLess(a: Space, b: Space, root: int, lo: int, n: nat, f0: int, f1: int)
    requires Counted(a, b, root, lo, n, f0, f1)
    ensures Counted(a, b, root, lo, n, f0 - 1, f1 - 1)
  {
    CountedIs(a, b, root, lo, n, f0, f1);
  }

  lemma CountedEnough(a: Space, b: Space, root: int, lo: int, n: nat, f0: int, f1: int)
    requires Counted(a, b, root, lo, n, f0, f1) && f1 >= 0
    ensures !TooFew(a, root, lo, n, f0)
  {
    assert Settled(true);
  }

  lemma TooFewIs(a: Space, root: int, lo: int, n: nat, f: int)
    ensures TooFew(a, root, lo, n, f) <==> f < |MissingTables(a, root, lo, n)|
  {
    assert Settled(true);
  }

  /** At most two tables per page, and more pages need no fewer. */
  lemma {:induction false} MissingBound(a: Space, root: int, lo: int, k: nat, n: nat)
    requires k <= n
    ensures |MissingTables(a, root, lo, k)| <= |MissingTables(a, root, lo, n)| <= |MissingTables(a, root, lo, k)| + 2 * (n - k)
  {
    if k < n {
      MissingBound(a, root, lo, k, n - 1);
      PathsNext(root, lo, n - 1);
      LackingTwo(a.F(), Paths(root, lo, n - 1), OnPath(root, lo + n - 1, 0), OnPath(root, lo + n - 1, 1));
    }
  }

  /** walk has come down to a level: the tables are those that were there and those on its way so far. */
  ghost predicate Walked(a: Space, b: Space, root: int, vpn: int, level: int) {
    forall x {:trigger Settled(x)} :: Settled(x) ==>
      forall s: Spot {:trigger b.F()(s)} {:trigger a.F()(s)} :: 0 <= s.level <= 1 ==>
        (b.F()(s) != 0 <==> a.F()(s) != 0 || (level <= s.level && s == OnPath(root, vpn, s.level)))
  }

  lemma WalkedStart(a: Space, root: int, vpn: int)
    ensures Walked(a, a, root, vpn, 2)
  {
  }

  lemma WalkedNext(a: Space, b: Space, c: Space, root: int, vpn: int, level: int)
    requires Walked(a, b, root, vpn, level) && 1 <= level <= 2 && c.F()(OnPath(root, vpn, level - 1)) != 0
    requires forall s: Spot :: s != OnPath(root, vpn, level - 1) ==> c.F()(s) == b.F()(s)
    ensures Walked(a, c, root, vpn, level - 1)
  {
    assert Settled(true);
  }

  lemma WalkedSpread(a: Space, b: Space, root: int, vpn: int)
    requires Walked(a, b, root, vpn, 0)
    ensures Spread(a, b, root, vpn, 1)
  {
    assert Settled(true);
    PathsNext(root, vpn, 0);
  }

  class Vm {
    const pool: Pool
    var pt: Tables // contents of the pages in use as page tables
    var mem: map<int, seq<Byte>> // contents of the other pages
    ghost var roots: set<int> // the page tables: their root pages
    ghost var owner: map<int, Spot>
    ghost var held: set<int>

    ghost function A(): Space
      reads this
    {
      Space(pt, roots, owner)
    }

    ghost predicate Filled()
      reads this`mem
    {
      forall p :: pool.lo <= p < pool.hi ==> p in mem && |mem[p]| == 4096
    }

    ghost predicate Valid()
      reads this, pool
    {
      forall x {:trigger Opened(x)} :: Opened(x) ==>
        pool.Valid() && A().Ok() && Partition(pool.lo, pool.hi, owner, pool.free, held)
    }

    constructor (pool: Pool, mem: map<int, seq<Byte>>)
      requires forall p :: pool.lo <= p < pool.hi ==> p in mem && |mem[p]| == 4096
      requires pool.Valid() && forall p :: p in pool.free <==> pool.lo <= p < pool.hi
      ensures Valid() && Filled() && this.pool == pool && roots == {} && held == {} && owner == map[]
    {
      this.pool := pool;
      this.mem := mem;
      pt, roots, owner, held := map[], {}, map[], {};
    }

    /** kalloc for a use other than as a page table. */
    method Kalloc() returns (p: int)
      requires Valid()
      modifies this`held, pool
      ensures Valid()
      ensures p == 0 ==> held == old(held) && pool.free == old(pool.free) == []
      ensures p != 0 ==> held == old(held) + {p} && p !in old(held) && p !in owner && p > 0
      ensures p != 0 ==> pool.lo <= p < pool.hi && old(pool.free) == [p] + pool.free
    {
      assert Opened(true);
      if pool.free != [] {
        PartitionHold(pool.lo, pool.hi, owner, pool.free, held);
      }
      p := pool.Kalloc();
      if p != 0 {
        held := held + {p};
      }
    }

    /** kfree of a page that the kernel holds. */
    method Kfree(p: int)
      requires Valid() && p in held
      modifies this`held, pool
      ensures Valid() && held == old(held) - {p} && pool.free == [p] + old(pool.free)
    {
      assert Opened(true);
      var panic := pool.Kfree(p);
      held := held - {p};
    }

    /** One turn of the loop of walk at entry i of table t: the next table, made if alloc, else 0. */
    method WalkStep(ghost u: Spot, t: int, i: int, alloc: bool) returns (c: int)
      requires Valid() && At(A(), u, t) && u.level > 0 && 0 <= i < 512
      modifies this`pt, this`owner, pool
      ensures Valid() && Grown(old(A()), A(), u.root) && |pool.free| <= old(|pool.free|)
      ensures c == A().F()(Down(u, i)) && (old(A()).F()(Down(u, i)) != 0 ==> c != 0)
      ensures c == 0 ==> A() == old(A()) && (alloc ==> pool.free == old(pool.free) == [])
      ensures c != 0 && alloc ==> old(|pool.free|) - |pool.free| == if old(A()).F()(Down(u, i)) == 0 then 1 else 0
      ensures forall s: Spot :: s != Down(u, i) ==> A().F()(s) == old(A()).F()(s)
      ensures !alloc ==> A() == old(A()) && pool.free == old(pool.free)
    {
      assert Opened(true);
      AtTable(A(), u, t);
      DownUp(u, i, Down(u, i));
      var e := pt[t][i];
      if e.v {
        assert !e.perm.Leaf(); // the early return for a leaf above level 0 is never taken
        c := e.ppn;
      } else {
        EmptyBelow(A(), u, t, i);
        if !alloc {
          return 0;
        }
        c := MakeTable(u, t, i);
      }
    }

    /** A new table for the empty entry i of table t, or 0 if there is no page. */
    method MakeTable(ghost u: Spot, t: int, i: int) returns (c: int)
      requires Valid() && At(A(), u, t) && u.level > 0 && 0 <= i < 512 && t in pt && |pt[t]| == 512 && !pt[t][i].v
      modifies this`pt, this`owner, pool
      ensures Valid() && Grown(old(A()), A(), u.root)
      ensures c == 0 <==> old(pool.free) == []
      ensures c == 0 ==> A() == old(A()) && pool.free == []
      ensures c != 0 ==> |pool.free| == old(|pool.free|) - 1 && A().F()(Down(u, i)) == c
      ensures forall s: Spot :: s != Down(u, i) ==> A().F()(s) == old(A()).F()(s)
    {
      assert Opened(true);
      if pool.free != [] {
        PartitionOwn(pool.lo, pool.hi, owner, pool.free, held, Down(u, i));
      }
      c := pool.Kalloc();
      if c == 0 {
        return;
      }
      TableGrown(A(), u, t, i, c);
      pt := pt[t := pt[t][i := Pte(true, TABLE, c)]][c := ZeroTable()];
      owner := owner[c := Down(u, i)];
      assert A() == WithTable(old(A()), u, t, i, c);
    }

    lemma RootAt(root: int)
      requires Valid() && root in roots
      ensures At(A(), Spot(root, 2, 0), root)
    {
      assert Opened(true);
    }

    lemma TablesPositive(s: Spot)
      requires Valid()
      ensures A().F()(s) >= 0
    {
      assert Opened(true);
    }

    /** walk: the level-0 table that holds the entry of vpn, or 0; -1 stands for the panic beyond MAXVA.
        The entry is at index vpn % 512. Missing tables are made if alloc, as long as there are pages. */
    method Walk(root: int, vpn: int, alloc: bool) returns (t: int)
      requires Valid() && root in roots && 0 <= vpn
      modifies this`pt, this`owner, pool
      ensures t == -1 <==> vpn >= MAXVPN
      ensures t == -1 ==> A() == old(A()) && pool.free == old(pool.free)
      ensures Valid() && Grown(old(A()), A(), root) && |pool.free| <= old(|pool.free|)
      ensures vpn < MAXVPN ==> t == A().F()(Spot(root, 0, vpn / 512))
      ensures alloc && vpn < MAXVPN ==> (t == 0 <==> old(|pool.free|) < Missing(old(A()), root, vpn))
      ensures alloc && t > 0 ==> |pool.free| == old(|pool.free|) - Missing(old(A()), root, vpn)
      ensures t > 0 ==> Spread(old(A()), A(), root, vpn, 1)
      ensures !alloc ==> A() == old(A()) && pool.free == old(pool.free)
    {
      if vpn >= MAXVPN {
        return -1;
      }
      RootAt(root);
      TablesPositive(Spot(root, 2, 0));
      t := root;
      var level := 2;
      WalkedStart(A(), root, vpn);
      while level > 0
        invariant 0 <= level <= 2
        invariant Valid() && Grown(old(A()), A(), root) && |pool.free| <= old(|pool.free|)
        invariant !alloc ==> A() == old(A()) && pool.free == old(pool.free)
        invariant At(A(), OnPath(root, vpn, level), t) && Walked(old(A()), A(), root, vpn, level)
        invariant alloc ==> |pool.free| == old(|pool.free|) - Made(old(A()), root, vpn, level)
        invariant t > 0 && (level > 0 ==> SameAt(old(A()), A(), OnPath(root, vpn, level - 1)))
        invariant level > 1 ==> SameAt(old(A()), A(), OnPath(root, vpn, 0))
      {
        t := WalkNext(old(A()), old(|pool.free|), root, vpn, t, level, alloc);
        level := level - 1;
        TablesPositive(OnPath(root, vpn, level));
        if t == 0 {
          PathEnds(A(), root, vpn, level);
          return;
        }
      }
      WalkedSpread(old(A()), A(), root, vpn);
    }

    /** One turn of the loop of walk. */
    method WalkNext(ghost a0: Space, ghost n0: nat, root: int, vpn: int, t: int, level: int, alloc: bool) returns (c: int)
      requires Valid() && 0 <= vpn < MAXVPN && 1 <= level <= 2 && At(A(), OnPath(root, vpn, level), t)
      requires Grown(a0, A(), root) && (alloc ==> |pool.free| == n0 - Made(a0, root, vpn, level))
      requires Walked(a0, A(), root, vpn, level)
      requires SameAt(a0, A(), OnPath(root, vpn, level - 1)) && (level > 1 ==> SameAt(a0, A(), OnPath(root, vpn, 0)))
      modifies this`pt, this`owner, pool
      ensures Valid() && Grown(a0, A(), root) && |pool.free| <= old(|pool.free|)
      ensures !alloc ==> A() == old(A()) && pool.free == old(pool.free)
      ensures c == A().F()(OnPath(root, vpn, level - 1))
      ensures c != 0 ==> At(A(), OnPath(root, vpn, level - 1), c) && (alloc ==> |pool.free| == n0 - Made(a0, root, vpn, level - 1))
      ensures c == 0 && alloc ==> n0 < Made(a0, root, vpn, level - 1)
      ensures level > 1 ==> SameAt(a0, A(), OnPath(root, vpn, 0))
      ensures c != 0 ==> Walked(a0, A(), root, vpn, level - 1)
    {
      PathDown(root, vpn, level);
      ghost var a := A();
      c := WalkStep(OnPath(root, vpn, level), t, Px(level, vpn), alloc);
      GrownTwice(a0, a, A(), root);
      if c != 0 {
        WalkedNext(a0, a, A(), root, vpn, level);
      }
    }

    /** *pte is the entry of the flat map. */
    lemma EntryOf(root: int, vpn: int, t: int)
      requires Valid() && 0 <= vpn < MAXVPN && t == A().F()(Spot(root, 0, vpn / 512))
      ensures t == 0 ==> Flat(pt, roots, root, vpn) == NONE
      ensures t != 0 ==> t in pt && |pt[t]| == 512 && Flat(pt, roots, root, vpn) == pt[t][vpn % 512]
    {
      assert Opened(true);
      FlatAt(A(), root, vpn, t);
    }

    /** The page may be mapped at vpn: user pages come from the kernel's hands, and the two pages on
        top of the address space stay there (or lie outside the pool, like the trampoline). */
    ghost predicate Lendable(vpn: int, ppn: int)
      reads this
    {
      ppn > 0 && (vpn < TRAPFRAME ==> ppn in held) && (ppn in held || !(pool.lo <= ppn < pool.hi))
    }

    ghost predicate LendableRun(vpn: int, n: int, ppn: int)
      reads this
    {
      && ppn > 0
      && forall p :: ppn <= p < ppn + n ==>
           && (vpn + (p - ppn) < TRAPFRAME ==> p in held)
           && (p in held || !(pool.lo <= p < pool.hi))
    }

    /** *pte = PA2PTE(pa) | perm | PTE_V at entry i of the level-0 table t. */
    method SetEntry(ghost u: Spot, t: int, i: int, e: Pte, ghost g: int -> Pte)
      requires Valid() && LeafFits(A(), u, t, i, e) && g(Vpn(u, i)) == e && Lendable(Vpn(u, i), e.ppn)
      modifies this`pt, this`owner, this`held
      ensures Valid() && Rewired(old(A()), A(), u.root, Vpn(u, i), 1, g)
      ensures held == if Vpn(u, i) < TRAPFRAME then old(held) - {e.ppn} else old(held)
      ensures forall s: Spot :: s.level >= 0 ==> A().F()(s) == old(A()).F()(s)
    {
      LeafSet(A(), u, t, i, e, g);
      pt := pt[t := pt[t][i := e]];
      if Vpn(u, i) < TRAPFRAME {
        owner, held := owner[e.ppn := Down(u, i)], held - {e.ppn};
      }
      assert A() == WithLeaf(old(A()), u, t, i, e);
    }

    lemma MayMap(root: int, vpn: int, t: int, e: Pte)
      requires Valid() && 0 <= vpn < MAXVPN && Lendable(vpn, e.ppn) && e.v && e.perm.Leaf() && (e.perm.u ==> vpn < TRAPFRAME)
      requires 0 != t == A().F()(Spot(root, 0, vpn / 512)) && !Flat(pt, roots, root, vpn).v
      ensures Vpn(Spot(root, 0, vpn / 512), vpn % 512) == vpn
      ensures t in pt && |pt[t]| == 512 && LeafFits(A(), Spot(root, 0, vpn / 512), t, vpn % 512, e)
    {
      assert Opened(true);
      FlatAt(A(), root, vpn, t);
    }

    /** One turn of the loop of mappages. */
    method MapOne(root: int, vpn: int, ppn: int, perm: Perm, ghost g: int -> Pte) returns (r: Outcome)
      requires Valid() && root in roots && 0 <= vpn < MAXVPN && Lendable(vpn, ppn) && g(vpn) == Pte(true, perm, ppn)
      requires perm.Leaf() && (perm.u ==> vpn < TRAPFRAME)
      modifies this`pt, this`owner, this`held, pool
      ensures Valid() && |pool.free| <= old(|pool.free|)
      ensures r == Panic <==> Flat(old(pt), old(roots), root, vpn).v
      ensures r == NoMemory <==> old(|pool.free|) < Missing(old(A()), root, vpn)
      ensures r != NoMemory ==> |pool.free| == old(|pool.free|) - Missing(old(A()), root, vpn)
      ensures r != Done ==> Grown(old(A()), A(), root) && held == old(held)
      ensures r == Done ==> Rewired(old(A()), A(), root, vpn, 1, g) && Spread(old(A()), A(), root, vpn, 1)
      ensures r == Done ==> held == if vpn < TRAPFRAME then old(held) - {ppn} else old(held)
    {
      var t := Walk(root, vpn, true);
      ghost var a := A();
      TablesPositive(Spot(root, 0, vpn / 512));
      EntryOf(root, vpn, t);
      assert Flat(a.pt, a.roots, root, vpn) == Flat(old(pt), old(roots), root, vpn);
      if t == 0 {
        return NoMemory;
      }
      if pt[t][vpn % 512].v {
        return Panic;
      }
      MayMap(root, vpn, t, Pte(true, perm, ppn));
      SetEntry(Spot(root, 0, vpn / 512), t, vpn % 512, Pte(true, perm, ppn), g);
      GrownRewired(old(A()), a, A(), root, vpn, 1, g);
      SpreadSame(old(A()), a, A(), root, vpn, 1);
      return Done;
    }

    /** mappages: k of the n pages get mapped; all of them unless memory runs out, or it panics because n
        is 0, an address lies beyond MAXVA or a page is mapped already. */
    method MapPages(root: int, vpn: int, n: nat, ppn: int, perm: Perm) returns (r: Outcome, ghost k: int)
      requires Valid() && root in roots && 0 <= vpn
      requires perm.Leaf() && (perm.u ==> vpn + n <= TRAPFRAME)
      requires LendableRun(vpn, n, ppn)
      modifies this`pt, this`owner, this`held, pool
      ensures Valid() && |pool.free| <= old(|pool.free|)
      ensures 0 <= k <= n && (r == Done <==> k == n > 0)
      ensures Rewired(old(A()), A(), root, vpn, k, Linear(vpn, ppn, perm)) && Handed(old(held), held, vpn, ppn, k)
      ensures Vacant(old(A()), root, vpn, k)
      ensures r == Panic ==> n == 0 || vpn + k >= MAXVPN || Flat(old(pt), old(roots), root, vpn + k).v
      ensures r == NoMemory ==> vpn + k < MAXVPN && !Flat(old(pt), old(roots), root, vpn + k).v
      ensures r == Done ==> |pool.free| == old(|pool.free|) - |MissingTables(old(A()), root, vpn, n)|
      ensures r == NoMemory ==> k < n && old(|pool.free|) < |MissingTables(old(A()), root, vpn, k + 1)|
      ensures r == Panic ==> old(|pool.free|) >= |MissingTables(old(A()), root, vpn, k)|
      ensures r == Done ==> Spread(old(A()), A(), root, vpn, n)
    {
      k := 0;
      if n == 0 {
        MapNothing(A(), held, root, vpn, ppn, Linear(vpn, ppn, perm));
        SpreadNone(A(), root, vpn);
        ProgressIs(A(), A(), held, held, root, vpn, 0, ppn, Linear(vpn, ppn, perm));
        return Panic, 0;
      }
      r, k := MapRun(root, vpn, n, ppn, perm);
      ProgressIs(old(A()), A(), old(held), held, root, vpn, k, ppn, Linear(vpn, ppn, perm));
      if r == Done {
        CountedIs(old(A()), A(), root, vpn, n, old(|pool.free|), |pool.free|);
      } else {
        TooFewIs(old(A()), root, vpn, if r == Panic then k else k + 1, old(|pool.free|));
      }
    }

    /** What one page misses, and that a page that is mapped misses nothing. */
    lemma OneMissing(root: int, vpn: int)
      requires Valid() && 0 <= vpn
      ensures |MissingTables(A(), root, vpn, 1)| == Missing(A(), root, vpn)
      ensures vpn < MAXVPN && Flat(pt, roots, root, vpn).v ==> Missing(A(), root, vpn) == 0
    {
      SpreadNone(A(), root, vpn);
      MissingNext(A(), A(), root, vpn, 0);
      if vpn < MAXVPN && Flat(pt, roots, root, vpn).v {
        assert Opened(true);
        NothingMissing(A(), root, vpn);
      }
    }

    /** The loop of mappages. */
    method MapRun(root: int, vpn: int, n: nat, ppn: int, perm: Perm) returns (r: Outcome, ghost k: int)
      requires Valid() && root in roots && 0 <= vpn && n > 0
      requires perm.Leaf() && (perm.u ==> vpn + n <= TRAPFRAME)
      requires LendableRun(vpn, n, ppn)
      modifies this`pt, this`owner, this`held, pool
      ensures Valid() && |pool.free| <= old(|pool.free|)
      ensures 0 <= k <= n && (r == Done <==> k == n)
      ensures Progress(old(A()), A(), old(held), held, root, vpn, k, ppn, Linear(vpn, ppn, perm))
      ensures r == Panic ==> vpn + k >= MAXVPN || Flat(old(pt), old(roots), root, vpn + k).v
      ensures r == NoMemory ==> vpn + k < MAXVPN && !Flat(old(pt), old(roots), root, vpn + k).v
      ensures r == Done ==> Counted(old(A()), A(), root, vpn, n, old(|pool.free|), |pool.free|)
      ensures r == NoMemory ==> k < n && TooFew(old(A()), root, vpn, k + 1, old(|pool.free|))
      ensures r == Panic ==> !TooFew(old(A()), root, vpn, k, old(|pool.free|))
    {
      k := 0;
      var a, pa := vpn, ppn;
      ghost var g := Linear(vpn, ppn, perm);
      MapNothing(A(), held, root, vpn, ppn, g);
      CountedNone(A(), root, vpn, |pool.free|);
      while true
        invariant 0 <= k < n && a == vpn + k && pa == ppn + k
        invariant Valid() && |pool.free| <= old(|pool.free|) && LendableRun(a, n - k, pa)
        invariant Counted(old(A()), A(), root, vpn, k, old(|pool.free|), |pool.free|)
        invariant Progress(old(A()), A(), old(held), held, root, vpn, k, ppn, g)
        decreases n - k
      {
        if a >= MAXVPN {
          CountedEnough(old(A()), A(), root, vpn, k, old(|pool.free|), |pool.free|);
          return Panic, k;
        }
        r := MapCounted(old(A()), old(held), old(|pool.free|), root, vpn, k, n, ppn, a, pa, perm, g);
        if r != Done {
          return;
        }
        k := k + 1;
        if a == vpn + n - 1 {
          break;
        }
        a, pa := a + 1, pa + 1;
      }
    }

    /** One turn of the loop of mappages, with its count of free pages. */
    method MapCounted(ghost a0: Space, ghost h0: set<int>, ghost f0: nat, root: int, ghost vpn: int, ghost k: nat, ghost n: int, ghost ppn: int,
                      v: int, p: int, perm: Perm, ghost g: int -> Pte) returns (r: Outcome)
      requires Valid() && root in roots && 0 <= vpn && v == vpn + k && p == ppn + k && k < n && v < MAXVPN
      requires perm.Leaf() && (perm.u ==> vpn + n <= TRAPFRAME) && g(v) == Pte(true, perm, p)
      requires LendableRun(v, n - k, p) && Progress(a0, A(), h0, held, root, vpn, k, ppn, g)
      requires Counted(a0, A(), root, vpn, k, f0, |pool.free|)
      modifies this`pt, this`owner, this`held, pool
      ensures Valid() && |pool.free| <= old(|pool.free|)
      ensures Progress(a0, A(), h0, held, root, vpn, if r == Done then k + 1 else k, ppn, g)
      ensures r == Done ==> LendableRun(v + 1, n - k - 1, p + 1) && Counted(a0, A(), root, vpn, k + 1, f0, |pool.free|)
      ensures r == Panic <==> Flat(a0.pt, a0.roots, root, v).v
      ensures r == NoMemory ==> TooFew(a0, root, vpn, k + 1, f0)
      ensures !TooFew(a0, root, vpn, k, f0)
    {
      ghost var b, f := A(), |pool.free|;
      CountedEnough(a0, b, root, vpn, k, f0, f);
      r := MapNext(a0, h0, root, vpn, k, n, ppn, v, p, perm, g);
      if r == NoMemory {
        CountedFew(a0, b, root, vpn, k, f0, f);
      } else if r == Done {
        CountedNext(a0, b, A(), root, vpn, k, f0, f, |pool.free|);
      }
    }

    method MapNext(ghost a0: Space, ghost h0: set<int>, root: int, ghost vpn: int, ghost k: nat, ghost n: int, ghost ppn: int,
                   v: int, p: int, perm: Perm, ghost g: int -> Pte) returns (r: Outcome)
      requires Valid() && root in roots && 0 <= vpn && v == vpn + k && p == ppn + k && k < n && v < MAXVPN
      requires perm.Leaf() && (perm.u ==> vpn + n <= TRAPFRAME) && g(v) == Pte(true, perm, p)
      requires LendableRun(v, n - k, p) && Progress(a0, A(), h0, held, root, vpn, k, ppn, g)
      modifies this`pt, this`owner, this`held, pool
      ensures Valid() && |pool.free| <= old(|pool.free|)
      ensures Progress(a0, A(), h0, held, root, vpn, if r == Done then k + 1 else k, ppn, g)
      ensures r == Done ==> LendableRun(v + 1, n - k - 1, p + 1) && Spread(old(A()), A(), root, v, 1)
      ensures r == Panic <==> Flat(a0.pt, a0.roots, root, v).v
      ensures r == NoMemory <==> old(|pool.free|) < Missing(old(A()), root, v)
      ensures r != NoMemory ==> |pool.free| == old(|pool.free|) - Missing(old(A()), root, v)
    {
      ghost var b, h := A(), held;
      ProgressAt(a0, b, h0, h, root, vpn, k, ppn, g);
      r := MapOne(root, v, p, perm, g);
      if r != Done {
        ProgressSame(a0, b, A(), h0, h, root, vpn, k, ppn, g);
      } else {
        ProgressNext(a0, b, A(), h0, h, held, root, vpn, k, ppn, g);
      }
    }

    /** *pte = 0 at entry i of the level-0 table t, after kfree of the page if doFree. */
    method ClearEntry(ghost u: Spot, t: int, i: int, doFree: bool)
      requires Valid() && LeafThere(A(), u, t, i) && (doFree ==> Vpn(u, i) < TRAPFRAME)
      modifies this`pt, this`owner, this`held, pool
      ensures Valid() && Rewired(old(A()), A(), u.root, Vpn(u, i), 1, Nothing())
      ensures t in old(pt) && |old(pt)[t]| == 512
      ensures pool.free == if doFree then [old(pt)[t][i].ppn] + old(pool.free) else old(pool.free)
      ensures held == if !doFree && Vpn(u, i) < TRAPFRAME then old(held) + {old(pt)[t][i].ppn} else old(held)
    {
      LeafCleared(A(), u, t, i);
      ghost var page := pt[t][i].ppn;
      assert Opened(true);
      if Vpn(u, i) < TRAPFRAME {
        PartitionDrop(pool.lo, pool.hi, owner, pool.free, held, page);
      }
      if doFree {
        var panic := pool.Kfree(pt[t][i].ppn);
      } else if Vpn(u, i) < TRAPFRAME {
        held := held + {page};
      }
      pt := pt[t := pt[t][i := NONE]];
      if Vpn(u, i) < TRAPFRAME {
        owner := owner - {page};
      }
      assert A() == WithoutLeaf(old(A()), u, t, i);
    }

    /** One turn of the loop of uvmunmap; it panics exactly when the page is not mapped. */
    method UnmapOne(root: int, vpn: int, doFree: bool) returns (panic: bool)
      requires Valid() && root in roots && 0 <= vpn < MAXVPN && (doFree ==> vpn < TRAPFRAME)
      modifies this`pt, this`owner, this`held, pool
      ensures Valid()
      ensures panic <==> !Flat(old(pt), old(roots), root, vpn).v
      ensures panic ==> A() == old(A()) && pool.free == old(pool.free) && held == old(held)
      ensures !panic ==> Rewired(old(A()), A(), root, vpn, 1, Nothing())
      ensures !panic ==> pool.free == (if doFree then [Flat(old(pt), old(roots), root, vpn).ppn] else []) + old(pool.free)
      ensures !panic ==> held == old(held) + (if !doFree && vpn < TRAPFRAME then {Flat(old(pt), old(roots), root, vpn).ppn} else {})
    {
      var t := Walk(root, vpn, false);
      EntryOf(root, vpn, t);
      if t == 0 {
        return true;
      }
      if !pt[t][vpn % 512].v {
        return true;
      }
      MayUnmap(root, vpn, t);
      ClearEntry(Spot(root, 0, vpn / 512), t, vpn % 512, doFree);
      return false;
    }

    lemma MayUnmap(root: int, vpn: int, t: int)
      requires Valid() && 0 <= vpn < MAXVPN && 0 != t == A().F()(Spot(root, 0, vpn / 512)) && Flat(pt, roots, root, vpn).v
      ensures Vpn(Spot(root, 0, vpn / 512), vpn % 512) == vpn && LeafThere(A(), Spot(root, 0, vpn / 512), t, vpn % 512)
    {
      assert Opened(true);
      FlatAt(A(), root, vpn, t);
    }

    /** uvmcreate: an address space with nothing in it, or 0. */
    method UvmCreate() returns (root: int)
      requires Valid()
      modifies this`pt, this`roots, this`owner, pool
      ensures Valid()
      ensures root == 0 ==> A() == old(A()) && pool.free == old(pool.free) == []
      ensures root != 0 ==> root > 0 && root !in old(owner) && roots == old(roots) + {root} && owner == old(owner)[root := Spot(root, 2, 0)]
      ensures root != 0 ==> |pool.free| == old(|pool.free|) - 1
      ensures root != 0 ==> forall r, v :: Flat(pt, roots, r, v) == Flat(old(pt), old(roots), r, v)
      ensures root != 0 ==> forall v :: Flat(pt, roots, root, v) == NONE
    {
      assert Opened(true);
      if pool.free != [] {
        PartitionOwn(pool.lo, pool.hi, owner, pool.free, held, Spot(pool.free[0], 2, 0));
      }
      root := pool.Kalloc();
      if root != 0 {
        RootsOwned(A());
        WithRootOk(A(), root);
        forall r, v
          ensures Flat(WithRoot(old(A()), root).pt, WithRoot(old(A()), root).roots, r, v) == Flat(old(pt), old(roots), r, v)
          ensures r == root ==> Flat(old(pt), old(roots), r, v) == NONE
        {
          WithRootFlat(old(A()), root, r, v);
        }
        pt, roots, owner := pt[root := ZeroTable()], roots + {root}, owner[root := Spot(root, 2, 0)];
        assert A() == WithRoot(old(A()), root);
      }
    }
  }
}
