/** Copying between kernel and user memory: walkaddr, copyout and copyin of kernel/vm.c.
    User memory is described byte by byte, by virtual address. */
module UserCopy {
  import opened Guards
  import opened PageTree
  import opened PageTables
  import opened UserMemory

  type Memory = map<int, seq<Byte>>

  /** Whether a user page is mapped at the address; the byte there. */
  ghost predicate HasByte(a: Space, m: Memory, r: int, va: int) {
    && 0 <= va && va / 4096 < TRAPFRAME
    && var e := Flat(a.pt, a.roots, r, va / 4096); e.v && e.ppn in m && |m[e.ppn]| == 4096
  }

  ghost function UserByte(a: Space, m: Memory, r: int, va: int): Byte
    requires HasByte(a, m, r, va)
  {
    m[Flat(a.pt, a.roots, r, va / 4096).ppn][va % 4096]
  }

  /** walkaddr finds the page. */
  ghost predicate Readable(a: Space, root: int, vpn: int) {
    vpn < MAXVPN && Flat(a.pt, a.roots, root, vpn).v && Flat(a.pt, a.roots, root, vpn).perm.u
  }

  ghost predicate Writable(a: Space, root: int, vpn: int) {
    Readable(a, root, vpn) && Flat(a.pt, a.roots, root, vpn).perm.w
  }

  /** The bytes from va on have become src; every other byte of every address space is as it was. */
  ghost predicate Poked(a: Space, m0: Memory, m1: Memory, root: int, va: int, src: seq<Byte>) {
    forall r, b :: HasByte(a, m0, r, b) ==>
      && HasByte(a, m1, r, b)
      && UserByte(a, m1, r, b) == if r == root && va <= b < va + |src| then src[b - va] else UserByte(a, m0, r, b)
  }

  /** The bytes from va on are s. */
  ghost predicate Peeked(a: Space, m: Memory, root: int, va: int, s: seq<Byte>) {
    forall b :: va <= b < va + |s| ==> HasByte(a, m, root, b) && UserByte(a, m, root, b) == s[b - va]
  }

  /** What copyout wrote, copyin reads back. */
  lemma OutThenIn(a: Space, m0: Memory, m1: Memory, root: int, va: int, src: seq<Byte>, got: seq<Byte>)
    requires Poked(a, m0, m1, root, va, src) && Peeked(a, m1, root, va, got) && |got| == |src|
    requires forall b :: va <= b < va + |src| ==> HasByte(a, m0, root, b)
    ensures got == src
  {
    forall i | 0 <= i < |src|
      ensures got[i] == src[i]
    {
      assert HasByte(a, m0, root, va + i);
    }
  }

  function Splice(page: seq<Byte>, off: nat, s: seq<Byte>): (r: seq<Byte>)
    requires off + |s| <= |page|
    ensures |r| == |page|
    ensures forall i :: 0 <= i < |r| ==> r[i] == if off <= i < off + |s| then s[i - off] else page[i]
  {
    page[..off] + s + page[off + |s|..]
  }

  /** memmove into one user page changes the bytes of that page of that address space only. */
  lemma PokePage(a: Space, m: Memory, root: int, vpn: int, off: nat, s: seq<Byte>)
    requires a.Ok() && 0 <= vpn < TRAPFRAME && Flat(a.pt, a.roots, root, vpn).v
    requires Flat(a.pt, a.roots, root, vpn).ppn in m && |m[Flat(a.pt, a.roots, root, vpn).ppn]| == 4096 && off + |s| <= 4096
    ensures var p := Flat(a.pt, a.roots, root, vpn).ppn;
            Poked(a, m, m[p := Splice(m[p], off, s)], root, vpn * 4096 + off, s)
  {
    var p := Flat(a.pt, a.roots, root, vpn).ppn;
    var m1 := m[p := Splice(m[p], off, s)];
    forall r, b | HasByte(a, m, r, b)
      ensures HasByte(a, m1, r, b)
      ensures UserByte(a, m1, r, b)
           == if r == root && vpn * 4096 + off <= b < vpn * 4096 + off + |s| then s[b - (vpn * 4096 + off)] else UserByte(a, m, r, b)
    {
      if vpn * 4096 <= b < vpn * 4096 + 4096 {
        PageByte(vpn, b - vpn * 4096);
      }
      if Flat(a.pt, a.roots, r, b / 4096).ppn == p {
        NoSharing(a, root, vpn, r, b / 4096);
      }
    }
  }

  lemma PokedTwice(a: Space, m0: Memory, m1: Memory, m2: Memory, root: int, va: int, s: seq<Byte>, t: seq<Byte>)
    requires Poked(a, m0, m1, root, va, s) && Poked(a, m1, m2, root, va + |s|, t)
    ensures Poked(a, m0, m2, root, va, s + t)
  {
    forall r, b | HasByte(a, m0, r, b)
      ensures HasByte(a, m2, r, b)
      ensures UserByte(a, m2, r, b) == if r == root && va <= b < va + |s + t| then (s + t)[b - va] else UserByte(a, m0, r, b)
    {
      assert HasByte(a, m1, r, b);
    }
  }

  lemma PeekedTwice(a: Space, m: Memory, root: int, va: int, s: seq<Byte>, t: seq<Byte>)
    requires Peeked(a, m, root, va, s) && Peeked(a, m, root, va + |s|, t)
    ensures Peeked(a, m, root, va, s + t)
  {
  }

  lemma PeekPage(a: Space, m: Memory, root: int, vpn: int, off: nat, n: nat)
    requires 0 <= vpn < TRAPFRAME && Flat(a.pt, a.roots, root, vpn).v && off + n <= 4096
    requires Flat(a.pt, a.roots, root, vpn).ppn in m && |m[Flat(a.pt, a.roots, root, vpn).ppn]| == 4096
    ensures Peeked(a, m, root, vpn * 4096 + off, m[Flat(a.pt, a.roots, root, vpn).ppn][off..off + n])
  {
    forall b | vpn * 4096 + off <= b < vpn * 4096 + off + n
      ensures b / 4096 == vpn && b % 4096 == b - vpn * 4096
    {
      PageByte(vpn, b - vpn * 4096);
    }
  }

  /** The byte at i of page vpn. */
  lemma PageByte(vpn: int, i: int)
    requires 0 <= i < 4096
    ensures (vpn * 4096 + i) / 4096 == vpn && (vpn * 4096 + i) % 4096 == i
  {
  }

  /** All pages of the first k bytes from va on are good. */
  ghost predicate Usable(va: int, k: int, good: int -> bool) {
    forall b :: va <= b < va + k ==> good(b / 4096)
  }

  /** Where a loop over the pages stopped: all pages so far could be used, and the next one only if all is done. */
  ghost predicate Stopped(va: int, k: int, len: int, good: int -> bool, done: bool) {
    && 0 <= k <= len && (done <==> k == len)
    && Usable(va, k, good)
    && (!done ==> !good((va + k) / 4096))
  }

  /** The page number returned by walkaddr, or 0. Only user pages have the U flag, so a page found
      lies in the pool and in no other place of user memory. */
  method WalkAddr(vm: Vm, root: int, vpn: nat) returns (p: int)
    requires vm.Valid() && root in vm.roots
    modifies vm`pt, vm`owner, vm.pool
    ensures vm.Valid() && vm.A() == old(vm.A()) && vm.pool.free == old(vm.pool.free)
    ensures p != 0 <==> Readable(vm.A(), root, vpn)
    ensures p != 0 ==> vpn < TRAPFRAME && p == Flat(vm.pt, vm.roots, root, vpn).ppn && vm.pool.lo <= p < vm.pool.hi
  {
    if vpn >= MAXVPN {
      return 0;
    }
    var e := Lookup(vm, root, vpn);
    if !e.v || !e.perm.u {
      return 0;
    }
    UserFlag(vm, root, vpn);
    return e.ppn;
  }

  lemma UserFlag(vm: Vm, root: int, vpn: nat)
    requires vm.Valid() && vpn < MAXVPN && Readable(vm.A(), root, vpn)
    ensures vpn < TRAPFRAME && Flat(vm.pt, vm.roots, root, vpn).ppn != 0
    ensures vm.pool.lo <= Flat(vm.pt, vm.roots, root, vpn).ppn < vm.pool.hi
  {
    assert Opened(true);
    var t := vm.A().F()(Spot(root, 0, vpn / 512));
    FlatAt(vm.A(), root, vpn, t);
    assert vm.pt[t][vpn % 512].v;
    assert Down(vm.owner[t], vpn % 512) == Spot(root, -1, vpn);
    LeafOwned(vm.A(), root, vpn);
  }

  /** The bytes of one page that a copy of len bytes at va covers. */
  function Within(va: nat, len: nat): nat {
    if 4096 - va % 4096 > len then len else 4096 - va % 4096
  }

  lemma StoppedNext(va: nat, k: nat, len: nat, good: int -> bool)
    requires k < len && good((va + k) / 4096) && Usable(va, k, good)
    ensures Usable(va, k + Within(va + k, len - k), good)
  {
    forall b | va <= b < va + k + Within(va + k, len - k)
      ensures good(b / 4096)
    {
      if b >= va + k {
        assert b / 4096 == (va + k) / 4096;
      }
    }
  }

  ghost function CanWrite(a: Space, root: int): int -> bool {
    (v: int) => Writable(a, root, v)
  }

  ghost function CanRead(a: Space, root: int): int -> bool {
    (v: int) => Readable(a, root, v)
  }

  /** One turn of copyout: the bytes that fall into the page of va. */
  method PutPage(vm: Vm, root: int, va: nat, src: seq<Byte>) returns (n: nat)
    requires vm.Valid() && vm.Filled() && root in vm.roots && |src| > 0
    modifies vm`pt, vm`owner, vm`mem, vm.pool
    ensures vm.Valid() && vm.Filled() && vm.A() == old(vm.A()) && vm.pool.free == old(vm.pool.free)
    ensures n == if Writable(vm.A(), root, va / 4096) then Within(va, |src|) else 0
    ensures Poked(vm.A(), old(vm.mem), vm.mem, root, va, src[..n])
  {
    var va0 := va / 4096;
    if va0 >= MAXVPN {
      return 0;
    }
    var e := Lookup(vm, root, va0);
    if !e.perm.w {
      return 0;
    }
    var pa0 := WalkAddr(vm, root, va0);
    if pa0 == 0 {
      return 0;
    }
    n := Within(va, |src|);
    PokeAt(vm, root, va0, va % 4096, pa0, src[..n]);
  }

  /** memmove into the user page. */
  method PokeAt(vm: Vm, root: int, vpn: nat, off: nat, p: int, s: seq<Byte>)
    requires vm.Valid() && vm.Filled() && vpn < TRAPFRAME && off + |s| <= 4096
    requires Flat(vm.pt, vm.roots, root, vpn).v && Flat(vm.pt, vm.roots, root, vpn).ppn == p && vm.pool.lo <= p < vm.pool.hi
    modifies vm`mem
    ensures vm.Valid() && vm.Filled()
    ensures Poked(vm.A(), old(vm.mem), vm.mem, root, vpn * 4096 + off, s)
  {
    assert vm.A().Ok() by {
      assert Opened(true);
    }
    PokePage(vm.A(), vm.mem, root, vpn, off, s);
    vm.mem := vm.mem[p := Splice(vm.mem[p], off, s)];
  }

  method PutNext(vm: Vm, ghost m0: Memory, root: int, dstva: nat, src: seq<Byte>, i: nat) returns (n: nat)
    requires vm.Valid() && vm.Filled() && root in vm.roots && i < |src|
    requires Usable(dstva, i, CanWrite(vm.A(), root)) && Poked(vm.A(), m0, vm.mem, root, dstva, src[..i])
    modifies vm`pt, vm`owner, vm`mem, vm.pool
    ensures vm.Valid() && vm.Filled() && vm.A() == old(vm.A()) && vm.pool.free == old(vm.pool.free)
    ensures n == 0 <==> !Writable(vm.A(), root, (dstva + i) / 4096)
    ensures i + n <= |src| && Usable(dstva, i + n, CanWrite(vm.A(), root)) && Poked(vm.A(), m0, vm.mem, root, dstva, src[..i + n])
  {
    ghost var m := vm.mem;
    n := PutPage(vm, root, dstva + i, src[i..]);
    if n != 0 {
      StoppedNext(dstva, i, |src|, CanWrite(vm.A(), root));
    }
    PokedTwice(vm.A(), m0, m, vm.mem, root, dstva, src[..i], src[i..][..n]);
    assert src[..i] + src[i..][..n] == src[..i + n];
  }

  /** copyout: bytes are written page by page, up to the first page that is not mapped for the user and writable. */
  method CopyOut(vm: Vm, root: int, dstva: nat, src: seq<Byte>) returns (ok: bool, ghost k: nat)
    requires vm.Valid() && vm.Filled() && root in vm.roots
    modifies vm`pt, vm`owner, vm`mem, vm.pool
    ensures vm.Valid() && vm.Filled() && vm.A() == old(vm.A()) && vm.pool.free == old(vm.pool.free)
    ensures Stopped(dstva, k, |src|, CanWrite(vm.A(), root), ok)
    ensures Poked(vm.A(), old(vm.mem), vm.mem, root, dstva, src[..k])
  {
    var i := 0;
    while i < |src|
      invariant 0 <= i <= |src| && vm.Valid() && vm.Filled() && vm.A() == old(vm.A()) && vm.pool.free == old(vm.pool.free)
      invariant Usable(dstva, i, CanWrite(vm.A(), root))
      invariant Poked(vm.A(), old(vm.mem), vm.mem, root, dstva, src[..i])
    {
      var n := PutNext(vm, old(vm.mem), root, dstva, src, i);
      if n == 0 {
        return false, i;
      }
      i := i + n;
    }
    return true, i;
  }

  /** One turn of copyin: the bytes that lie in the page of va; none if the user cannot access it. */
  method GetPage(vm: Vm, root: int, va: nat, len: nat) returns (s: seq<Byte>)
    requires vm.Valid() && vm.Filled() && root in vm.roots && len > 0
    modifies vm`pt, vm`owner, vm.pool
    ensures vm.Valid() && vm.A() == old(vm.A()) && vm.pool.free == old(vm.pool.free)
    ensures |s| == if Readable(vm.A(), root, va / 4096) then Within(va, len) else 0
    ensures Peeked(vm.A(), vm.mem, root, va, s)
  {
    var va0 := va / 4096;
    var pa0 := WalkAddr(vm, root, va0);
    if pa0 == 0 {
      return [];
    }
    var n := Within(va, len);
    PeekPage(vm.A(), vm.mem, root, va0, va % 4096, n);
    s := vm.mem[pa0][va % 4096..va % 4096 + n];
  }

  method GetNext(vm: Vm, root: int, srcva: nat, len: nat, was: seq<Byte>) returns (dst: seq<Byte>)
    requires vm.Valid() && vm.Filled() && root in vm.roots && |was| < len
    requires Usable(srcva, |was|, CanRead(vm.A(), root)) && Peeked(vm.A(), vm.mem, root, srcva, was)
    modifies vm`pt, vm`owner, vm.pool
    ensures vm.Valid() && vm.A() == old(vm.A()) && vm.pool.free == old(vm.pool.free)
    ensures |was| <= |dst| <= len && (|dst| == |was| <==> !Readable(vm.A(), root, (srcva + |was|) / 4096)) && (|dst| == |was| ==> dst == was)
    ensures Usable(srcva, |dst|, CanRead(vm.A(), root)) && Peeked(vm.A(), vm.mem, root, srcva, dst)
  {
    var s := GetPage(vm, root, srcva + |was|, len - |was|);
    if s == [] {
      return was;
    }
    StoppedNext(srcva, |was|, len, CanRead(vm.A(), root));
    PeekedTwice(vm.A(), vm.mem, root, srcva, was, s);
    dst := was + s;
  }

  /** copyin: the bytes up to the first page that the user cannot access; all of them on success. */
  method CopyIn(vm: Vm, root: int, srcva: nat, len: nat) returns (ok: bool, dst: seq<Byte>)
    requires vm.Valid() && vm.Filled() && root in vm.roots
    modifies vm`pt, vm`owner, vm.pool
    ensures vm.Valid() && vm.A() == old(vm.A()) && vm.pool.free == old(vm.pool.free)
    ensures Stopped(srcva, |dst|, len, CanRead(vm.A(), root), ok)
    ensures Peeked(vm.A(), vm.mem, root, srcva, dst)
  {
    dst := [];
    while |dst| < len
      invariant |dst| <= len && vm.Valid() && vm.A() == old(vm.A()) && vm.pool.free == old(vm.pool.free)
      invariant Usable(srcva, |dst|, CanRead(vm.A(), root))
      invariant Peeked(vm.A(), vm.mem, root, srcva, dst)
      decreases len - |dst|
    {
      var was := dst;
      dst := GetNext(vm, root, srcva, len, was);
      if dst == was {
        return false, dst;
      }
    }
    return true, dst;
  }

  lemma UsableBytes(vm: Vm, root: int, va: nat, n: nat)
    requires vm.Valid() && vm.Filled() && Usable(va, n, CanWrite(vm.A(), root))
    ensures forall b :: va <= b < va + n ==> HasByte(vm.A(), vm.mem, root, b)
  {
    forall b | va <= b < va + n
      ensures HasByte(vm.A(), vm.mem, root, b)
    {
      assert CanWrite(vm.A(), root)(b / 4096);
      UserFlag(vm, root, b / 4096);
    }
  }

  lemma UsableAlso(a: Space, root: int, va: nat, n: nat, k: nat)
    requires Usable(va, n, CanWrite(a, root)) && k < n
    ensures CanWrite(a, root)((va + k) / 4096) && CanRead(a, root)((va + k) / 4096)
  {
    assert CanWrite(a, root)((va + k) / 4096);
  }

  /** copyout and then copyin of the same range: the first succeeds exactly when all pages of the range
      are mapped for the user and writable, and then the second returns the bytes. */
  method CopyOutIn(vm: Vm, root: int, va: nat, src: seq<Byte>) returns (ok: bool, back: bool, dst: seq<Byte>)
    requires vm.Valid() && vm.Filled() && root in vm.roots
    modifies vm`pt, vm`owner, vm`mem, vm.pool
    ensures vm.Valid() && vm.A() == old(vm.A())
    ensures ok <==> Usable(va, |src|, CanWrite(vm.A(), root))
    ensures ok ==> back && dst == src
  {
    ghost var m0 := vm.mem;
    ghost var k;
    if Usable(va, |src|, CanWrite(vm.A(), root)) {
      UsableBytes(vm, root, va, |src|);
    }
    ok, k := CopyOut(vm, root, va, src);
    if !ok {
      NotUsable(vm.A(), root, va, |src|, k);
      return false, false, [];
    }
    assert src[..k] == src;
    ghost var m1 := vm.mem;
    back, dst := CopyIn(vm, root, va, |src|);
    if !back {
      UsableAlso(vm.A(), root, va, |src|, |dst|);
    }
    OutThenIn(vm.A(), m0, m1, root, va, src, dst);
  }

  lemma NotUsable(a: Space, root: int, va: nat, n: nat, k: nat)
    requires k < n && !CanWrite(a, root)((va + k) / 4096)
    ensures !Usable(va, n, CanWrite(a, root))
  {
    if Usable(va, n, CanWrite(a, root)) {
      UsableAlso(a, root, va, n, k);
    }
  }
}
