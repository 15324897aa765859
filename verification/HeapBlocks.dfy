/** The blocks of the user heap (user/umalloc.c) as values: an address-ordered free list, the live
    blocks, and which block each unit of memory belongs to. Addresses count units of one header. */
module HeapBlocks {
  import opened Guards

  /** Successor on a circular list of n elements. */
  function Succ(i: int, n: int): int {
    if i + 1 < n then i + 1 else 0
  }

  /** s.ptr links the elements of fl into a cycle. */
  ghost predicate Cycle(ptr: map<int, int>, fl: seq<int>) {
    && (forall i :: 0 <= i < |fl| ==> fl[i] in ptr)
    && (forall i {:trigger ptr[fl[i]]} :: 0 <= i < |fl| ==> ptr[fl[i]] == fl[Succ(i, |fl|)])
  }

  /** Increasing addresses; no two free blocks overlap or touch. */
  ghost predicate Apart(fl: seq<int>, size: map<int, int>) {
    && (forall i :: 0 <= i < |fl| ==> fl[i] in size)
    && (forall i, j :: 0 <= i < j < |fl| ==> fl[i] + size[fl[i]] < fl[j])
  }

  datatype Option = None | Some(b: int)

  /** fl[0] is the empty block base, below the rest. */
  datatype Blocks = Blocks(fl: seq<int>, live: set<int>, size: map<int, int>, own: map<int, int>) {
    ghost predicate Head(b: int) {
      b in fl || b in live
    }

    /** The block that unit u belongs to. */
    ghost function Of(u: int): Option {
      if u in own then Some(own[u]) else None
    }

    ghost predicate Sizes() {
      && |fl| > 0
      && (forall b :: b in live ==> b in size && size[b] > 0 && b !in fl && fl[0] < b)
      && (forall i :: 0 < i < |fl| ==> fl[i] in size && size[fl[i]] > 0)
      && fl[0] in size && size[fl[0]] == 0
    }

    /** The blocks partition the memory obtained: own is defined on it and names the block of each unit. */
    ghost predicate Tiles() {
      forall x {:trigger Shown(x)} :: Shown(x) ==>
        && (forall b, u {:trigger Head(b), Of(u)} :: Head(b) && b in size && b <= u < b + size[b] ==> Of(u) == Some(b))
        && (forall u :: u in own ==> Head(own[u]) && own[u] in size && own[u] <= u < own[u] + size[own[u]])
    }

    ghost predicate Ok() {
      Sizes() && Apart(fl, size) && Tiles()
    }
  }

  /** Two different blocks do not overlap. */
  lemma Disjoint(s: Blocks, b: int, c: int)
    requires s.Ok() && s.Head(b) && s.Head(c) && b < c && s.size[c] > 0
    ensures b + s.size[b] <= c
  {
    assert Shown(true);
    assert s.Of(c) == Some(c);
  }

  /** Each unit obtained lies in exactly one free or live block. */
  lemma OneBlock(s: Blocks, u: int, b: int)
    requires s.Ok() && u in s.own
    ensures s.Head(b) && b in s.size && b <= u < b + s.size[b] <==> b == s.own[u]
  {
    assert Shown(true);
    assert s.Head(b) ==> s.Of(u) == Some(s.own[u]);
  }

  /** A live block and the free blocks. */
  lemma Apartness(s: Blocks, b: int)
    requires s.Ok() && b in s.live
    ensures forall i :: 0 <= i < |s.fl| && s.fl[i] < b ==> s.fl[i] + s.size[s.fl[i]] <= b
    ensures forall i :: 0 <= i < |s.fl| && s.fl[i] > b ==> b + s.size[b] <= s.fl[i]
  {
    forall i | 0 <= i < |s.fl| && s.fl[i] < b
      ensures s.fl[i] + s.size[s.fl[i]] <= b
    {
      Disjoint(s, s.fl[i], b);
    }
    forall i | 0 <= i < |s.fl| && s.fl[i] > b
      ensures b + s.size[b] <= s.fl[i]
    {
      if i == 0 {
        assert false;
      }
      Disjoint(s, b, s.fl[i]);
    }
  }

  ghost function Remap(own: map<int, int>, from: int, to: int): map<int, int> {
    map u | u in own :: Moved(own, from, to, u)
  }

  ghost function Moved(own: map<int, int>, from: int, to: int, u: int): int
    requires u in own
  {
    if own[u] == from then to else own[u]
  }

  function Without(fl: seq<int>, i: int): seq<int>
    requires 0 <= i < |fl|
  {
    fl[..i] + fl[i + 1..]
  }

  function Insert(fl: seq<int>, i: int, b: int): seq<int>
    requires 0 <= i <= |fl|
  {
    fl[..i] + [b] + fl[i..]
  }

  /** The free block fl[i] becomes part of the live block b that ends where it begins. */
  ghost function AbsorbNext(s: Blocks, b: int, i: int): Blocks
    requires 0 <= i < |s.fl| && b in s.size && s.fl[i] in s.size
  {
    Blocks(Without(s.fl, i), s.live, s.size[b := s.size[b] + s.size[s.fl[i]]], Remap(s.own, s.fl[i], b))
  }

  lemma AbsorbNextOk(s: Blocks, b: int, i: int)
    requires s.Ok() && b in s.live && 0 < i < |s.fl| && b + s.size[b] == s.fl[i]
    ensures AbsorbNext(s, b, i).Ok()
  {
    WithoutHeads(s.fl, i);
    AbsorbNextTiles(s, b, i);
  }

  lemma AbsorbNextTiles(s: Blocks, b: int, i: int)
    requires s.Ok() && b in s.live && 0 < i < |s.fl| && b + s.size[b] == s.fl[i]
    requires forall c :: c in Without(s.fl, i) <==> c in s.fl && c != s.fl[i]
    ensures AbsorbNext(s, b, i).Tiles()
  {
    var t := AbsorbNext(s, b, i);
    assert Shown(true);
    forall c, u | t.Head(c) && c in t.size && c <= u < c + t.size[c]
      ensures t.Of(u) == Some(c)
    {
      assert s.Head(c) && s.Head(s.fl[i]);
      assert s.Of(u).None? || s.Of(u).Some?;
    }
  }

  lemma WithoutHeads(fl: seq<int>, i: int)
    requires 0 <= i < |fl| && forall j, k :: 0 <= j < k < |fl| ==> fl[j] < fl[k]
    ensures forall b :: b in Without(fl, i) <==> b in fl && b != fl[i]
  {
    var g := Without(fl, i);
    forall b | b in fl && b != fl[i]
      ensures b in g
    {
      var j :| 0 <= j < |fl| && fl[j] == b;
      assert g[if j < i then j else j - 1] == b;
    }
  }

  /** The live block b becomes part of the free block fl[k] that ends where it begins. */
  ghost function JoinPrev(s: Blocks, b: int, k: int): Blocks
    requires 0 <= k < |s.fl| && b in s.size && s.fl[k] in s.size
  {
    Blocks(s.fl, s.live - {b}, s.size[s.fl[k] := s.size[s.fl[k]] + s.size[b]], Remap(s.own, b, s.fl[k]))
  }

  lemma JoinPrevOk(s: Blocks, b: int, k: int)
    requires s.Ok() && b in s.live && 0 <= k < |s.fl| && s.fl[k] + s.size[s.fl[k]] == b
    requires k + 1 < |s.fl| ==> b + s.size[b] < s.fl[k + 1]
    ensures JoinPrev(s, b, k).Ok()
  {
    JoinPrevTiles(s, b, k);
  }

  lemma JoinPrevTiles(s: Blocks, b: int, k: int)
    requires s.Ok() && b in s.live && 0 <= k < |s.fl| && s.fl[k] + s.size[s.fl[k]] == b
    ensures JoinPrev(s, b, k).Tiles()
  {
    var t := JoinPrev(s, b, k);
    assert Shown(true);
    forall c, u | t.Head(c) && c in t.size && c <= u < c + t.size[c]
      ensures t.Of(u) == Some(c)
    {
      assert s.Head(c) && s.Head(b);
      assert s.Of(u).None? || s.Of(u).Some?;
    }
  }

  /** The live block b becomes a free block of its own after fl[k]. */
  ghost function InsertAfter(s: Blocks, b: int, k: int): Blocks
    requires 0 <= k < |s.fl|
  {
    Blocks(Insert(s.fl, k + 1, b), s.live - {b}, s.size, s.own)
  }

  lemma InsertAfterOk(s: Blocks, b: int, k: int)
    requires s.Ok() && b in s.live && 0 <= k < |s.fl| && s.fl[k] + s.size[s.fl[k]] < b
    requires k + 1 < |s.fl| ==> b + s.size[b] < s.fl[k + 1]
    ensures InsertAfter(s, b, k).Ok()
  {
    var t := InsertAfter(s, b, k);
    InsertApart(s.fl, s.size, k, b);
    forall c
      ensures t.Head(c) <==> s.Head(c)
    {
      InsertHead(s.fl, k, b, c);
    }
    InsertSizes(s, b, k);
    SameHeads(s, t);
  }

  lemma InsertSizes(s: Blocks, b: int, k: int)
    requires s.Sizes() && b in s.live && 0 <= k < |s.fl|
    ensures InsertAfter(s, b, k).Sizes()
  {
    var t := InsertAfter(s, b, k);
    forall c | c in t.live
      ensures c !in t.fl
    {
      InsertHead(s.fl, k, b, c);
    }
  }

  lemma InsertHead(fl: seq<int>, k: int, b: int, c: int)
    requires 0 <= k < |fl|
    ensures c in Insert(fl, k + 1, b) <==> c in fl || c == b
  {
    if c in fl {
      var j :| 0 <= j < |fl| && fl[j] == c;
      assert Insert(fl, k + 1, b)[if j <= k then j else j + 1] == c;
    }
    assert Insert(fl, k + 1, b)[k + 1] == b;
  }

  lemma InsertApart(fl: seq<int>, size: map<int, int>, k: int, b: int)
    requires Apart(fl, size) && 0 <= k < |fl| && b in size && fl[k] + size[fl[k]] < b && size[b] > 0
    requires k + 1 < |fl| ==> b + size[b] < fl[k + 1] && forall i :: k < i < |fl| ==> size[fl[i]] >= 0
    requires size[fl[k]] >= 0
    ensures Apart(Insert(fl, k + 1, b), size)
  {
    var g := Insert(fl, k + 1, b);
    assert forall i :: 0 <= i < |g| ==> g[i] == if i <= k then fl[i] else if i == k + 1 then b else fl[i - 1];
  }

  /** The same blocks with the same sizes tile the same memory. */
  lemma SameHeads(s: Blocks, t: Blocks)
    requires s.Tiles() && t.size == s.size && t.own == s.own && forall c :: t.Head(c) <==> s.Head(c)
    ensures t.Tiles()
  {
    forall c, u | t.Head(c) && c in t.size && c <= u < c + t.size[c]
      ensures t.Of(u) == Some(c)
    {
      assert Shown(true) && s.Head(c) && s.Of(u) == Some(c);
    }
  }

  /** malloc of a whole free block. */
  ghost function TakeAll(s: Blocks, i: int): Blocks
    requires 0 <= i < |s.fl|
  {
    Blocks(Without(s.fl, i), s.live + {s.fl[i]}, s.size, s.own)
  }

  lemma TakeAllOk(s: Blocks, i: int)
    requires s.Ok() && 0 < i < |s.fl|
    ensures TakeAll(s, i).Ok() && s.fl[i] !in s.live
  {
    var t := TakeAll(s, i);
    TakeAllSizes(s, i);
    WithoutHeads(s.fl, i);
    assert forall c :: t.Head(c) <==> s.Head(c);
    SameHeads(s, t);
    assert Apart(t.fl, t.size);
  }

  lemma TakeAllSizes(s: Blocks, i: int)
    requires s.Sizes() && Apart(s.fl, s.size) && 0 < i < |s.fl|
    ensures TakeAll(s, i).Sizes() && s.fl[i] !in s.live
  {
    WithoutHeads(s.fl, i);
  }

  ghost function Split(own: map<int, int>, a: int, n: int, u: int): int
    requires u in own
  {
    if a <= u < a + n then a else own[u]
  }

  /** malloc of the last n units of a free block. */
  ghost function TakeTail(s: Blocks, i: int, n: int): Blocks
    requires 0 <= i < |s.fl| && s.fl[i] in s.size
  {
    var a := s.fl[i] + s.size[s.fl[i]] - n;
    Blocks(s.fl, s.live + {a}, s.size[s.fl[i] := s.size[s.fl[i]] - n][a := n],
           map u | u in s.own :: Split(s.own, a, n, u))
  }

  lemma TakeTailOk(s: Blocks, i: int, n: int)
    requires s.Ok() && 0 < i < |s.fl| && 0 < n < s.size[s.fl[i]]
    ensures TakeTail(s, i, n).Ok() && !s.Head(s.fl[i] + s.size[s.fl[i]] - n)
  {
    TailIsNew(s, i, n);
    TailSizes(s, i, n);
    TailAllTiles(s, i, n);
  }

  lemma TailAllTiles(s: Blocks, i: int, n: int)
    requires s.Ok() && 0 < i < |s.fl| && 0 < n < s.size[s.fl[i]]
    ensures TakeTail(s, i, n).Tiles()
  {
    var t := TakeTail(s, i, n);
    forall c, u | t.Head(c) && c in t.size && c <= u < c + t.size[c]
      ensures t.Of(u) == Some(c)
    {
      TailTiles(s, i, n, c, u);
    }
    forall u | u in t.own
      ensures t.Head(t.own[u]) && t.own[u] in t.size && t.own[u] <= u < t.own[u] + t.size[t.own[u]]
    {
      TailOwns(s, i, n, u);
    }
  }

  lemma TailOwns(s: Blocks, i: int, n: int, u: int)
    requires s.Ok() && 0 < i < |s.fl| && 0 < n < s.size[s.fl[i]] && u in TakeTail(s, i, n).own
    ensures var t := TakeTail(s, i, n);
            t.Head(t.own[u]) && t.own[u] in t.size && t.own[u] <= u < t.own[u] + t.size[t.own[u]]
  {
    assert Shown(true);
    var b := s.fl[i];
    assert s.Head(b);
    TailIsNew(s, i, n);
  }

  lemma TailIsNew(s: Blocks, i: int, n: int)
    requires s.Ok() && 0 < i < |s.fl| && 0 < n < s.size[s.fl[i]]
    ensures !s.Head(s.fl[i] + s.size[s.fl[i]] - n)
  {
    assert Shown(true);
    var a := s.fl[i] + s.size[s.fl[i]] - n;
    assert s.Head(s.fl[i]) && s.Of(a) == Some(s.fl[i]);
    assert s.Head(a) ==> s.Of(a) == Some(a);
  }

  lemma TailSizes(s: Blocks, i: int, n: int)
    requires s.Sizes() && Apart(s.fl, s.size) && 0 < i < |s.fl| && 0 < n < s.size[s.fl[i]]
    requires !s.Head(s.fl[i] + s.size[s.fl[i]] - n)
    ensures TakeTail(s, i, n).Sizes() && Apart(TakeTail(s, i, n).fl, TakeTail(s, i, n).size)
  {
    assert s.fl[0] < s.fl[i];
  }

  lemma TailTiles(s: Blocks, i: int, n: int, c: int, u: int)
    requires s.Ok() && 0 < i < |s.fl| && 0 < n < s.size[s.fl[i]]
    requires TakeTail(s, i, n).Head(c) && c in TakeTail(s, i, n).size && c <= u < c + TakeTail(s, i, n).size[c]
    ensures TakeTail(s, i, n).Of(u) == Some(c)
  {
    assert Shown(true);
    var b := s.fl[i];
    var a := b + s.size[b] - n;
    TailIsNew(s, i, n);
    assert s.Head(b);
    if c == a {
      assert s.Of(u) == Some(b);
    } else {
      assert s.Head(c) && s.Of(u) == Some(c);
      assert a <= u < a + n ==> c == b;
    }
  }

  ghost function Units(p: int, n: int): (r: set<int>)
    ensures forall u :: u in r <==> p <= u < p + n
    decreases n
  {
    if n <= 0 then {} else Units(p, n - 1) + {p + n - 1}
  }

  /** n units of new memory at p, above all the rest, as a live block. */
  ghost function Obtain(s: Blocks, p: int, n: int): Blocks {
    Blocks(s.fl, s.live + {p}, s.size[p := n], s.own + map u | u in Units(p, n) :: p)
  }

  lemma ObtainOk(s: Blocks, p: int, n: int)
    requires s.Ok() && n > 0 && s.fl[0] < p && forall u :: u in s.own ==> u < p
    ensures Obtain(s, p, n).Ok() && !s.Head(p)
  {
    assert Shown(true);
    var t := Obtain(s, p, n);
    forall c | s.Head(c)
      ensures c in s.size && c + s.size[c] <= p && c < p
    {
      if s.size[c] > 0 {
        assert s.Of(c + s.size[c] - 1) == Some(c);
      }
    }
    assert t.Sizes();
    assert Apart(t.fl, t.size);
    forall c, u | t.Head(c) && c in t.size && c <= u < c + t.size[c]
      ensures t.Of(u) == Some(c)
    {
      assert s.Head(c) || c == p;
      assert s.Of(u).None? || s.Of(u).Some?;
    }
  }

  // ----- The links -----

  /** The cycle is intact but for the link out of fl[k]. */
  ghost predicate CycleBut(ptr: map<int, int>, fl: seq<int>, k: int) {
    && (forall i :: 0 <= i < |fl| ==> fl[i] in ptr)
    && (forall i {:trigger ptr[fl[i]]} :: 0 <= i < |fl| && i != k ==> ptr[fl[i]] == fl[Succ(i, |fl|)])
  }

  ghost predicate Rising(fl: seq<int>) {
    forall i, j :: 0 <= i < j < |fl| ==> fl[i] < fl[j]
  }

  lemma CycleWithout(ptr: map<int, int>, fl: seq<int>, k: int)
    requires Cycle(ptr, fl) && 0 <= k && k + 1 < |fl|
    ensures CycleBut(ptr, Without(fl, k + 1), k)
    ensures ptr[fl[k + 1]] == Without(fl, k + 1)[Succ(k, |fl| - 1)]
  {
    var g := Without(fl, k + 1);
    assert forall i :: 0 <= i < |g| ==> g[i] == fl[if i <= k then i else i + 1];
    forall i | 0 <= i < |g| && i != k
      ensures ptr[g[i]] == g[Succ(i, |g|)]
    {
      assert ptr[fl[if i <= k then i else i + 1]] == fl[Succ(if i <= k then i else i + 1, |fl|)];
    }
    assert ptr[fl[k + 1]] == fl[Succ(k + 1, |fl|)];
  }

  lemma WithoutRising(fl: seq<int>, i: int)
    requires Rising(fl) && 0 <= i < |fl|
    ensures Rising(Without(fl, i))
  {
    var g := Without(fl, i);
    assert forall j :: 0 <= j < |g| ==> g[j] == fl[if j < i then j else j + 1];
  }

  lemma CycleClose(ptr: map<int, int>, fl: seq<int>, k: int)
    requires CycleBut(ptr, fl, k) && 0 <= k < |fl| && Rising(fl)
    ensures Cycle(ptr[fl[k] := fl[Succ(k, |fl|)]], fl)
  {
  }

  lemma CycleInsert(ptr: map<int, int>, fl: seq<int>, k: int, b: int)
    requires CycleBut(ptr, fl, k) && 0 <= k < |fl| && Rising(fl) && b !in fl && b in ptr && ptr[b] == fl[Succ(k, |fl|)]
    ensures Cycle(ptr[fl[k] := b], Insert(fl, k + 1, b))
  {
    var g, q := Insert(fl, k + 1, b), ptr[fl[k] := b];
    forall x | 0 <= x < |fl| && x != k
      ensures q[fl[x]] == fl[Succ(x, |fl|)]
    {
      assert ptr[fl[x]] == fl[Succ(x, |fl|)];
    }
    assert q[b] == fl[Succ(k, |fl|)] && q[fl[k]] == b;
    forall i | 0 <= i < |g|
      ensures g[i] in q && q[g[i]] == g[Succ(i, |g|)]
    {
      CycleInsertAt(q, fl, k, b, i);
    }
  }

  lemma CycleInsertAt(q: map<int, int>, fl: seq<int>, k: int, b: int, i: int)
    requires 0 <= k < |fl| && 0 <= i <= |fl| && b in q && forall x :: 0 <= x < |fl| ==> fl[x] in q
    requires forall x {:trigger q[fl[x]]} :: 0 <= x < |fl| && x != k ==> q[fl[x]] == fl[Succ(x, |fl|)]
    requires q[b] == fl[Succ(k, |fl|)] && q[fl[k]] == b
    ensures |Insert(fl, k + 1, b)| == |fl| + 1 && Insert(fl, k + 1, b)[i] in q
    ensures q[Insert(fl, k + 1, b)[i]] == Insert(fl, k + 1, b)[Succ(i, |fl| + 1)]
  {
    InsertAt(fl, k, b, i);
    InsertAt(fl, k, b, Succ(i, |fl| + 1));
    if i < k {
      assert q[fl[i]] == fl[i + 1];
    } else if i > k + 1 {
      assert q[fl[i - 1]] == fl[Succ(i - 1, |fl|)];
    }
  }

  lemma InsertAt(fl: seq<int>, k: int, b: int, i: int)
    requires 0 <= k < |fl| && 0 <= i <= |fl|
    ensures |Insert(fl, k + 1, b)| == |fl| + 1
    ensures Insert(fl, k + 1, b)[i] == if i <= k then fl[i] else if i == k + 1 then b else fl[i - 1]
  {
  }

  /** fl[k] is the last element below b. */
  ghost predicate Place(fl: seq<int>, b: int, k: int) {
    0 <= k < |fl| && fl[k] < b && (k + 1 < |fl| ==> b < fl[k + 1])
  }

  lemma PlaceOf(fl: seq<int>, b: int) returns (k: int)
    requires fl != [] && fl[0] < b && Rising(fl) && b !in fl
    ensures Place(fl, b, k)
  {
    k := 0;
    while k + 1 < |fl| && fl[k + 1] < b
      invariant 0 <= k < |fl| && fl[k] < b
    {
      k := k + 1;
    }
  }

  /** The tests of the search in free, at block p. */
  predicate Stop(b: int, p: int, next: int) {
    (b > p && b < next) || (p >= next && (b > p || b < next))
  }

  /** They hold at one block of the cycle only: the last one below b. */
  lemma {:induction false} StopAtPlace(ptr: map<int, int>, fl: seq<int>, b: int, k: int)
    requires Cycle(ptr, fl) && Rising(fl) && b !in fl && fl != [] && fl[0] < b && Place(fl, b, k)
    ensures forall i :: 0 <= i < |fl| ==> (Stop(b, fl[i], ptr[fl[i]]) <==> i == k)
  {
    forall i | 0 <= i < |fl|
      ensures Stop(b, fl[i], ptr[fl[i]]) <==> i == k
    {
      StopAt(ptr, fl, b, k, i);
    }
  }

  lemma StopAt(ptr: map<int, int>, fl: seq<int>, b: int, k: int, i: int)
    requires Cycle(ptr, fl) && Rising(fl) && b !in fl && 0 <= i < |fl| && fl[0] < b && Place(fl, b, k)
    ensures Stop(b, fl[i], ptr[fl[i]]) <==> i == k
  {
    assert ptr[fl[i]] == fl[Succ(i, |fl|)];
    if i < k {
      assert fl[i] < fl[i + 1] <= fl[k];
    } else if i > k {
      assert fl[k + 1] <= fl[i];
      if i + 1 < |fl| {
        assert fl[i] < fl[i + 1];
      }
    }
  }

  // ----- free -----

  /** What free may change: the freed block leaves the live blocks, which keep their sizes, and its units
      end up inside the free block h. No memory comes or goes. */
  ghost predicate Released(s: Blocks, t: Blocks, b: int, h: int) {
    && t.live == s.live - {b} && t.own.Keys == s.own.Keys && |t.fl| > 0 && |s.fl| > 0 && t.fl[0] == s.fl[0]
    && (forall c :: c in t.live && c in s.size ==> c in t.size && t.size[c] == s.size[c])
    && h in t.fl && h in t.size && b in s.size && h <= b && b + s.size[b] <= h + t.size[h]
  }

  /** The first half of free: b may have grown, other live blocks have not. */
  ghost predicate Extended(s: Blocks, t: Blocks, b: int, k: int) {
    && t.live == s.live && t.own.Keys == s.own.Keys && 0 <= k < |t.fl| && k < |s.fl| && t.fl[0] == s.fl[0] && t.fl[k] == s.fl[k]
    && (forall c :: c in s.live && c in s.size && c != b ==> c in t.size && t.size[c] == s.size[c])
    && b in s.size && b in t.size && t.size[b] >= s.size[b]
  }

  lemma ExtendedReleased(s: Blocks, t: Blocks, r: Blocks, b: int, k: int, h: int)
    requires Extended(s, t, b, k) && Released(t, r, b, h)
    ensures Released(s, r, b, h)
  {
  }

  /** Half-way through free: b is not linked in yet, but knows what follows it and does not touch it. */
  ghost predicate Half(s: Blocks, ptr: map<int, int>, b: int, k: int) {
    forall x {:trigger Opened(x)} :: Opened(x) ==>
      && s.Ok() && b in s.live && b in s.size && Place(s.fl, b, k)
      && CycleBut(ptr, s.fl, k) && b in ptr && ptr[b] == s.fl[Succ(k, |s.fl|)]
      && (k + 1 < |s.fl| ==> b + s.size[b] < s.fl[k + 1])
  }

  lemma HalfFacts(s: Blocks, ptr: map<int, int>, b: int, k: int)
    requires Half(s, ptr, b, k)
    ensures 0 <= k < |s.fl| && s.fl[k] in s.size && b in s.size && b in ptr && b in s.live
  {
    assert Opened(true);
  }

  lemma OkRising(s: Blocks)
    requires s.Ok()
    ensures Rising(s.fl) && s.fl != []
  {
    forall i, j | 0 <= i < j < |s.fl|
      ensures s.fl[i] < s.fl[j]
    {
      assert s.fl[i] + s.size[s.fl[i]] < s.fl[j];
    }
  }

  lemma Following(s: Blocks, ptr: map<int, int>, b: int, k: int)
    requires s.Ok() && Cycle(ptr, s.fl) && b in s.live && Place(s.fl, b, k)
    ensures b in s.size && s.fl[k] in ptr
    ensures b + s.size[b] == ptr[s.fl[k]] <==> k + 1 < |s.fl| && b + s.size[b] == s.fl[k + 1]
    ensures ptr[s.fl[k]] == s.fl[Succ(k, |s.fl|)]
    ensures k + 1 < |s.fl| ==> b + s.size[b] <= s.fl[k + 1]
  {
    Apartness(s, b);
    assert ptr[s.fl[k]] == s.fl[Succ(k, |s.fl|)];
    if k + 1 < |s.fl| {
      assert s.fl[k + 1] > b;
    }
  }

  lemma HalfMerged(s: Blocks, ptr: map<int, int>, b: int, k: int)
    requires s.Ok() && Cycle(ptr, s.fl) && b in s.live && Place(s.fl, b, k) && b in s.size && s.fl[k] in ptr
    requires k + 1 < |s.fl| && b + s.size[b] == s.fl[k + 1]
    ensures Half(AbsorbNext(s, b, k + 1), ptr[b := ptr[s.fl[k + 1]]], b, k)
  {
    OkRising(s);
    AbsorbNextOk(s, b, k + 1);
    MergedLinks(s.fl, ptr, b, k);
    if k + 2 < |s.fl| {
      assert s.fl[k + 1] + s.size[s.fl[k + 1]] < s.fl[k + 2];
    }
  }

  lemma MergedExtended(s: Blocks, b: int, k: int)
    requires s.Sizes() && b in s.live && 0 <= k && k + 1 < |s.fl|
    ensures Extended(s, AbsorbNext(s, b, k + 1), b, k)
  {
  }

  lemma MergedLinks(fl: seq<int>, ptr: map<int, int>, b: int, k: int)
    requires Cycle(ptr, fl) && Rising(fl) && Place(fl, b, k) && b !in fl && k + 1 < |fl|
    ensures var g := Without(fl, k + 1);
            && Place(g, b, k)
            && CycleBut(ptr[b := ptr[fl[k + 1]]], g, k)
            && ptr[fl[k + 1]] == g[Succ(k, |g|)]
            && (k + 1 < |g| ==> g[k + 1] == fl[k + 2])
  {
    var g := Without(fl, k + 1);
    CycleWithout(ptr, fl, k);
    WithoutHeads(fl, k + 1);
    CycleButPut(ptr, g, k, b, ptr[fl[k + 1]]);
  }

  lemma CycleButPut(ptr: map<int, int>, fl: seq<int>, k: int, b: int, x: int)
    requires CycleBut(ptr, fl, k) && b !in fl
    ensures CycleBut(ptr[b := x], fl, k)
  {
  }

  lemma HalfAlone(s: Blocks, ptr: map<int, int>, b: int, k: int)
    requires s.Ok() && Cycle(ptr, s.fl) && b in s.live && Place(s.fl, b, k) && b in s.size && s.fl[k] in ptr
    requires k + 1 < |s.fl| ==> b + s.size[b] < s.fl[k + 1]
    ensures Half(s, ptr[b := ptr[s.fl[k]]], b, k)
  {
    assert b !in s.fl;
    assert ptr[s.fl[k]] == s.fl[Succ(k, |s.fl|)];
  }

  lemma WholeJoined(s: Blocks, ptr: map<int, int>, b: int, k: int)
    requires Half(s, ptr, b, k) && 0 <= k < |s.fl| && s.fl[k] in s.size && b in s.size && b in ptr
    requires s.fl[k] + s.size[s.fl[k]] == b
    ensures JoinPrev(s, b, k).Ok() && Cycle(ptr[s.fl[k] := ptr[b]], s.fl)
    ensures Released(s, JoinPrev(s, b, k), b, s.fl[k])
  {
    assert Opened(true);
    OkRising(s);
    JoinPrevOk(s, b, k);
    CycleClose(ptr, s.fl, k);
  }

  lemma WholeAlone(s: Blocks, ptr: map<int, int>, b: int, k: int)
    requires Half(s, ptr, b, k) && 0 <= k < |s.fl| && s.fl[k] in s.size && b in s.size
    requires s.fl[k] + s.size[s.fl[k]] != b
    ensures InsertAfter(s, b, k).Ok() && Cycle(ptr[s.fl[k] := b], InsertAfter(s, b, k).fl)
    ensures s.fl[k] in InsertAfter(s, b, k).fl && Released(s, InsertAfter(s, b, k), b, b)
  {
    assert Opened(true);
    InsertHead(s.fl, k, b, b);
    InsertHead(s.fl, k, b, s.fl[k]);
    OkRising(s);
    Apartness(s, b);
    InsertAfterOk(s, b, k);
    assert b !in s.fl;
    CycleInsert(ptr, s.fl, k, b);
  }

  /** The free list is one address-ordered cycle from base on, its blocks disjoint and never adjacent,
      and with the live blocks it tiles the memory obtained. */
  ghost predicate Sound(base: int, freep: int, ptr: map<int, int>, s: Blocks) {
    forall x {:trigger Bared(x)} :: Bared(x) ==>
      0 < base <= freep && s.fl != [] && s.fl[0] == base && freep in s.fl && Cycle(ptr, s.fl) && s.Ok()
  }

  /** The free block p, number i after prevp, has n units. */
  ghost predicate Fits(s: Blocks, prevp: int, p: int, i: int, n: int) {
    0 < i < |s.fl| && s.fl[i] == p && s.fl[i - 1] == prevp && p in s.size && s.size[p] >= n
  }

  /** What the first half of free finds and leaves behind. */
  lemma SoundNext(base: int, freep: int, ptr: map<int, int>, s: Blocks, b: int, k: int)
    requires Sound(base, freep, ptr, s) && b in s.live && Place(s.fl, b, k)
    ensures b in s.size && s.fl[k] in ptr && ptr[s.fl[k]] in ptr && ptr[s.fl[k]] in s.size
    ensures b + s.size[b] == ptr[s.fl[k]] ==>
              && k + 1 < |s.fl| && ptr[s.fl[k]] == s.fl[k + 1]
              && Half(AbsorbNext(s, b, k + 1), ptr[b := ptr[s.fl[k + 1]]], b, k) && Extended(s, AbsorbNext(s, b, k + 1), b, k)
    ensures b + s.size[b] != ptr[s.fl[k]] ==> Half(s, ptr[b := ptr[s.fl[k]]], b, k) && Extended(s, s, b, k)
  {
    assert Bared(true);
    Following(s, ptr, b, k);
    if b + s.size[b] == ptr[s.fl[k]] {
      HalfMerged(s, ptr, b, k);
      MergedExtended(s, b, k);
    } else {
      HalfAlone(s, ptr, b, k);
    }
  }

  lemma SoundTakeAll(base: int, freep: int, ptr: map<int, int>, s: Blocks, i: int)
    requires Sound(base, freep, ptr, s) && 0 < i < |s.fl| && s.fl[i] in s.size
    ensures s.fl[i] in ptr && Sound(base, s.fl[i - 1], ptr[s.fl[i - 1] := ptr[s.fl[i]]], TakeAll(s, i))
    ensures Taken(s, TakeAll(s, i), s.fl[i], s.size[s.fl[i]]) && 0 < base < s.fl[i] && base <= s.fl[i - 1]
  {
    assert Bared(true);
    OkRising(s);
    TakenAll(s, ptr, i);
  }

  lemma SoundTakeTail(base: int, freep: int, ptr: map<int, int>, s: Blocks, i: int, n: int)
    requires Sound(base, freep, ptr, s) && 0 < i < |s.fl| && s.fl[i] in s.size && 0 < n < s.size[s.fl[i]]
    ensures Sound(base, s.fl[i - 1], ptr, TakeTail(s, i, n))
    ensures Taken(s, TakeTail(s, i, n), s.fl[i] + s.size[s.fl[i]] - n, n) && 0 < base < s.fl[i] && base <= s.fl[i - 1]
  {
    assert Bared(true);
    OkRising(s);
    TakenTail(s, i, n);
  }

  // ----- malloc -----

  /** What malloc may change: block a of n units becomes live. No memory comes or goes. */
  ghost predicate Taken(s: Blocks, t: Blocks, a: int, n: int) {
    && a !in s.live && t.live == s.live + {a} && a in t.size && t.size[a] == n && t.own.Keys == s.own.Keys
    && |t.fl| > 0 && |s.fl| > 0 && t.fl[0] == s.fl[0]
    && (forall c :: c in s.live && c in s.size ==> c in t.size && t.size[c] == s.size[c])
  }

  lemma TakenAll(s: Blocks, ptr: map<int, int>, i: int)
    requires s.Ok() && Cycle(ptr, s.fl) && 0 < i < |s.fl| && s.fl[i] in s.size
    ensures s.fl[i] in ptr && TakeAll(s, i).Ok() && Cycle(ptr[s.fl[i - 1] := ptr[s.fl[i]]], TakeAll(s, i).fl)
    ensures Taken(s, TakeAll(s, i), s.fl[i], s.size[s.fl[i]]) && s.fl[i - 1] in TakeAll(s, i).fl
  {
    OkRising(s);
    TakeAllOk(s, i);
    CycleWithout(ptr, s.fl, i - 1);
    WithoutRising(s.fl, i);
    CycleClose(ptr, Without(s.fl, i), i - 1);
    assert Without(s.fl, i)[i - 1] == s.fl[i - 1];
  }

  lemma TakenTail(s: Blocks, i: int, n: int)
    requires s.Ok() && 0 < i < |s.fl| && s.fl[i] in s.size && 0 < n < s.size[s.fl[i]]
    ensures TakeTail(s, i, n).Ok() && Taken(s, TakeTail(s, i, n), s.fl[i] + s.size[s.fl[i]] - n, n)
  {
    TakeTailOk(s, i, n);
  }
}
