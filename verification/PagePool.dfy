/** The physical page allocator of kernel/kalloc.c. Pages are numbered; the pool is lo..hi and 0 is null. */
module PagePool {
  import opened Collections

  /** r->next links the free pages in the order of s. */
  ghost predicate Linked(next: map<int, int>, head: int, s: seq<int>) {
    && head == (if s == [] then 0 else s[0])
    && (forall i :: 0 <= i < |s| ==> s[i] in next)
    && (forall i {:trigger next[s[i]]} :: 0 <= i < |s| ==> next[s[i]] == if i + 1 < |s| then s[i + 1] else 0)
  }

  lemma LinkedTail(next: map<int, int>, head: int, s: seq<int>)
    requires Linked(next, head, s) && s != []
    ensures s[0] in next && Linked(next, next[s[0]], s[1..])
  {
    assert next[s[0]] == if 1 < |s| then s[1] else 0;
    forall i | 0 <= i < |s[1..]|
      ensures next[s[1..][i]] == if i + 1 < |s[1..]| then s[1..][i + 1] else 0
    {
      assert next[s[i + 1]] == if i + 2 < |s| then s[i + 2] else 0;
    }
  }

  /** Freeing page p a second time closes a loop: following the links from it never reaches an end. */
  lemma DoubleFree(next: map<int, int>, head: int, s: seq<int>, p: int)
    requires Linked(next, head, s) && NoDup(s) && p in s && 0 !in s
    ensures forall t :: NoDup(t) ==> !Linked(next[p := head], p, t)
  {
    forall t | NoDup(t)
      ensures !Linked(next[p := head], p, t)
    {
      if Linked(next[p := head], p, t) {
        var j :| 0 <= j < |s| && s[j] == p;
        LoopFollows(next, head, s, p, t, j);
      }
    }
  }

  lemma {:induction false} LoopFollows(next: map<int, int>, head: int, s: seq<int>, p: int, t: seq<int>, m: nat)
    requires Linked(next, head, s) && NoDup(s) && p in s && 0 !in s && Linked(next[p := head], p, t)
    requires m < |s| && forall i :: 0 <= i < m ==> s[i] != p
    ensures m + 1 < |t| && t[0] == p && t[m + 1] == s[m]
  {
    assert t[0] == p;
    if m == 0 {
      assert next[p := head][t[0]] == s[0];
    } else {
      LoopFollows(next, head, s, p, t, m - 1);
      assert next[s[m - 1]] == s[m];
      assert next[p := head][t[m]] == s[m];
    }
  }

  class Pool {
    const lo: int // first page after the kernel
    const hi: int // PHYSTOP
    var freelist: int
    var next: map<int, int> // the link in the first word of each free page
    ghost var free: seq<int>

    ghost predicate Valid()
      reads this
    {
      && 0 < lo <= hi
      && NoDup(free)
      && (forall i :: 0 <= i < |free| ==> lo <= free[i] < hi)
      && Linked(next, freelist, free)
    }

    /** kinit: every page of the range is freed, the last one on top. */
    constructor (lo: int, hi: int)
      requires 0 < lo <= hi
      ensures Valid() && this.lo == lo && this.hi == hi && forall p :: p in free <==> lo <= p < hi
    {
      this.lo, this.hi := lo, hi;
      freelist, next, free := 0, map[], [];
      new;
      for p := lo to hi
        invariant Valid() && forall x :: x in free <==> lo <= x < p
      {
        var panic := Kfree(p);
      }
    }

    /** Put page p on the free list; panics exactly when it lies outside the pool. A page that is
        already free is not detected: then the links no longer form a list. */
    method Kfree(p: int) returns (panic: bool)
      requires Valid()
      modifies this
      ensures panic <==> !(lo <= p < hi)
      ensures panic ==> freelist == old(freelist) && next == old(next) && free == old(free)
      ensures !panic ==> freelist == p && next == old(next)[p := old(freelist)]
      ensures !panic && p !in old(free) ==> free == [p] + old(free)
      ensures Valid() <==> panic || p !in old(free)
      ensures p in old(free) ==> forall s :: NoDup(s) ==> !Linked(next, freelist, s)
    {
      if p < lo || p >= hi {
        return true;
      }
      if p in free {
        DoubleFree(next, freelist, free, p);
      } else {
        assert forall i :: 0 <= i < |free| ==> free[i] != p;
        free := [p] + free;
      }
      next := next[p := freelist];
      freelist := p;
      return false;
    }

    /** Take the first free page, or 0 when there is none. */
    method Kalloc() returns (p: int)
      requires Valid()
      modifies this
      ensures Valid()
      ensures if old(free) == [] then p == 0 && free == [] else p == old(free)[0] && free == old(free)[1..] && p !in free
    {
      p := freelist;
      if p != 0 {
        assert next[free[0]] == next[p];
        LinkedTail(next, freelist, free);
        freelist := next[p];
        free := free[1..];
      }
    }
  }
}
