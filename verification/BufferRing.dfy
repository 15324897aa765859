/** The doubly linked list of buffers of kernel/bio.c, on indices. ring[0] is the list head; the
    buffers follow it from the most to the least recently used. */
module BufferRing {
  import opened Collections

  function Succ(i: int, n: int): int {
    if i + 1 < n then i + 1 else 0
  }

  ghost predicate InRange(s: seq<int>, n: int) {
    forall i :: 0 <= i < |s| ==> 0 <= s[i] < n
  }

  /** next and prev link ring into a cycle, in both directions. */
  ghost predicate Linked(next: seq<int>, prev: seq<int>, ring: seq<int>) {
    && |ring| > 0 && |prev| == |next| && InRange(ring, |next|) && NoDup(ring)
    && (forall i {:trigger next[ring[i]]} :: 0 <= i < |ring| ==> next[ring[i]] == ring[Succ(i, |ring|)])
    && (forall i {:trigger ring[Succ(i, |ring|)]} :: 0 <= i < |ring| ==> prev[ring[Succ(i, |ring|)]] == ring[i])
  }

  /** Every buffer is on the list, once. */
  ghost predicate All(ring: seq<int>, n: int) {
    forall x :: 0 <= x < n ==> x in ring
  }

  function Without(s: seq<int>, j: int): seq<int>
    requires 0 <= j < |s|
  {
    s[..j] + s[j + 1..]
  }

  /** b directly after the head. */
  function Front(s: seq<int>, b: int): seq<int>
    requires |s| > 0
  {
    [s[0], b] + s[1..]
  }

  lemma PrevAt(next: seq<int>, prev: seq<int>, ring: seq<int>, i: int)
    requires Linked(next, prev, ring) && 0 <= i < |ring|
    ensures 0 <= ring[i] < |next|
    ensures prev[ring[i]] == ring[if i == 0 then |ring| - 1 else i - 1]
    ensures next[ring[i]] == ring[Succ(i, |ring|)]
  {
    var j := if i == 0 then |ring| - 1 else i - 1;
    assert ring[Succ(j, |ring|)] == ring[i];
  }

  lemma WithoutShape(s: seq<int>, j: int, n: int)
    requires 0 < j < |s| && NoDup(s) && InRange(s, n)
    ensures var g := Without(s, j);
            NoDup(g) && InRange(g, n) && |g| == |s| - 1 && g[0] == s[0] && s[j] !in g
    ensures forall x :: x in s && x != s[j] ==> x in Without(s, j)
  {
    var g := Without(s, j);
    forall x | x in s && x != s[j]
      ensures x in g
    {
      var i :| 0 <= i < |s| && s[i] == x;
      assert g[if i < j then i else i - 1] == x;
    }
  }

  /** Unlinking ring[j]: b->next->prev = b->prev; b->prev->next = b->next. */
  lemma Unlink(next: seq<int>, prev: seq<int>, ring: seq<int>, j: int)
    requires Linked(next, prev, ring) && 0 < j < |ring|
    ensures 0 <= ring[j] < |next| && 0 <= next[ring[j]] < |next| && 0 <= prev[ring[j]] < |next|
    ensures Linked(next[prev[ring[j]] := next[ring[j]]], prev[next[ring[j]] := prev[ring[j]]], Without(ring, j))
  {
    PrevAt(next, prev, ring, j);
    WithoutShape(ring, j, |next|);
    var g, n := Without(ring, j), |ring| - 1;
    var p, q := ring[j - 1], ring[Succ(j, |ring|)];
    var next', prev' := next[p := q], prev[q := p];
    forall i | 0 <= i < n
      ensures next'[g[i]] == g[Succ(i, n)] && prev'[g[Succ(i, n)]] == g[i]
    {
      UnlinkNext(next, prev, ring, j, i);
      UnlinkPrev(next, prev, ring, j, i);
    }
  }

  lemma UnlinkNext(next: seq<int>, prev: seq<int>, ring: seq<int>, j: int, i: int)
    requires Linked(next, prev, ring) && 0 < j < |ring| && 0 <= i < |ring| - 1
    ensures var g, n, p, q := Without(ring, j), |ring| - 1, ring[j - 1], ring[Succ(j, |ring|)];
            next[p := q][g[i]] == g[Succ(i, n)]
  {
    var a := if i < j then i else i + 1;
    var c := Succ(i, |ring| - 1);
    assert Without(ring, j)[c] == ring[if c < j then c else c + 1];
    PrevAt(next, prev, ring, a);
  }

  lemma UnlinkPrev(next: seq<int>, prev: seq<int>, ring: seq<int>, j: int, i: int)
    requires Linked(next, prev, ring) && 0 < j < |ring| && 0 <= i < |ring| - 1
    ensures var g, n, p, q := Without(ring, j), |ring| - 1, ring[j - 1], ring[Succ(j, |ring|)];
            prev[q := p][g[Succ(i, n)]] == g[i]
  {
    var c := Succ(i, |ring| - 1);
    var b := if c < j then c else c + 1;
    assert Without(ring, j)[c] == ring[b] && Without(ring, j)[i] == ring[if i < j then i else i + 1];
    PrevAt(next, prev, ring, b);
  }

  /** Linking b in front: b->next = head.next; b->prev = &head; head.next->prev = b; head.next = b. */
  lemma LinkFront(next: seq<int>, prev: seq<int>, ring: seq<int>, b: int)
    requires Linked(next, prev, ring) && 0 <= b < |next| && b !in ring
    ensures 0 <= ring[0] < |next| && 0 <= next[ring[0]] < |next|
    ensures var first := next[ring[0]];
            Linked(next[b := first][ring[0] := b], prev[b := ring[0]][first := b], Front(ring, b))
  {
    PrevAt(next, prev, ring, 0);
    var g, n := Front(ring, b), |ring| + 1;
    var first := next[ring[0]];
    var next', prev' := next[b := first][ring[0] := b], prev[b := ring[0]][first := b];
    assert forall i :: 0 <= i < n ==> g[i] == if i == 0 then ring[0] else if i == 1 then b else ring[i - 1];
    forall i | 0 <= i < n
      ensures next'[g[i]] == g[Succ(i, n)] && prev'[g[Succ(i, n)]] == g[i]
    {
      LinkFrontAt(next, prev, ring, b, i);
    }
  }

  lemma LinkFrontAt(next: seq<int>, prev: seq<int>, ring: seq<int>, b: int, i: int)
    requires Linked(next, prev, ring) && 0 <= b < |next| && b !in ring && 0 <= i < |ring| + 1
    requires 0 <= ring[0] < |next| && 0 <= next[ring[0]] < |next|
    ensures var g, n, first := Front(ring, b), |ring| + 1, next[ring[0]];
            && next[b := first][ring[0] := b][g[i]] == g[Succ(i, n)]
            && prev[b := ring[0]][first := b][g[Succ(i, n)]] == g[i]
  {
    PrevAt(next, prev, ring, 0);
    var k := if i <= 1 then 0 else i - 1;
    PrevAt(next, prev, ring, k);
    PrevAt(next, prev, ring, Succ(k, |ring|));
    assert next[ring[0]] == ring[Succ(0, |ring|)];
    if i > 1 {
      assert Front(ring, b)[i] == ring[i - 1];
    }
  }
}
