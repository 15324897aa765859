/** Freeing the blocks of an inode in the order of itrunc: the direct blocks, the entries of the
    indirect block, the indirect block itself. */
module Truncation {
  import opened Collections
  import opened Guards
  import opened FreeMap
  import opened BlockTree

  /** When itrunc frees slot k. */
  function Turn(k: int): int {
    if k < INDIRECT then k else if k == INDIRECT then NSLOT - 1 else k - 1
  }

  /** The places once the first n slots of inode i have been freed. */
  ghost function Cut(f: Place -> int, i: int, n: int): Place -> int {
    (q: Place) => if q.ino == i && Turn(q.k) < n then 0 else f(q)
  }

  ghost function OwnerCut(owner: map<int, Place>, i: int, n: int): map<int, Place> {
    owner - (set b | b in owner && owner[b].ino == i && Turn(owner[b].k) < n)
  }

  ghost predicate Freeing(sb: Super, used: seq<bool>, f0: Place -> int, owner0: map<int, Place>, i: int, n: int) {
    Owns(sb, used, Cut(f0, i, n), OwnerCut(owner0, i, n))
  }

  /** Freeing the block of slot k, whose turn it is: the block is still in use, so bfree does not panic. */
  lemma FreeOne(sb: Super, used: seq<bool>, f0: Place -> int, owner0: map<int, Place>, i: int, k: int)
    requires 0 <= k < NSLOT && |used| == sb.size
    requires forall p: Place :: f0(p) != 0 ==> 0 <= p.k < NSLOT
    requires forall b :: b in owner0 ==> 0 <= owner0[b].k < NSLOT
    requires Freeing(sb, used, f0, owner0, i, Turn(k))
    ensures var b := f0(Place(i, k));
            if b == 0 then Freeing(sb, used, f0, owner0, i, Turn(k) + 1)
            else sb.datastart <= b < sb.size && used[b] && Freeing(sb, used[b := false], f0, owner0, i, Turn(k) + 1)
  {
    var p, n := Place(i, k), Turn(k);
    var b, f, f' := f0(p), Cut(f0, i, n), Cut(f0, i, n + 1);
    var o, o' := OwnerCut(owner0, i, n), OwnerCut(owner0, i, n + 1);
    assert f(p) == b;
    forall q: Place
      ensures f'(q) == if q == p then 0 else f(q)
    {
      TurnInjective(q.k, k);
    }
    forall x
      ensures x in o' <==> x in o && x != b
    {
      if x in owner0 {
        TurnInjective(owner0[x].k, k);
        assert x in o ==> f(o[x]) == x;
      }
    }
  }

  lemma TurnInjective(j: int, k: int)
    requires 0 <= k < NSLOT
    ensures 0 <= j < NSLOT && Turn(j) == Turn(k) ==> j == k
  {
  }

  /** Slots that are empty need no freeing. */
  lemma SkipEmpty(sb: Super, used: seq<bool>, f0: Place -> int, owner0: map<int, Place>, i: int, n: int, m: int)
    requires Owns(sb, used, Cut(f0, i, n), OwnerCut(owner0, i, n)) && n <= m
    requires forall k :: n <= Turn(k) < m ==> f0(Place(i, k)) == 0
    ensures Freeing(sb, used, f0, owner0, i, m)
  {
    var o, o' := OwnerCut(owner0, i, n), OwnerCut(owner0, i, m);
    forall x
      ensures x in o' <==> x in o
    {
      if x in o {
        assert Cut(f0, i, n)(o[x]) == x;
        assert o[x] == Place(o[x].ino, o[x].k);
      }
    }
    assert o == o';
    forall q: Place
      ensures Cut(f0, i, m)(q) == Cut(f0, i, n)(q)
    {
      assert q == Place(q.ino, q.k);
    }
  }

  // ----- What it logs -----

  /** The map block of b, if there is a block. */
  function FreedMap(sb: Super, b: int): set<int> {
    if b == 0 then {} else {sb.bmapstart + b / 8192}
  }

  /** The map blocks of the first n slots to be freed. */
  ghost function FreedMaps(sb: Super, f0: Place -> int, i: int, n: int): set<int> {
    set k | 0 <= k < NSLOT && Turn(k) < n && f0(Place(i, k)) != 0 :: sb.bmapstart + f0(Place(i, k)) / 8192
  }

  /** Of inode i exactly these have been logged since l0. */
  ghost predicate FreedLog(sb: Super, f0: Place -> int, i: int, n: int, l0: set<int>, l1: set<int>) {
    forall x {:trigger Shown(x)} :: Shown(x) ==> l1 == l0 + FreedMaps(sb, f0, i, n)
  }

  lemma FreedMapAt(sb: Super, f0: Place -> int, i: int, n: int, k: int)
    requires 0 <= k < NSLOT && Turn(k) < n && f0(Place(i, k)) != 0
    ensures sb.bmapstart + f0(Place(i, k)) / 8192 in FreedMaps(sb, f0, i, n)
  {
  }

  lemma FreedStart(sb: Super, f0: Place -> int, i: int, l: set<int>)
    ensures FreedLog(sb, f0, i, 0, l, l)
  {
    assert FreedMaps(sb, f0, i, 0) == {};
  }

  /** The turn of slot k. */
  lemma FreedNext(sb: Super, f0: Place -> int, i: int, k: int, l0: set<int>, l1: set<int>)
    requires 0 <= k < NSLOT && FreedLog(sb, f0, i, Turn(k), l0, l1)
    ensures FreedLog(sb, f0, i, Turn(k) + 1, l0, l1 + FreedMap(sb, f0(Place(i, k))))
  {
    FreedLogIs(sb, f0, i, Turn(k), l0, l1);
    FreedMapsNext(sb, f0, i, k);
  }

  lemma FreedMapsNext(sb: Super, f0: Place -> int, i: int, k: int)
    requires 0 <= k < NSLOT
    ensures FreedMaps(sb, f0, i, Turn(k) + 1) == FreedMaps(sb, f0, i, Turn(k)) + FreedMap(sb, f0(Place(i, k)))
  {
    var n := Turn(k);
    forall x | x in FreedMaps(sb, f0, i, n + 1)
      ensures x in FreedMaps(sb, f0, i, n) + FreedMap(sb, f0(Place(i, k)))
    {
      var j :| 0 <= j < NSLOT && Turn(j) < n + 1 && f0(Place(i, j)) != 0 && x == sb.bmapstart + f0(Place(i, j)) / 8192;
      TurnInjective(j, k);
    }
    if f0(Place(i, k)) != 0 {
      FreedMapAt(sb, f0, i, n + 1, k);
    }
  }

  lemma FreedLogIs(sb: Super, f0: Place -> int, i: int, n: int, l0: set<int>, l1: set<int>)
    requires FreedLog(sb, f0, i, n, l0, l1)
    ensures l1 == l0 + FreedMaps(sb, f0, i, n)
  {
    assert Shown(true);
  }

  lemma FreedSkip(sb: Super, f0: Place -> int, i: int, n: int, m: int, l0: set<int>, l1: set<int>)
    requires FreedLog(sb, f0, i, n, l0, l1) && n <= m && forall k :: n <= Turn(k) < m ==> f0(Place(i, k)) == 0
    ensures FreedLog(sb, f0, i, m, l0, l1)
  {
    FreedLogIs(sb, f0, i, n, l0, l1);
    assert FreedMaps(sb, f0, i, m) == FreedMaps(sb, f0, i, n);
  }

  /** They are blocks of the free map: no more than it has. */
  lemma FreedMapsBound(sb: Super, used: seq<bool>, t: Tree, i: int)
    requires sb.Valid() && t.Ok(sb, used)
    ensures forall x :: x in FreedMaps(sb, t.Slots(), i, NSLOT) ==> sb.bmapstart <= x < sb.bmapstart + sb.size / 8192 + 1
    ensures |FreedMaps(sb, t.Slots(), i, NSLOT)| <= sb.size / 8192 + 1
  {
    var m := FreedMaps(sb, t.Slots(), i, NSLOT);
    forall x | x in m
      ensures sb.bmapstart <= x < sb.bmapstart + sb.size / 8192 + 1
    {
      var k :| 0 <= k < NSLOT && Turn(k) < NSLOT && t.Slots()(Place(i, k)) != 0 && x == sb.bmapstart + t.Slots()(Place(i, k)) / 8192;
      assert t.Slots()(Place(i, k)) in t.owner;
    }
    RangeSize(m, sb.bmapstart, sb.size / 8192 + 1);
  }
}
