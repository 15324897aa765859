/** Which disk block belongs to which place of which inode.

    An inode has 12 direct addresses, one address of an indirect block, and the 256 addresses in
    that block. A place is a slot number: 0..11 direct, 12 the indirect block, 13 + j its entry j.
    Address 0 means no block. */
module BlockTree {
  import opened BlockFormat
  import opened FreeMap

  const INDIRECT: nat := NDIRECT // the slot of the indirect block
  const NSLOT: nat := NDIRECT + 1 + NINDIRECT

  datatype Place = Place(ino: int, k: int)

  /** ptrs holds the entries of every indirect block, owner the place of every block in use. */
  datatype Tree = Tree(addrs: seq<seq<int>>, ptrs: map<int, seq<int>>, owner: map<int, Place>) {
    ghost predicate Shape() {
      && (forall i :: 0 <= i < |addrs| ==> |addrs[i]| == NDIRECT + 1)
      && (forall i :: 0 <= i < |addrs| && addrs[i][INDIRECT] != 0 ==> addrs[i][INDIRECT] in ptrs)
      && (forall a :: a in ptrs ==> |ptrs[a]| == NINDIRECT)
    }

    ghost predicate Has(p: Place) {
      0 <= p.ino < |addrs| && 0 <= p.k < NSLOT
    }

    /** The block at place p, or 0. */
    ghost function Slot(p: Place): int
      requires Shape() && Has(p)
    {
      var a := addrs[p.ino];
      if p.k <= INDIRECT then a[p.k]
      else if a[INDIRECT] == 0 then 0
      else ptrs[a[INDIRECT]][p.k - INDIRECT - 1]
    }

    /** All the places and their blocks. */
    ghost function Slots(): Place -> int {
      p => if Shape() && Has(p) then Slot(p) else 0
    }

    ghost predicate Ok(sb: Super, used: seq<bool>) {
      && Shape()
      && Owns(sb, used, Slots(), owner)
      && (forall b :: b in owner ==> Has(owner[b]))
      && (forall a :: a in ptrs ==> a in owner && owner[a].k == INDIRECT)
    }
  }

  /** Every block in use belongs to exactly one place, and its map bit is set; no other bit is. */
  ghost predicate Owns(sb: Super, used: seq<bool>, f: Place -> int, owner: map<int, Place>) {
    && |used| == sb.size && 0 < sb.datastart
    && (forall p :: f(p) != 0 ==> f(p) in owner && owner[f(p)] == p)
    && (forall b :: b in owner ==> sb.datastart <= b < sb.size && f(owner[b]) == b)
    && (forall b :: sb.datastart <= b < sb.size ==> (used[b] <==> b in owner))
  }

  lemma OwnsFill(sb: Super, used: seq<bool>, f: Place -> int, f': Place -> int, owner: map<int, Place>, p: Place, b: int)
    requires Owns(sb, used, f, owner) && f(p) == 0 && sb.datastart <= b < sb.size && !used[b]
    requires forall q {:trigger f'(q)} {:trigger f(q)} :: f'(q) == if q == p then b else f(q)
    ensures Owns(sb, used[b := true], f', owner[b := p])
  {
    assert b !in owner;
    forall q | f'(q) != 0
      ensures f'(q) in owner[b := p] && owner[b := p][f'(q)] == q
    {
    }
  }

  /** Block b, which belonged to nobody, is given to the empty place p. */
  ghost function Attach(t: Tree, p: Place, b: int): Tree
    requires t.Shape() && t.Has(p) && (p.k > INDIRECT ==> t.addrs[p.ino][INDIRECT] != 0)
  {
    var ip := t.addrs[p.ino];
    if p.k <= INDIRECT then
      Tree(t.addrs[p.ino := ip[p.k := b]],
           if p.k == INDIRECT then t.ptrs[b := seq(NINDIRECT, _ => 0)] else t.ptrs,
           t.owner[b := p])
    else
      var a := ip[INDIRECT];
      Tree(t.addrs, t.ptrs[a := t.ptrs[a][p.k - INDIRECT - 1 := b]], t.owner[b := p])
  }

  /** Two places never share a block. */
  lemma OneOwner(sb: Super, used: seq<bool>, t: Tree, p: Place, q: Place)
    requires t.Ok(sb, used) && t.Has(p) && t.Has(q) && t.Slot(p) != 0 && t.Slot(p) == t.Slot(q)
    ensures p == q
  {
    assert t.Slots()(p) == t.Slot(p) && t.Slots()(q) == t.Slot(q);
  }

  lemma SlotOwned(sb: Super, used: seq<bool>, t: Tree, p: Place)
    requires t.Ok(sb, used) && t.Has(p) && t.Slot(p) != 0
    ensures sb.datastart <= t.Slot(p) < sb.size && used[t.Slot(p)] && t.Slot(p) in t.owner && t.owner[t.Slot(p)] == p
  {
    assert t.Slots()(p) == t.Slot(p);
  }

  lemma AttachShape(t: Tree, p: Place, b: int)
    requires t.Shape() && t.Has(p) && (p.k > INDIRECT ==> t.addrs[p.ino][INDIRECT] != 0)
    ensures Attach(t, p, b).Shape()
  {
  }

  ghost predicate Attachable(sb: Super, used: seq<bool>, t: Tree, p: Place, b: int) {
    && t.Ok(sb, used) && t.Has(p) && t.Slot(p) == 0
    && sb.datastart <= b < sb.size && !used[b]
    && (p.k > INDIRECT ==> t.addrs[p.ino][INDIRECT] != 0)
  }

  lemma AttachEntry(t: Tree, i: int, j: int, b: int)
    requires t.Shape() && 0 <= i < |t.addrs| && 0 <= j < NINDIRECT && t.addrs[i][INDIRECT] != 0
    ensures var a := t.addrs[i][INDIRECT];
            Attach(t, Place(i, INDIRECT + 1 + j), b)
            == Tree(t.addrs, t.ptrs[a := t.ptrs[a][j := b]], t.owner[b := Place(i, INDIRECT + 1 + j)])
  {
  }

  /** Attaching a block fills one place and changes no other. */
  lemma AttachSlots(sb: Super, used: seq<bool>, t: Tree, p: Place, b: int, q: Place)
    requires Attachable(sb, used, t, p, b) && t.Has(q)
    ensures Attach(t, p, b).Shape() && Attach(t, p, b).Slot(q) == if q == p then b else t.Slot(q)
  {
    AttachShape(t, p, b);
    if q.k > INDIRECT && t.Slot(Place(q.ino, INDIRECT)) != 0 {
      SlotOwned(sb, used, t, Place(q.ino, INDIRECT));
      if p.k > INDIRECT && q.ino != p.ino && t.Slot(Place(q.ino, INDIRECT)) == t.Slot(Place(p.ino, INDIRECT)) {
        OneOwner(sb, used, t, Place(q.ino, INDIRECT), Place(p.ino, INDIRECT));
      }
    }
  }

  lemma AttachOk(sb: Super, used: seq<bool>, t: Tree, p: Place, b: int)
    requires Attachable(sb, used, t, p, b)
    ensures Attach(t, p, b).Ok(sb, used[b := true])
  {
    AttachShape(t, p, b);
    var t' := Attach(t, p, b);
    forall q: Place
      ensures t'.Slots()(q) == if q == p then b else t.Slots()(q)
    {
      if t.Has(q) {
        AttachSlots(sb, used, t, p, b, q);
      }
    }
    OwnsFill(sb, used, t.Slots(), t'.Slots(), t.owner, p, b);
  }
}
