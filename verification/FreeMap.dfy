/** The block allocator of kernel/fs.c: balloc and bfree on the on-disk free map. */
module FreeMap {
  import opened BlockFormat

  // Divisions by BPB are written with its value, 8192.

  /** The disk layout: the inode blocks lie below the free map and the free map below the data blocks. */
  datatype Super = Super(size: nat, inodestart: nat, bmapstart: nat, datastart: nat) {
    ghost predicate Valid() {
      0 < datastart <= size < 0x1_0000_0000 && inodestart <= bmapstart && bmapstart + size / 8192 + 1 <= datastart
    }

    ghost predicate HasInodes(n: nat) {
      inodestart <= bmapstart && n <= 16 * (bmapstart - inodestart)
    }

    /** BBLOCK */
    function MapBlock(b: nat): nat {
      bmapstart + b / 8192
    }

    /** IBLOCK, at 16 inodes to a block */
    function InodeBlock(i: nat): nat {
      inodestart + i / 16
    }
  }

  ghost predicate Blocks(sb: Super, blocks: seq<Bytes>) {
    |blocks| == sb.size && forall b :: 0 <= b < |blocks| ==> IsBlock(blocks[b])
  }

  /** The bit of block b in the raw free map. */
  ghost predicate RawBit(sb: Super, blocks: seq<Bytes>, b: nat)
    requires sb.Valid() && Blocks(sb, blocks) && b < sb.size
  {
    BitOf(blocks[sb.MapBlock(b)][b % 8192 / 8], b % 8192 % 8)
  }

  /** used is what the free map says, and the blocks below the data area are in use. */
  ghost predicate MapRep(sb: Super, blocks: seq<Bytes>, used: seq<bool>) {
    && sb.Valid() && Blocks(sb, blocks) && |used| == sb.size
    && (forall b {:trigger used[b]} :: 0 <= b < sb.size ==> used[b] == RawBit(sb, blocks, b))
    && (forall b {:trigger used[b]} :: 0 <= b < sb.datastart ==> used[b])
  }

  /** Since begin_op, when the blocks held what `begun` says, every block changed has been passed to
      log_write, and no block of the log itself has. */
  ghost predicate LogOk(sb: Super, begun: seq<Bytes>, blocks: seq<Bytes>, logged: set<int>) {
    && |begun| == |blocks|
    && (forall x {:trigger x in logged} :: x in logged ==> sb.inodestart <= x < sb.size)
    && (forall x {:trigger x in logged} :: 0 <= x < |blocks| && x !in logged ==> blocks[x] == begun[x])
  }

  lemma LogSet(sb: Super, begun: seq<Bytes>, blocks: seq<Bytes>, logged: set<int>, x: nat, v: Bytes)
    requires LogOk(sb, begun, blocks, logged) && sb.inodestart <= x < sb.size == |blocks|
    ensures LogOk(sb, begun, blocks[x := v], logged + {x as int})
  {
  }

  /** Where the blocks of the free map lie. */
  lemma MapBlockIn(sb: Super, b: nat)
    requires sb.Valid() && b < sb.size
    ensures sb.inodestart <= sb.bmapstart <= sb.MapBlock(b) < sb.datastart <= sb.size
  {
  }

  /** Where the inode blocks lie. */
  lemma InodeBlockIn(sb: Super, i: nat, n: nat)
    requires sb.Valid() && sb.HasInodes(n) && i < n
    ensures sb.inodestart <= sb.InodeBlock(i) < sb.bmapstart < sb.size
  {
  }

  /** Writing a data block leaves the map as it is. */
  lemma MapKept(sb: Super, blocks: seq<Bytes>, used: seq<bool>, x: nat, v: Bytes)
    requires MapRep(sb, blocks, used) && sb.datastart <= x < sb.size && IsBlock(v)
    ensures MapRep(sb, blocks[x := v], used)
  {
  }

  /** Two blocks with the same map byte and the same bit of it are the same block. */
  lemma BitPlace(sb: Super, a: nat, b: nat)
    requires sb.MapBlock(a) == sb.MapBlock(b) && a % 8192 / 8 == b % 8192 / 8 && a % 8192 % 8 == b % 8192 % 8
    ensures a == b
  {
  }

  /** The blocks with byte i of block m replaced. */
  function Poke(blocks: seq<Bytes>, m: nat, i: nat, v: int): seq<Bytes>
    requires m < |blocks| && i < |blocks[m]|
  {
    blocks[m := blocks[m][i := v]]
  }

  lemma PokeBlocks(sb: Super, blocks: seq<Bytes>, m: nat, i: nat, v: int)
    requires Blocks(sb, blocks) && m < sb.size && i < BSIZE && 0 <= v < 256
    ensures Blocks(sb, Poke(blocks, m, i, v))
  {
  }

  /** Replacing the byte of b by one that differs only in the bit of b changes only that bit of the map. */
  lemma PokeBit(sb: Super, blocks: seq<Bytes>, b: nat, v: int, u: bool, a: nat)
    requires sb.Valid() && Blocks(sb, blocks) && b < sb.size && a < sb.size && 0 <= v < 256
    requires Blocks(sb, Poke(blocks, sb.MapBlock(b), b % 8192 / 8, v))
    requires BitOf(v, a % 8192 % 8) <==> if a % 8192 % 8 == b % 8192 % 8 then u else BitOf(blocks[sb.MapBlock(b)][b % 8192 / 8], a % 8192 % 8)
    ensures RawBit(sb, Poke(blocks, sb.MapBlock(b), b % 8192 / 8, v), a) <==> if a == b then u else RawBit(sb, blocks, a)
  {
    if sb.MapBlock(a) == sb.MapBlock(b) && a % 8192 / 8 == b % 8192 / 8 && a % 8192 % 8 == b % 8192 % 8 {
      BitPlace(sb, a, b);
    }
  }

  lemma SetRep(sb: Super, blocks: seq<Bytes>, used: seq<bool>, b: nat)
    requires MapRep(sb, blocks, used) && b < sb.size
    ensures OrBit(blocks[sb.MapBlock(b)][b % 8192 / 8], b % 8192 % 8) < 256
    ensures MapRep(sb, Poke(blocks, sb.MapBlock(b), b % 8192 / 8, OrBit(blocks[sb.MapBlock(b)][b % 8192 / 8], b % 8192 % 8)), used[b := true])
  {
    var x := blocks[sb.MapBlock(b)][b % 8192 / 8];
    var v := OrBit(x, b % 8192 % 8);
    BitRange(x, b % 8192 % 8, 8);
    PokeBlocks(sb, blocks, sb.MapBlock(b), b % 8192 / 8, v);
    forall a | 0 <= a < sb.size
      ensures RawBit(sb, Poke(blocks, sb.MapBlock(b), b % 8192 / 8, v), a) <==> if a == b then true else RawBit(sb, blocks, a)
    {
      OrBitAt(x, b % 8192 % 8, a % 8192 % 8);
      PokeBit(sb, blocks, b, v, true, a);
    }
  }

  lemma ClearRep(sb: Super, blocks: seq<Bytes>, used: seq<bool>, b: nat)
    requires MapRep(sb, blocks, used) && sb.datastart <= b < sb.size
    ensures ClearBit(blocks[sb.MapBlock(b)][b % 8192 / 8], b % 8192 % 8) < 256
    ensures MapRep(sb, Poke(blocks, sb.MapBlock(b), b % 8192 / 8, ClearBit(blocks[sb.MapBlock(b)][b % 8192 / 8], b % 8192 % 8)), used[b := false])
  {
    var x := blocks[sb.MapBlock(b)][b % 8192 / 8];
    var v := ClearBit(x, b % 8192 % 8);
    BitRange(x, b % 8192 % 8, 8);
    PokeBlocks(sb, blocks, sb.MapBlock(b), b % 8192 / 8, v);
    forall a | 0 <= a < sb.size
      ensures RawBit(sb, Poke(blocks, sb.MapBlock(b), b % 8192 / 8, v), a) <==> if a == b then false else RawBit(sb, blocks, a)
    {
      ClearBitAt(x, b % 8192 % 8, a % 8192 % 8);
      PokeBit(sb, blocks, b, v, false, a);
    }
  }

  lemma ScanIndex(sb: Super, b: nat, bi: nat)
    requires b % 8192 == 0 && bi < BPB
    ensures sb.MapBlock(b + bi) == sb.MapBlock(b) && (b + bi) % 8192 == bi
  {
  }

  /** Bit bi of map block bp is clear. */
  predicate ClearIn(bp: Bytes, bi: nat)
    requires |bp| == BSIZE && bi < BPB && 0 <= bp[bi / 8]
  {
    !BitOf(bp[bi / 8], bi % 8)
  }

  /** Bit bi of the map block for blocks b.. is that of block b + bi. */
  lemma ScanBit(sb: Super, blocks: seq<Bytes>, used: seq<bool>, b: nat, bi: nat)
    requires MapRep(sb, blocks, used) && b % 8192 == 0 && bi < BPB && b + bi < sb.size
    ensures IsBlock(blocks[sb.MapBlock(b)]) && 0 <= blocks[sb.MapBlock(b)][bi / 8]
    ensures used[b + bi] <==> !ClearIn(blocks[sb.MapBlock(b)], bi)
  {
    MapBlockIn(sb, b);
    ScanIndex(sb, b, bi);
    assert used[b + bi] == RawBit(sb, blocks, b + bi);
  }

  /** bp is the part of the free map for blocks b.. of a disk of n blocks. */
  ghost predicate MapOf(bp: Bytes, used: seq<bool>, b: nat, n: nat) {
    && |bp| == BSIZE && |used| == n
    && forall bi {:trigger BitAt(bp, bi)} :: 0 <= bi < BPB && b + bi < n ==> 0 <= bp[bi / 8] && (used[b + bi] <==> !BitAt(bp, bi))
  }

  /** ClearIn where it makes sense. */
  ghost predicate BitAt(bp: Bytes, bi: int) {
    |bp| == BSIZE && 0 <= bi < BPB && 0 <= bp[bi / 8] && ClearIn(bp, bi)
  }

  lemma MapBits(sb: Super, blocks: seq<Bytes>, used: seq<bool>, b: nat)
    requires MapRep(sb, blocks, used) && b % 8192 == 0 && b < sb.size
    ensures sb.MapBlock(b) < |blocks| && MapOf(blocks[sb.MapBlock(b)], used, b, sb.size)
  {
    MapBlockIn(sb, b);
    forall bi | 0 <= bi < BPB && b + bi < sb.size
      ensures 0 <= blocks[sb.MapBlock(b)][bi / 8] && (used[b + bi] <==> !BitAt(blocks[sb.MapBlock(b)], bi))
    {
      ScanBit(sb, blocks, used, b, bi);
    }
  }

  /** The loop of balloc over the bits of one map block. */
  method ScanBits(bp: Bytes, ghost used: seq<bool>, b: nat, n: nat) returns (found: bool, bi: nat)
    requires MapOf(bp, used, b, n)
    ensures found ==> bi < BPB && b + bi < n && !used[b + bi]
    ensures forall j :: 0 <= j < (if found then bi else BPB) && b + j < n ==> !BitAt(bp, j)
  {
    bi := 0;
    while bi < BPB && b + bi < n
      invariant bi <= BPB
      invariant forall j :: 0 <= j < bi && b + j < n ==> !BitAt(bp, j)
    {
      assert BitAt(bp, bi) || !BitAt(bp, bi);
      if ClearIn(bp, bi) {
        return true, bi;
      }
      bi := bi + 1;
    }
    return false, bi;
  }

  lemma BitsUsed(bp: Bytes, used: seq<bool>, b: nat, n: nat, k: nat)
    requires MapOf(bp, used, b, n) && k <= BPB && forall j :: 0 <= j < k && b + j < n ==> !BitAt(bp, j)
    ensures forall x :: b <= x < n && x < b + k ==> used[x]
  {
    forall x | b <= x < n && x < b + k
      ensures used[x]
    {
      assert !BitAt(bp, x - b);
    }
  }

  class BlockMap {
    const sb: Super
    var blocks: seq<Bytes> // block contents as bread sees them
    ghost var used: seq<bool>
    ghost var begun: seq<Bytes> // blocks at begin_op
    ghost var logged: set<int> // blocks passed to log_write since begin_op

    ghost predicate Valid()
      reads this
    {
      MapRep(sb, blocks, used) && LogOk(sb, begun, blocks, logged)
    }

    /** begin_op: a new operation, which has logged nothing. */
    ghost method BeginOp()
      requires Valid()
      modifies this`begun, this`logged
      ensures Valid() && begun == blocks && logged == {}
    {
      begun, logged := blocks, {};
    }

    ghost predicate Full()
      reads this
    {
      forall x :: 0 <= x < |used| ==> used[x]
    }

    /** Set the map bit of b as `|= m` does, then log the map block. */
    method Mark(b: nat)
      requires Valid() && b < sb.size
      modifies this`blocks, this`used, this`logged
      ensures Valid() && used == old(used)[b := true]
      ensures forall x :: sb.datastart <= x < sb.size ==> blocks[x] == old(blocks)[x]
      ensures logged == old(logged) + {sb.MapBlock(b)}
    {
      var bp := blocks[sb.MapBlock(b)];
      SetRep(sb, blocks, used, b);
      MapBlockIn(sb, b);
      LogSet(sb, begun, blocks, logged, sb.MapBlock(b), bp[b % 8192 / 8 := OrBit(bp[b % 8192 / 8], b % 8192 % 8)]);
      blocks := blocks[sb.MapBlock(b) := bp[b % 8192 / 8 := OrBit(bp[b % 8192 / 8], b % 8192 % 8)]];
      used := used[b := true];
      logged := logged + {sb.MapBlock(b)};
    }

    /** Clear the map bit of b as `&= ~m` does, then log the map block. */
    method Unmark(b: nat)
      requires Valid() && sb.datastart <= b < sb.size
      modifies this`blocks, this`used, this`logged
      ensures Valid() && used == old(used)[b := false]
      ensures forall x :: sb.datastart <= x < sb.size ==> blocks[x] == old(blocks)[x]
      ensures logged == old(logged) + {sb.MapBlock(b)}
    {
      var bp := blocks[sb.MapBlock(b)];
      ClearRep(sb, blocks, used, b);
      MapBlockIn(sb, b);
      LogSet(sb, begun, blocks, logged, sb.MapBlock(b), bp[b % 8192 / 8 := ClearBit(bp[b % 8192 / 8], b % 8192 % 8)]);
      blocks := blocks[sb.MapBlock(b) := bp[b % 8192 / 8 := ClearBit(bp[b % 8192 / 8], b % 8192 % 8)]];
      used := used[b := false];
      logged := logged + {sb.MapBlock(b)};
    }

    /** bzero */
    method Bzero(b: nat)
      requires Valid() && sb.datastart <= b < sb.size
      modifies this`blocks, this`logged
      ensures Valid() && blocks == old(blocks)[b := Zeros()] && logged == old(logged) + {b as int}
    {
      MapKept(sb, blocks, used, b, Zeros());
      LogSet(sb, begun, blocks, logged, b, Zeros());
      blocks := blocks[b := Zeros()];
      logged := logged + {b as int};
    }

    /** The inner loop of balloc: the first clear bit of the map block for blocks b.., if any. */
    method Scan(b: nat) returns (found: bool, bi: nat)
      requires Valid() && b % 8192 == 0 && b < sb.size
      ensures found ==> bi < BPB && b + bi < sb.size && !used[b + bi]
      ensures forall x :: b <= x < sb.size && (if found then x < b + bi else x < b + BPB) ==> used[x]
    {
      MapBlockIn(sb, b);
      MapBits(sb, blocks, used, b);
      found, bi := ScanBits(blocks[sb.MapBlock(b)], used, b, sb.size);
      BitsUsed(blocks[sb.MapBlock(b)], used, b, sb.size, if found then bi else BPB);
    }

    /** Allocate the lowest free block, zeroed; 0 exactly when no block is free. */
    method Balloc() returns (r: nat)
      requires Valid()
      modifies this`blocks, this`used, this`logged
      ensures Valid()
      ensures r == 0 ==> blocks == old(blocks) && used == old(used) && logged == old(logged) && Full()
      ensures r != 0 ==> Fresh(old(blocks), old(used), r) && logged == old(logged) + {sb.MapBlock(r), r as int}
      ensures r != 0 ==> forall x :: 0 <= x < r ==> old(used)[x]
    {
      var b := 0;
      while b < sb.size
        invariant Valid() && blocks == old(blocks) && used == old(used) && logged == old(logged)
        invariant b % 8192 == 0
        invariant forall x :: 0 <= x < b && x < sb.size ==> used[x]
      {
        var found, bi := Scan(b);
        if found {
          Mark(b + bi);
          Bzero(b + bi);
          return b + bi;
        }
        b := b + BPB;
      }
      return 0;
    }

    /** Block r was free; now it is in use and zeroed and no other data block has changed. */
    ghost predicate Fresh(blocks0: seq<Bytes>, used0: seq<bool>, r: nat)
      reads this
    {
      && sb.datastart <= r < sb.size == |used0| == |blocks0| == |blocks|
      && !used0[r] && used == used0[r := true]
      && blocks[r] == Zeros()
      && forall x :: sb.datastart <= x < sb.size && x != r ==> blocks[x] == blocks0[x]
    }

    /** Free block b; panics exactly when it is already free. */
    method Bfree(b: nat) returns (panic: bool)
      requires Valid() && sb.datastart <= b < sb.size
      modifies this`blocks, this`used, this`logged
      ensures panic <==> !old(used)[b]
      ensures panic ==> blocks == old(blocks) && used == old(used) && logged == old(logged)
      ensures !panic ==> used == old(used)[b := false] && logged == old(logged) + {sb.MapBlock(b)}
      ensures Valid()
      ensures forall x :: sb.datastart <= x < sb.size ==> blocks[x] == old(blocks)[x]
    {
      var bp := blocks[sb.MapBlock(b)];
      assert used[b] == RawBit(sb, blocks, b);
      if !BitOf(bp[b % 8192 / 8], b % 8192 % 8) {
        return true;
      }
      Unmark(b);
      return false;
    }
  }
}
