/** Pipes (kernel/pipe.c): a ring of 512 bytes with two 32-bit counters that wrap. Each method is one
    stay inside the critical section, up to sleep or return; whether the caller is killed, and at which
    byte copyin or copyout fails, are parameters. */
module Pipe {
  import opened Guards

  type Byte = b: int | 0 <= b < 256

  // PIPESIZE is written with its value, 512.

  function Wrap(x: int): int {
    x % 0x1_0000_0000
  }

  /** The ring holds the bytes written and not yet taken. */
  ghost predicate Ring(data: seq<Byte>, nread: int, nwrite: int, wrote: seq<Byte>, taken: int) {
    && |data| == 512 && 0 <= taken <= |wrote| <= taken + 512
    && nwrite == Wrap(|wrote|) && nread == Wrap(taken)
    && forall t :: taken <= t < |wrote| ==> data[t % 512] == wrote[t]
  }

  lemma WrapSlot(x: nat)
    ensures Wrap(x) % 512 == x % 512 && Wrap(Wrap(x) + 1) == Wrap(x + 1)
  {
    var q := x / 0x1_0000_0000;
    assert x == 0x1_0000_0000 * q + Wrap(x);
    ModPlus(Wrap(x), 8388608 * q);
    WrapPlus(Wrap(x) + 1, q);
  }

  lemma ModPlus(r: nat, k: nat)
    ensures (r + 512 * k) % 512 == r % 512
  {
  }

  lemma WrapPlus(r: nat, k: nat)
    ensures Wrap(r + 0x1_0000_0000 * k) == Wrap(r)
  {
  }

  /** The tests on the wrapped counters mean full and empty. */
  lemma FullEmpty(data: seq<Byte>, nread: int, nwrite: int, wrote: seq<Byte>, taken: int)
    requires Ring(data, nread, nwrite, wrote, taken)
    ensures nwrite == Wrap(nread + 512) <==> |wrote| == taken + 512
    ensures nread == nwrite <==> |wrote| == taken
  {
  }

  lemma Put(data: seq<Byte>, nread: int, nwrite: int, wrote: seq<Byte>, taken: int, ch: Byte)
    requires Ring(data, nread, nwrite, wrote, taken) && |wrote| < taken + 512
    ensures Ring(data[nwrite % 512 := ch], nread, Wrap(nwrite + 1), wrote + [ch], taken)
  {
    WrapSlot(|wrote|);
    forall t | taken <= t < |wrote|
      ensures t % 512 != |wrote| % 512
    {
      NotSame(t, |wrote|);
    }
  }

  lemma NotSame(t: int, n: int)
    requires t < n < t + 512
    ensures t % 512 != n % 512
  {
  }

  lemma Take(data: seq<Byte>, nread: int, nwrite: int, wrote: seq<Byte>, taken: int)
    requires Ring(data, nread, nwrite, wrote, taken) && taken < |wrote|
    ensures data[nread % 512] == wrote[taken] && Ring(data, Wrap(nread + 1), nwrite, wrote, taken + 1)
  {
    WrapSlot(taken);
  }

  lemma Joined(s: seq<Byte>, src: seq<Byte>, i: nat, k: nat)
    requires i <= k < |src|
    ensures s + src[i..k] + [src[k]] == s + src[i..k + 1]
  {
  }

  datatype Result = Slept | Failed | Returned

  class Pipe {
    var data: seq<Byte>
    var nread: int
    var nwrite: int
    var readopen: bool
    var writeopen: bool
    ghost var wrote: seq<Byte> // every byte ever put in
    ghost var taken: nat // how many have been taken out
    ghost var delivered: seq<Byte> // the bytes that reached a reader
    ghost var lost: nat // bytes taken out whose copyout failed
    ghost var rAsleep: set<int> // threads asleep on nread
    ghost var wAsleep: set<int> // threads asleep on nwrite

    ghost predicate Ok()
      reads this
    {
      forall x {:trigger Shown(x)} :: Shown(x) ==>
        && Ring(data, nread, nwrite, wrote, taken)
        && |delivered| + lost == taken && (lost == 0 ==> delivered == wrote[..taken])
    }

    predicate IsFull()
      reads this
    {
      nwrite == Wrap(nread + 512)
    }

    predicate IsEmpty()
      reads this
    {
      nread == nwrite
    }

    /** What the tests on the counters mean. */
    lemma Counters()
      requires Ok()
      ensures taken <= |wrote| <= taken + 512
      ensures IsFull() <==> |wrote| == taken + 512
      ensures IsEmpty() <==> |wrote| == taken
    {
      assert Shown(true);
      FullEmpty(data, nread, nwrite, wrote, taken);
    }

    /** A sleeping reader means empty and open for writing, a sleeping writer full and open for reading. */
    ghost predicate Valid()
      reads this
    {
      && Ok()
      && (rAsleep != {} ==> |wrote| == taken && writeopen)
      && (wAsleep != {} ==> |wrote| == taken + 512 && readopen)
    }

    /** pipealloc */
    constructor ()
      ensures Valid() && wrote == [] && taken == 0 && delivered == [] && lost == 0 && readopen && writeopen && rAsleep == wAsleep == {}
    {
      data := seq(512, _ => 0);
      nread, nwrite, readopen, writeopen := 0, 0, true, true;
      wrote, taken, delivered, lost, rAsleep, wAsleep := [], 0, [], 0, {}, {};
    }

    /** Readers and writers never sleep at the same time. */
    lemma OneSideSleeps()
      requires Valid()
      ensures rAsleep == {} || wAsleep == {}
    {
    }

    /** As long as copyout never fails, the bytes read are the first bytes written, in order. */
    lemma ReadsArePrefix()
      requires Valid() && lost == 0
      ensures delivered <= wrote && |wrote| - |delivered| <= 512
    {
      assert Shown(true);
    }

    /** pipeclose; the page of the pipe is freed when both ends are closed. */
    method Close(writable: bool) returns (freed: bool)
      requires Valid()
      modifies this`readopen, this`writeopen, this`rAsleep, this`wAsleep
      ensures Valid()
      ensures readopen == (old(readopen) && writable) && writeopen == (old(writeopen) && !writable)
      ensures freed <==> !readopen && !writeopen
      ensures freed ==> rAsleep == {} && wAsleep == {}
    {
      if writable {
        writeopen, rAsleep := false, {};
      } else {
        readopen, wAsleep := false, {};
      }
      return !readopen && !writeopen;
    }

    method PutOne(ch: Byte)
      requires Ok() && |wrote| < taken + 512
      modifies this`data, this`nwrite, this`wrote
      ensures Ok() && wrote == old(wrote) + [ch]
    {
      assert Shown(true);
      Put(data, nread, nwrite, wrote, taken, ch);
      assert (wrote + [ch])[..taken] == wrote[..taken];
      data, nwrite, wrote := data[nwrite % 512 := ch], Wrap(nwrite + 1), wrote + [ch];
    }

    /** pipewrite from byte i on. copyin fails at byte number fault. Some of the bytes may have been
        put in when it sleeps; none when it fails. */
    method WritePass(p: int, src: seq<Byte>, i: nat, killed: bool, fault: nat) returns (r: Result, k: nat)
      requires Valid() && i <= |src|
      modifies this`data, this`nwrite, this`wrote, this`rAsleep, this`wAsleep
      ensures Valid() && i <= k <= |src| && wrote == old(wrote) + src[i..k]
      ensures r == Failed <==> i < |src| && (!readopen || killed)
      ensures r == Slept <==> i < |src| && readopen && !killed && Blocks(|src|, i, fault, 512 - (|old(wrote)| - taken))
      ensures r == Failed ==> k == i && wAsleep == old(wAsleep) && rAsleep == old(rAsleep)
      ensures r == Slept ==> k < |src| && wAsleep == old(wAsleep) + {p} && rAsleep == {}
      ensures r == Returned ==> (k == |src| || k == fault) && wAsleep == old(wAsleep) && rAsleep == {}
    {
      k := i;
      while k < |src|
        invariant Ok() && i <= k <= |src| && wrote == old(wrote) + src[i..k]
        invariant k > i ==> readopen && !killed && wAsleep == {}
        invariant wAsleep == old(wAsleep) && rAsleep == old(rAsleep) && !(i <= fault < k)
      {
        if !readopen || killed {
          return Failed, k;
        }
        Counters();
        if IsFull() {
          rAsleep, wAsleep := {}, wAsleep + {p};
          return Slept, k;
        }
        if k == fault {
          break;
        }
        PutOne(src[k]);
        Joined(old(wrote), src, i, k);
        k := k + 1;
      }
      Counters();
      rAsleep := {};
      return Returned, k;
    }

    /** piperead of at most n bytes. copyout fails at byte number fault: that byte is gone. */
    method ReadPass(p: int, n: nat, killed: bool, fault: nat) returns (r: Result, got: seq<Byte>)
      requires Valid()
      modifies this`nread, this`taken, this`delivered, this`lost, this`rAsleep, this`wAsleep
      ensures Valid() && delivered == old(delivered) + got && |got| <= n
      ensures r == Returned <==> |wrote| > old(taken) || !writeopen
      ensures r == Returned ==> |got| == Least(n, Least(fault, |wrote| - old(taken))) && wAsleep == {}
      ensures taken == old(taken) + |got| + lost - old(lost)
      ensures r == Returned ==> lost == old(lost) + if fault == |got| < n && fault < |wrote| - old(taken) then 1 else 0
      ensures r != Returned ==> got == [] && |wrote| == taken == old(taken) && writeopen && lost == old(lost)
      ensures r == Failed ==> killed && rAsleep == old(rAsleep) && wAsleep == old(wAsleep)
      ensures r == Slept ==> !killed && rAsleep == old(rAsleep) + {p} && wAsleep == old(wAsleep)
      ensures old(taken) + |got| <= |wrote| && got == wrote[old(taken)..old(taken) + |got|]
    {
      got := [];
      Counters();
      if IsEmpty() && writeopen {
        if killed {
          return Failed, got;
        }
        rAsleep := rAsleep + {p};
        return Slept, got;
      }
      got := Drain(n, fault);
      wAsleep := {};
      return Returned, got;
    }

    /** The loop of piperead. */
    method Drain(n: nat, fault: nat) returns (got: seq<Byte>)
      requires Ok()
      modifies this`nread, this`taken, this`delivered, this`lost
      ensures Ok() && delivered == old(delivered) + got
      ensures |got| == Least(n, Least(fault, |wrote| - old(taken)))
      ensures lost == old(lost) + if fault == |got| < n && fault < |wrote| - old(taken) then 1 else 0
      ensures taken == old(taken) + |got| + lost - old(lost)
      ensures old(taken) + |got| <= |wrote| && got == wrote[old(taken)..old(taken) + |got|]
    {
      got := [];
      var i := 0;
      Counters();
      while i < n
        invariant 0 <= i <= n && i == |got| <= fault && Ok() && taken == old(taken) + i <= |wrote| && lost == old(lost)
        invariant delivered == old(delivered) + got && got == wrote[old(taken)..taken]
      {
        Counters();
        if IsEmpty() {
          break;
        }
        var ch := TakeOne(i == fault);
        if i == fault {
          break;
        }
        got := got + [ch];
        i := i + 1;
      }
      Counters();
    }

    /** Take the next byte and copy it out; a failure loses it. */
    method TakeOne(fails: bool) returns (ch: Byte)
      requires Ok() && taken < |wrote|
      modifies this`nread, this`taken, this`delivered, this`lost
      ensures Ok() && taken == old(taken) + 1 && ch == wrote[old(taken)]
      ensures delivered == old(delivered) + (if fails then [] else [ch])
      ensures lost == old(lost) + if fails then 1 else 0
    {
      assert Shown(true);
      Take(data, nread, nwrite, wrote, taken);
      ch := data[nread % 512];
      assert wrote[..taken] + [ch] == wrote[..taken + 1];
      nread, taken := Wrap(nread + 1), taken + 1;
      if fails {
        lost := lost + 1;
      } else {
        delivered := delivered + [ch];
      }
    }

    /** kill() wakes a sleeping thread. */
    method Wake(ghost p: int)
      requires Valid()
      modifies this`rAsleep, this`wAsleep
      ensures Valid() && rAsleep == old(rAsleep) - {p} && wAsleep == old(wAsleep) - {p}
    {
      rAsleep, wAsleep := rAsleep - {p}, wAsleep - {p};
    }
  }

  /** A writer with bytes i..n-1 left and this much room reaches a full pipe before its end or a fault. */
  predicate Blocks(n: int, i: int, fault: int, room: int) {
    i + room < n && !(i <= fault < i + room)
  }

  /** A copyout that fails takes a byte out of the pipe and the next reader does not get it: of the two
      different bytes written only the second is delivered. */
  method LosesByte(a: Byte, b: Byte) returns (p: Pipe)
    requires a != b
    ensures fresh(p) && p.Valid() && p.wrote == [a, b] && p.delivered == [b] && !(p.delivered <= p.wrote)
  {
    p := new Pipe();
    var w, k := p.WritePass(1, [a, b], 0, false, 2);
    assert w == Returned && p.wrote == [a, b];
    var r0, got0 := p.ReadPass(2, 1, false, 0);
    assert got0 == [] && p.taken == 1;
    var r1, got1 := p.ReadPass(2, 1, false, 1);
    assert got1 == [b];
    assert p.delivered[0] != p.wrote[0];
  }

  function Least(a: int, b: int): int {
    if a < b then a else b
  }
}
