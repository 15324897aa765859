/** The multi-level ready queue of kernel/proc.c: singly linked lists threaded through the process
    table, one per priority level, with a cached highest non-empty level and aging. */
module ReadyQueue {
  import opened Collections
  import opened Guards

  const NPROC: nat := 64
  const NPRIO: nat := 32
  const AGING_TICKS: nat := 20
  const NULL: int := -1 // a null struct proc *

  /** The lists as the sequences of process slots they hold. */
  type Queues = seq<seq<int>>

  /** Following rq_next from h visits s in order and ends at t. */
  ghost predicate IsList(next: seq<int>, h: int, t: int, s: seq<int>) {
    && h == (if s == [] then NULL else s[0])
    && t == (if s == [] then NULL else s[|s| - 1])
    && (forall i :: 0 <= i < |s| ==> 0 <= s[i] < |next|)
    && (forall i {:trigger next[s[i]]} :: 0 <= i < |s| ==> next[s[i]] == if i + 1 < |s| then s[i + 1] else NULL)
  }

  ghost predicate AllLists(next: seq<int>, head: seq<int>, tail: seq<int>, q: Queues) {
    && |head| == |tail| == |q| == NPRIO
    && forall l :: 0 <= l < NPRIO ==> IsList(next, head[l], tail[l], q[l])
  }

  /** Every queued process is in the queue of its own priority, once. */
  ghost predicate Filed(q: Queues, prio: seq<int>) {
    (&& (forall l, i :: 0 <= l < |q| && 0 <= i < |q[l]| ==> 0 <= q[l][i] < |prio| && prio[q[l][i]] == l)
     && (forall l :: 0 <= l < |q| ==> NoDup(q[l]))) == true
  }

  ghost predicate Queued(q: Queues, p: int) {
    exists l :: 0 <= l < |q| && p in q[l]
  }

  /** h is the least non-empty level, or -1 when there is none. */
  ghost predicate IsHighest(q: Queues, h: int) {
    && -1 <= h < |q|
    && (h >= 0 ==> q[h] != [])
    && (forall l :: 0 <= l < |q| && (h < 0 || l < h) ==> q[l] == [])
  }

  function Push(q: Queues, l: int, p: int): Queues
    requires 0 <= l < |q|
  {
    q[l := q[l] + [p]]
  }

  ghost function IndexIn(s: seq<int>, p: int): (i: int)
    requires p in s
    ensures 0 <= i < |s| && s[i] == p
  {
    var i :| 0 <= i < |s| && s[i] == p; i
  }

  /** s without p; s itself if p is not there. */
  ghost function Without(s: seq<int>, p: int): seq<int> {
    if p in s then s[..IndexIn(s, p)] + s[IndexIn(s, p) + 1..] else s
  }

  ghost function Drop(q: Queues, l: int, p: int): Queues
    requires 0 <= l < |q|
  {
    q[l := Without(q[l], p)]
  }

  // ----- Lists under pointer updates -----

  lemma ListFrame(next: seq<int>, h: int, t: int, s: seq<int>, p: int, v: int)
    requires IsList(next, h, t, s) && 0 <= p < |next| && p !in s
    ensures IsList(next[p := v], h, t, s)
  {
  }

  lemma ListPush(next: seq<int>, h: int, t: int, s: seq<int>, p: int)
    requires IsList(next, h, t, s) && NoDup(s) && 0 <= p < |next| && p !in s
    ensures s == [] ==> IsList(next[p := NULL], p, p, s + [p])
    ensures s != [] ==> 0 <= t < |next| && IsList(next[p := NULL][t := p], h, p, s + [p])
  {
  }

  lemma ListUnlink(next: seq<int>, h: int, t: int, s: seq<int>, i: nat)
    requires IsList(next, h, t, s) && NoDup(s) && i < |s|
    ensures var r := s[..i] + s[i + 1..];
            var next1 := if i > 0 then next[s[i - 1] := next[s[i]]] else next;
            IsList(next1[s[i] := NULL], if i > 0 then h else next[s[i]], if i + 1 < |s| then t else if i > 0 then s[i - 1] else NULL, r)
  {
    assert next[s[i]] == if i + 1 < |s| then s[i + 1] else NULL;
  }

  /** A process of another level is not in this list. */
  lemma OtherLevel(q: Queues, prio: seq<int>, l: int, p: int)
    requires Filed(q, prio) && 0 <= l < |q| && 0 <= p < |prio| && prio[p] != l
    ensures p !in q[l]
  {
  }

  lemma PushFiled(q: Queues, prio: seq<int>, l: int, p: int)
    requires Filed(q, prio) && 0 <= l < |q| && 0 <= p < |prio| && prio[p] == l && !Queued(q, p)
    ensures Filed(Push(q, l, p), prio)
  {
  }

  lemma DropFiled(q: Queues, prio: seq<int>, l: int, p: int)
    requires Filed(q, prio) && 0 <= l < |q| && 0 <= p < |prio| && prio[p] == l
    ensures Filed(Drop(q, l, p), prio) && !Queued(Drop(q, l, p), p)
  {
    forall k | 0 <= k < |q|
      ensures p !in Drop(q, l, p)[k]
    {
      if k != l {
        OtherLevel(q, prio, k, p);
      }
    }
  }

  /** Re-filing a process that is not queued. */
  lemma RefileFiled(q: Queues, prio: seq<int>, p: int, v: int)
    requires Filed(q, prio) && 0 <= p < |prio| && !Queued(q, p)
    ensures Filed(q, prio[p := v])
  {
    forall l, i | 0 <= l < |q| && 0 <= i < |q[l]|
      ensures q[l][i] != p
    {
      assert q[l][i] in q[l];
    }
  }

  // ----- Aging, level by level and process by process -----

  /** The ready queue as a value. */
  datatype Ready = Ready(q: Queues, prio: seq<int>, wait: seq<int>) {
    ghost predicate Valid() {
      |q| == NPRIO && |prio| == |wait| == NPROC && Filed(q, prio)
    }

    /** p is queued (in the queue of its own priority, the only place it can be). */
    ghost predicate In(p: int) {
      0 <= p < |prio| && 0 <= prio[p] < |q| && p in q[prio[p]]
    }

    /** This tick raises p by one level. */
    predicate Ripe(p: int)
      requires 0 <= p < |prio| && p < |wait|
    {
      wait[p] + 1 >= AGING_TICKS && prio[p] > 0
    }
  }

  lemma InIsQueued(r: Ready, p: int)
    requires r.Valid()
    ensures r.In(p) <==> Queued(r.q, p)
  {
    if Queued(r.q, p) {
      var l :| 0 <= l < |r.q| && p in r.q[l];
      assert r.q[l][IndexIn(r.q[l], p)] == p;
    }
  }

  ghost predicate Slots(s: seq<int>) {
    forall i :: 0 <= i < |s| ==> 0 <= s[i] < NPROC
  }

  /** The members of s that this tick leaves on their level, in order. */
  ghost function Stayers(r: Ready, s: seq<int>): seq<int>
    requires |r.prio| == |r.wait| == NPROC && Slots(s)
  {
    if s == [] then [] else
      Stayers(r, s[..|s| - 1]) + if r.Ripe(s[|s| - 1]) then [] else [s[|s| - 1]]
  }

  /** The members of s that this tick raises, in order. */
  ghost function Risers(r: Ready, s: seq<int>): seq<int>
    requires |r.prio| == |r.wait| == NPROC && Slots(s)
  {
    if s == [] then [] else
      Risers(r, s[..|s| - 1]) + if r.Ripe(s[|s| - 1]) then [s[|s| - 1]] else []
  }

  /** Level l once the levels below pr and the first i entries of level pr have been visited. */
  ghost function MidLevel(r: Ready, pr: nat, i: nat, l: nat): seq<int>
    requires r.Valid() && l < NPRIO && pr <= NPRIO && (pr < NPRIO ==> i <= |r.q[pr]|) && Slots(r.q[l]) && (l + 1 < NPRIO ==> Slots(r.q[l + 1]))
  {
    if l + 1 < pr then Stayers(r, r.q[l]) + Risers(r, r.q[l + 1])
    else if l + 1 == pr then Stayers(r, r.q[l]) + (if pr < NPRIO then Risers(r, r.q[pr][..i]) else [])
    else if l == pr then Stayers(r, r.q[l][..i]) + r.q[l][i..]
    else r.q[l]
  }

  ghost predicate Visited(r: Ready, pr: nat, i: nat, p: int)
    requires r.Valid() && (pr < NPRIO ==> i <= |r.q[pr]|)
  {
    r.In(p) && (r.prio[p] < pr || (r.prio[p] == pr && p in r.q[pr][..i]))
  }

  ghost function Mid(r: Ready, pr: nat, i: nat): (m: Ready)
    requires r.Valid() && pr <= NPRIO && (pr < NPRIO ==> i <= |r.q[pr]|)
  {
    Ready(
      seq(NPRIO, l requires 0 <= l < NPRIO => AllSlots(r); MidLevel(r, pr, i, l)),
      seq(NPROC, p requires 0 <= p < NPROC => if Visited(r, pr, i, p) && r.Ripe(p) then r.prio[p] - 1 else r.prio[p]),
      seq(NPROC, p requires 0 <= p < NPROC =>
        if !Visited(r, pr, i, p) then r.wait[p] else if r.Ripe(p) then 0 else r.wait[p] + 1))
  }

  lemma AllSlots(r: Ready)
    requires r.Valid()
    ensures forall l :: 0 <= l < NPRIO ==> Slots(r.q[l])
  {
  }

  /** prio_on_tick as one step on the whole queue: on every level those who stay keep their order,
      and those raised from the level below line up behind them. */
  ghost function Ticked(r: Ready): (t: Ready)
    requires r.Valid()
  {
    Ready(
      seq(NPRIO, l requires 0 <= l < NPRIO =>
        AllSlots(r); Stayers(r, r.q[l]) + if l + 1 < NPRIO then Risers(r, r.q[l + 1]) else []),
      seq(NPROC, p requires 0 <= p < NPROC => if r.In(p) && r.Ripe(p) then r.prio[p] - 1 else r.prio[p]),
      seq(NPROC, p requires 0 <= p < NPROC => if !r.In(p) then r.wait[p] else if r.Ripe(p) then 0 else r.wait[p] + 1))
  }

  lemma MidStart(r: Ready)
    requires r.Valid()
    ensures Mid(r, 0, 0) == r
  {
    AllSlots(r);
    forall l | 0 <= l < NPRIO
      ensures MidLevel(r, 0, 0, l) == r.q[l]
    {
      assert r.q[l][..0] == [] && [] + r.q[l][0..] == r.q[l];
    }
    assert Mid(r, 0, 0).q == r.q;
    assert Mid(r, 0, 0).prio == r.prio;
    assert Mid(r, 0, 0).wait == r.wait;
  }

  lemma MidEnd(r: Ready)
    requires r.Valid()
    ensures Mid(r, NPRIO, 0) == Ticked(r)
  {
    AllSlots(r);
    assert Mid(r, NPRIO, 0).q == Ticked(r).q;
    assert Mid(r, NPRIO, 0).prio == Ticked(r).prio;
    assert Mid(r, NPRIO, 0).wait == Ticked(r).wait;
  }

  lemma MidNextLevel(r: Ready, pr: nat)
    requires r.Valid() && pr < NPRIO
    ensures Mid(r, pr, |r.q[pr]|) == Mid(r, pr + 1, 0)
  {
    AllSlots(r);
    var s := r.q[pr];
    assert s[..|s|] == s && s[|s|..] == [];
    assert pr + 1 < NPRIO ==> Stayers(r, r.q[pr + 1][..0]) + r.q[pr + 1][0..] == r.q[pr + 1];
    var a, b := Mid(r, pr, |s|), Mid(r, pr + 1, 0);
    forall l | 0 <= l < NPRIO
      ensures a.q[l] == b.q[l]
    {
    }
    assert a.q == b.q;
    assert a.prio == b.prio;
    assert a.wait == b.wait;
  }

  lemma StayersOne(r: Ready, s: seq<int>, i: nat)
    requires |r.prio| == |r.wait| == NPROC && Slots(s) && i < |s|
    ensures Stayers(r, s[..i + 1]) == Stayers(r, s[..i]) + if r.Ripe(s[i]) then [] else [s[i]]
    ensures Risers(r, s[..i + 1]) == Risers(r, s[..i]) + if r.Ripe(s[i]) then [s[i]] else []
  {
    assert s[..i + 1][..i] == s[..i];
  }

  lemma {:induction false} StayersIn(r: Ready, s: seq<int>, p: int)
    requires |r.prio| == |r.wait| == NPROC && Slots(s)
    ensures p in Stayers(r, s) <==> p in s && !r.Ripe(p)
    ensures p in Risers(r, s) <==> p in s && r.Ripe(p)
  {
    if s != [] {
      var n := |s| - 1;
      StayersIn(r, s[..n], p);
      assert s == s[..n] + [s[n]];
    }
  }

  /** The list of level pr while it is being walked, and where the walk stands. */
  ghost function Walk(r: Ready, pr: nat, i: nat): seq<int>
    requires r.Valid() && pr < NPRIO && i <= |r.q[pr]| && Slots(r.q[pr])
  {
    Stayers(r, r.q[pr][..i]) + r.q[pr][i..]
  }

  lemma WithoutMiddle(a: seq<int>, p: int, b: seq<int>)
    requires p !in a && p !in b
    ensures Without(a + [p] + b, p) == a + b
  {
    var w := a + [p] + b;
    assert w[|a|] == p;
    assert IndexIn(w, p) == |a|;
    assert w[..|a|] == a && w[|a| + 1..] == b;
  }

  lemma WalkWithout(r: Ready, pr: nat, i: nat)
    requires r.Valid() && pr < NPRIO && i < |r.q[pr]| && Slots(r.q[pr])
    ensures r.Ripe(r.q[pr][i]) ==> Without(Walk(r, pr, i), r.q[pr][i]) == Walk(r, pr, i + 1)
    ensures !r.Ripe(r.q[pr][i]) ==> Walk(r, pr, i) == Walk(r, pr, i + 1)
  {
    var s, p := r.q[pr], r.q[pr][i];
    assert NoDup(s);
    StayersOne(r, s, i);
    Around(s, i);
    StayersIn(r, s[..i], p);
    PassOne(s, i, Stayers(r, s[..i]), Stayers(r, s[..i + 1]), r.Ripe(p));
  }

  /** Passing element i of s: a is what stays of those before it, a' what stays with it. */
  lemma PassOne(s: seq<int>, i: nat, a: seq<int>, a': seq<int>, rises: bool)
    requires i < |s| && NoDup(s) && s[i] !in a && a' == a + if rises then [] else [s[i]]
    ensures rises ==> Without(a + s[i..], s[i]) == a' + s[i + 1..]
    ensures !rises ==> a + s[i..] == a' + s[i + 1..]
  {
    Around(s, i);
    Middle(a, s[i], s[i + 1..]);
    assert a + [] == a;
  }

  lemma Middle(a: seq<int>, p: int, b: seq<int>)
    requires p !in a && p !in b
    ensures Without(a + ([p] + b), p) == a + b && a + ([p] + b) == (a + [p]) + b
  {
    AppendMiddle(a, p, b);
    WithoutMiddle(a, p, b);
  }

  lemma AppendMiddle(a: seq<int>, p: int, b: seq<int>)
    ensures a + ([p] + b) == a + [p] + b
  {
  }

  lemma Around(s: seq<int>, i: nat)
    requires NoDup(s) && i < |s|
    ensures s[i] !in s[..i] && s[i] !in s[i + 1..] && s[i..] == [s[i]] + s[i + 1..]
  {
  }

  /** Visiting one more process: raise it, or only count the tick. */
  ghost function Visit(a: Ready, pr: nat, p: int): Ready
    requires |a.q| == NPRIO && pr < NPRIO && 0 <= p < NPROC && |a.prio| == |a.wait| == NPROC
  {
    if a.Ripe(p) && pr > 0 then
      Ready(Push(Drop(a.q, pr, p), pr - 1, p), a.prio[p := a.prio[p] - 1], a.wait[p := 0])
    else a.(wait := a.wait[p := a.wait[p] + 1])
  }

  lemma MidLevelNext(r: Ready, pr: nat, i: nat, l: nat)
    requires r.Valid() && pr < NPRIO && i < |r.q[pr]| && l < NPRIO
    requires Slots(r.q[pr]) && Slots(r.q[l]) && (l + 1 < NPRIO ==> Slots(r.q[l + 1]))
    ensures var a, b, p := MidLevel(r, pr, i, l), MidLevel(r, pr, i + 1, l), r.q[pr][i];
            b == if !r.Ripe(p) then a else if l == pr then Without(a, p) else if l + 1 == pr then a + [p] else a
  {
    if l == pr {
      WalkWithout(r, pr, i);
    } else if l + 1 == pr {
      StayersOne(r, r.q[pr], i);
      var u, v := Stayers(r, r.q[l]), Risers(r, r.q[pr][..i]);
      assert u + (v + [r.q[pr][i]]) == (u + v) + [r.q[pr][i]];
    }
  }

  lemma MidQueues(r: Ready, pr: nat, i: nat)
    requires r.Valid() && pr < NPRIO && i < |r.q[pr]|
    ensures var a, b, p := Mid(r, pr, i).q, Mid(r, pr, i + 1).q, r.q[pr][i];
            if r.Ripe(p) then pr > 0 && b == Push(Drop(a, pr, p), pr - 1, p) else b == a
  {
    AllSlots(r);
    var a, b, p := Mid(r, pr, i).q, Mid(r, pr, i + 1).q, r.q[pr][i];
    forall l | 0 <= l < NPRIO
      ensures b[l] == if !r.Ripe(p) then a[l] else if l == pr then Without(a[l], p) else if l + 1 == pr then a[l] + [p] else a[l]
    {
      MidLevelNext(r, pr, i, l);
    }
  }

  lemma MidFields(r: Ready, pr: nat, i: nat)
    requires r.Valid() && pr < NPRIO && i < |r.q[pr]|
    ensures var a, b, p := Mid(r, pr, i), Mid(r, pr, i + 1), r.q[pr][i];
            && 0 <= p < NPROC && a.prio[p] == r.prio[p] == pr && a.wait[p] == r.wait[p]
            && b.prio == (if r.Ripe(p) then a.prio[p := a.prio[p] - 1] else a.prio)
            && b.wait == a.wait[p := if r.Ripe(p) then 0 else a.wait[p] + 1]
  {
    var s, p := r.q[pr], r.q[pr][i];
    assert NoDup(s);
    Around(s, i);
    forall x | 0 <= x < NPROC
      ensures Visited(r, pr, i + 1, x) <==> Visited(r, pr, i, x) || x == p
    {
      TakeOne(s, i, x);
    }
  }

  lemma TakeOne(s: seq<int>, i: nat, x: int)
    requires i < |s|
    ensures x in s[..i + 1] <==> x in s[..i] || x == s[i]
  {
    assert s[..i + 1] == s[..i] + [s[i]];
  }

  lemma MidNext(r: Ready, pr: nat, i: nat)
    requires r.Valid() && pr < NPRIO && i < |r.q[pr]|
    ensures 0 <= r.q[pr][i] < NPROC
    ensures Mid(r, pr, i + 1) == Visit(Mid(r, pr, i), pr, r.q[pr][i])
  {
    MidQueues(r, pr, i);
    MidFields(r, pr, i);
  }

  /** Where the walk finds its next process. */
  lemma WalkAt(r: Ready, pr: nat, i: nat)
    requires r.Valid() && pr < NPRIO && i < |r.q[pr]| && Slots(r.q[pr])
    ensures var (w, k) := (Walk(r, pr, i), |Stayers(r, r.q[pr][..i])|);
            && k < |w| && w[k] == r.q[pr][i]
            && (k + 1 < |w| <==> i + 1 < |r.q[pr]|)
            && (i + 1 < |r.q[pr]| ==> w[k + 1] == r.q[pr][i + 1])
  {
  }

  // ----- Enqueue, pick -----

  ghost function Enqueued(r: Ready, p: int): Ready
    requires |r.q| == NPRIO && |r.prio| == |r.wait| == NPROC && 0 <= p < NPROC && 0 <= r.prio[p] < NPRIO
  {
    Ready(Push(r.q, r.prio[p], p), r.prio, r.wait[p := 0])
  }

  ghost function Popped(q: Queues, h: int): Queues
    requires 0 <= h < |q| && q[h] != []
  {
    q[h := q[h][1..]]
  }

  lemma WithoutHead(s: seq<int>)
    requires s != [] && NoDup(s)
    ensures Without(s, s[0]) == s[1..]
  {
    assert IndexIn(s, s[0]) == 0;
  }

  lemma UpdateTwice(s: seq<int>, i: int, x: int, y: int)
    requires 0 <= i < |s|
    ensures s[i := x][i := y] == s[i := y]
  {
  }

  class ReadyQueues {
    var next: seq<int> // p->rq_next
    var prio: seq<int> // p->prio
    var wait: seq<int> // p->wait_ticks
    var head: seq<int> // runq.q[l].head
    var tail: seq<int> // runq.q[l].tail
    var highest: int // runq.highest_nonempty
    ghost var q: Queues

    ghost predicate Valid()
      reads this
    {
      && |next| == |prio| == |wait| == NPROC && |head| == |tail| == |q| == NPRIO
      && Filed(q, prio)
      && IsHighest(q, highest)
      && Linked()
    }

    /** The links spell the lists q. */
    ghost predicate Linked()
      reads this
    {
      forall x {:trigger Opened(x)} :: Opened(x) ==> AllLists(next, head, tail, q)
    }

    constructor ()
      ensures Valid() && q == seq(NPRIO, _ => []) && prio == wait == seq(NPROC, _ => 0)
    {
      next := seq(NPROC, _ => NULL);
      prio := seq(NPROC, _ => 0);
      wait := seq(NPROC, _ => 0);
      head := seq(NPRIO, _ => NULL);
      tail := seq(NPRIO, _ => NULL);
      highest := -1;
      q := seq(NPRIO, _ => []);
    }

    method PushTail(l: int, p: int)
      requires Valid() && 0 <= l < NPRIO && 0 <= p < NPROC && prio[p] == l && !Queued(q, p)
      modifies this`next, this`head, this`tail, this`highest, this`q
      ensures Valid() && q == Push(old(q), l, p)
    {
      assert Opened(true);
      ListPush(next, head[l], tail[l], q[l], p);
      PushFrame(next, head, tail, q, prio, l, p);
      PushFiled(q, prio, l, p);
      next := next[p := NULL];
      if tail[l] != NULL {
        next := next[tail[l] := p];
        tail := tail[l := p];
      } else {
        head := head[l := p];
        tail := tail[l := p];
      }
      if highest < 0 || l < highest {
        highest := l;
      }
      q := Push(q, l, p);
    }

    ghost function Abs(): Ready
      reads this
    {
      Ready(q, prio, wait)
    }

    /** One turn of the inner loop of prio_on_tick, at entry i of the list r.q[pr] as it was before the tick. */
    method TickOne(pr: int, cur: int, ghost r: Ready, ghost i: nat) returns (nxt: int)
      requires Valid() && r.Valid() && 0 <= pr < NPRIO && i < |r.q[pr]|
      requires cur == r.q[pr][i] && Abs() == Mid(r, pr, i)
      modifies this
      ensures Valid() && Abs() == Mid(r, pr, i + 1)
      ensures nxt == if i + 1 < |r.q[pr]| then r.q[pr][i + 1] else NULL
    {
      MidNext(r, pr, i);
      MidFields(r, pr, i);
      UpdateTwice(wait, cur, wait[cur] + 1, 0);
      nxt := Follow(pr, cur, r, i);
      wait := wait[cur := wait[cur] + 1];
      if wait[cur] >= AGING_TICKS && prio[cur] > 0 {
        Raise(pr, cur);
      }
    }

    method Follow(pr: int, cur: int, ghost r: Ready, ghost i: nat) returns (nxt: int)
      requires Valid() && r.Valid() && 0 <= pr < NPRIO && i < |r.q[pr]|
      requires cur == r.q[pr][i] && q == Mid(r, pr, i).q
      ensures nxt == if i + 1 < |r.q[pr]| then r.q[pr][i + 1] else NULL
    {
      AllSlots(r);
      WalkAt(r, pr, i);
      assert Opened(true);
      assert q[pr] == Walk(r, pr, i) && IsList(next, head[pr], tail[pr], q[pr]);
      nxt := next[cur];
      assert next[q[pr][|Stayers(r, r.q[pr][..i])|]] == nxt;
    }

    /** Move cur from the tail of its wait to the tail of the next better level. */
    method Raise(pr: int, cur: int)
      requires Valid() && 0 < pr < NPRIO && 0 <= cur < NPROC && prio[cur] == pr
      modifies this
      ensures Valid() && q == Push(Drop(old(q), pr, cur), pr - 1, cur)
      ensures prio == old(prio)[cur := pr - 1] && wait == old(wait)[cur := 0]
    {
      Remove(pr, cur);
      RefileFiled(q, prio, cur, prio[cur] - 1);
      prio := prio[cur := prio[cur] - 1];
      wait := wait[cur := 0];
      PushTail(prio[cur], cur);
    }

    /** Aging on a timer tick: every queued process is visited once although the lists change under the walk. */
    method PrioOnTick()
      requires Valid()
      modifies this
      ensures Valid() && Abs() == Ticked(old(Abs()))
    {
      ghost var r := Abs();
      MidStart(r);
      for pr := 0 to NPRIO
        invariant Valid() && r == old(Abs()) && Abs() == Mid(r, pr, 0)
      {
        AllSlots(r);
        assert q[pr] == Walk(r, pr, 0) && r.q[pr][..0] == [] && q[pr] == r.q[pr];
        var cur := First(pr);
        ghost var i := 0;
        while cur != NULL
          invariant Valid() && 0 <= i <= |r.q[pr]| && Abs() == Mid(r, pr, i)
          invariant cur == if i < |r.q[pr]| then r.q[pr][i] else NULL
          decreases |r.q[pr]| - i
        {
          cur := TickOne(pr, cur, r, i);
          i := i + 1;
        }
        MidNextLevel(r, pr);
      }
      MidEnd(r);
    }

    method Successor(l: int, cur: int, ghost i: nat) returns (p: int)
      requires Valid() && 0 <= l < NPRIO && i < |q[l]| && cur == q[l][i]
      ensures p == if i + 1 < |q[l]| then q[l][i + 1] else NULL
    {
      assert Opened(true);
      assert IsList(next, head[l], tail[l], q[l]) && next[q[l][i]] == next[cur];
      p := next[cur];
    }

    method First(l: int) returns (p: int)
      requires Valid() && 0 <= l < NPRIO
      ensures p == if q[l] == [] then NULL else q[l][0]
    {
      assert Opened(true);
      assert IsList(next, head[l], tail[l], q[l]);
      p := head[l];
    }

    /** The body of the search loop of rq_remove once cur == p has been found at index i. */
    method Unlink(l: int, prev: int, cur: int, ghost i: nat)
      requires Valid() && 0 <= l < NPRIO && i < |q[l]|
      requires cur == q[l][i] && prev == if i > 0 then q[l][i - 1] else NULL
      modifies this`next, this`head, this`tail, this`q
      ensures |next| == NPROC && |head| == |tail| == |q| == NPRIO && Linked() && Filed(q, prio)
      ensures q == Drop(old(q), l, cur)
    {
      ghost var next1, head1, tail1 := UnlinkPlan(l, i);
      DropFiled(q, prio, l, cur);
      ghost var left := Drop(q, l, cur);
      if prev != NULL {
        next := next[prev := next[cur]];
      } else {
        head := head[l := next[cur]];
      }
      if tail[l] == cur {
        tail := tail[l := prev];
      }
      next := next[cur := NULL];
      assert next == next1 && head == head1 && tail == tail1;
      q := left;
    }

    /** What unlinking entry i of level l leads to. */
    lemma UnlinkPlan(l: int, i: nat) returns (next1: seq<int>, head1: seq<int>, tail1: seq<int>)
      requires Valid() && 0 <= l < NPRIO && i < |q[l]|
      ensures forall j :: 0 <= j < |q[l]| ==> 0 <= q[l][j] < NPROC
      ensures next1 == (if i > 0 then next[q[l][i - 1] := next[q[l][i]]] else next)[q[l][i] := NULL]
      ensures head1 == if i > 0 then head else head[l := next[q[l][i]]]
      ensures tail1 == if tail[l] == q[l][i] then tail[l := if i > 0 then q[l][i - 1] else NULL] else tail
      ensures AllLists(next1, head1, tail1, Drop(q, l, q[l][i]))
    {
      assert Opened(true);
      UnlinkAll(next, head, tail, q, prio, l, i);
      var s := q[l];
      next1 := NextAfter(next, s, i);
      head1 := if i > 0 then head else head[l := next[s[i]]];
      tail1 := if tail[l] == s[i] then tail[l := if i > 0 then s[i - 1] else NULL] else tail;
    }

    method Remove(l: int, p: int)
      requires Valid() && 0 <= l < NPRIO && 0 <= p < NPROC && prio[p] == l
      modifies this`next, this`head, this`tail, this`highest, this`q
      ensures Valid() && q == Drop(old(q), l, p) && !Queued(q, p)
    {
      DropFiled(q, prio, l, p);
      var prev := NULL;
      var cur := First(l);
      ghost var i := 0;
      while cur != NULL
        invariant Valid() && q == old(q) && 0 <= i <= |q[l]|
        invariant cur == if i < |q[l]| then q[l][i] else NULL
        invariant prev == if i > 0 then q[l][i - 1] else NULL
        invariant p !in q[l][..i]
        decreases |q[l]| - i
      {
        if cur == p {
          Unlink(l, prev, cur, i);
          break;
        }
        prev := cur;
        cur := Successor(l, cur, i);
        i := i + 1;
      }
      assert q == Drop(old(q), l, p);
      FixHighest(l);
    }

    method PrioEnqueue(p: int)
      requires Valid() && 0 <= p < NPROC && 0 <= prio[p] < NPRIO && !Queued(q, p)
      modifies this
      ensures Valid() && Abs() == Enqueued(old(Abs()), p)
    {
      wait := wait[p := 0];
      PushTail(prio[p], p);
    }

    /** Take the head of the best non-empty level, or NULL when all are empty. */
    method PrioPickNext() returns (p: int)
      requires Valid()
      modifies this
      ensures Valid() && prio == old(prio) && wait == old(wait)
      ensures p == NULL ==> old(highest) == -1 && q == old(q)
      ensures p != NULL ==> old(highest) >= 0 && old(q)[old(highest)] != [] && p == old(q)[old(highest)][0] && q == Popped(old(q), old(highest))
    {
      var h := highest;
      if h < 0 {
        return NULL;
      }
      p := First(h);
      WithoutHead(q[h]);
      assert prio[q[h][0]] == h;
      if p != NULL {
        Remove(h, p);
      }
    }

    /** The tail of rq_remove: rescan for the highest level if level l ran empty. */
    method FixHighest(l: int)
      requires 0 <= l < NPRIO && |next| == |prio| == |wait| == NPROC && |head| == |tail| == |q| == NPRIO
      requires Linked() && Filed(q, prio)
      requires -1 <= highest < NPRIO
      requires highest >= 0 && highest != l ==> q[highest] != []
      requires forall k :: 0 <= k < NPRIO && (highest < 0 || k < highest) ==> q[k] == []
      modifies this`highest
      ensures Valid()
    {
      assert Opened(true);
      assert forall k :: 0 <= k < NPRIO ==> IsList(next, head[k], tail[k], q[k]);
      if head[l] == NULL {
        if highest == l {
          var h := -1;
          for i := 0 to NPRIO
            invariant h == -1 && forall k :: 0 <= k < i ==> q[k] == []
          {
            if head[i] != NULL {
              h := i;
              break;
            }
          }
          highest := h;
        }
      }
    }
  }

  /** The pointers after unlinking entry i of level l, whose list is s. */
  ghost function NextAfter(next: seq<int>, s: seq<int>, i: nat): seq<int>
    requires i < |s| && forall j :: 0 <= j < |s| ==> 0 <= s[j] < |next|
  {
    (if i > 0 then next[s[i - 1] := next[s[i]]] else next)[s[i] := NULL]
  }

  /** Unlinking from level l leaves the lists of the other levels. */
  lemma UnlinkOther(next: seq<int>, head: seq<int>, tail: seq<int>, q: Queues, prio: seq<int>, l: int, i: nat, k: int)
    requires AllLists(next, head, tail, q) && Filed(q, prio) && |prio| == |next|
    requires 0 <= l < NPRIO && i < |q[l]| && 0 <= k < NPRIO && k != l
    requires IsList(next, head[l], tail[l], q[l])
    ensures IsList(NextAfter(next, q[l], i), head[k], tail[k], q[k])
  {
    var s := q[l];
    assert IsList(next, head[k], tail[k], q[k]);
    if i > 0 {
      OtherLevel(q, prio, k, s[i - 1]);
      ListFrame(next, head[k], tail[k], q[k], s[i - 1], next[s[i]]);
    }
    OtherLevel(q, prio, k, s[i]);
    ListFrame(if i > 0 then next[s[i - 1] := next[s[i]]] else next, head[k], tail[k], q[k], s[i], NULL);
  }

  /** Unlinking entry i of level l takes it off that list and touches no other. */
  lemma UnlinkAll(next: seq<int>, head: seq<int>, tail: seq<int>, q: Queues, prio: seq<int>, l: int, i: nat)
    requires AllLists(next, head, tail, q) && Filed(q, prio) && |prio| == |next|
    requires 0 <= l < NPRIO && i < |q[l]|
    ensures IsList(next, head[l], tail[l], q[l])
    ensures var s := q[l];
            AllLists(NextAfter(next, s, i), if i > 0 then head else head[l := next[s[i]]],
                     if tail[l] == s[i] then tail[l := if i > 0 then s[i - 1] else NULL] else tail, Drop(q, l, s[i]))
  {
    assert IsList(next, head[l], tail[l], q[l]) && NoDup(q[l]);
    UnlinkSame(next, head[l], tail[l], q[l], i);
    forall k | 0 <= k < NPRIO && k != l
      ensures IsList(NextAfter(next, q[l], i), head[k], tail[k], q[k])
    {
      UnlinkOther(next, head, tail, q, prio, l, i, k);
    }
  }

  /** The list itself. */
  lemma UnlinkSame(next: seq<int>, h: int, t: int, s: seq<int>, i: nat)
    requires IsList(next, h, t, s) && NoDup(s) && i < |s|
    ensures IsList(NextAfter(next, s, i), if i > 0 then h else next[s[i]],
                   if t == s[i] then (if i > 0 then s[i - 1] else NULL) else t, Without(s, s[i]))
  {
    assert IndexIn(s, s[i]) == i;
    ListUnlink(next, h, t, s, i);
  }

  /** Pushing p on level l touches no other list. */
  lemma PushFrame(next: seq<int>, head: seq<int>, tail: seq<int>, q: Queues, prio: seq<int>, l: int, p: int)
    requires AllLists(next, head, tail, q) && Filed(q, prio) && |prio| == |next|
    requires 0 <= l < NPRIO && 0 <= p < |next| && prio[p] == l
    ensures forall k :: 0 <= k < NPRIO && k != l ==>
                          && IsList(next[p := NULL], head[k], tail[k], q[k])
                          && (tail[l] != NULL ==> 0 <= tail[l] < |next| && IsList(next[p := NULL][tail[l] := p], head[k], tail[k], q[k]))
  {
    forall k | 0 <= k < NPRIO && k != l
      ensures IsList(next[p := NULL], head[k], tail[k], q[k])
      ensures tail[l] != NULL ==> 0 <= tail[l] < |next| && IsList(next[p := NULL][tail[l] := p], head[k], tail[k], q[k])
    {
      OtherLevel(q, prio, k, p);
      ListFrame(next, head[k], tail[k], q[k], p, NULL);
      if tail[l] != NULL {
        assert IsList(next, head[l], tail[l], q[l]);
        assert tail[l] == q[l][|q[l]| - 1];
        OtherLevel(q, prio, k, tail[l]);
        ListFrame(next[p := NULL], head[k], tail[k], q[k], tail[l], p);
      }
    }
  }
}
