/** A run from boot into the starving family: initproc forks 20 children; after 20 timer ticks the last
    of them has waited long enough to rise to level 19, where it runs alone while initproc and the
    other children are queued at level 20. */
module StarvingRun {
  import opened Guards
  import opened ReadyQueue
  import opened Scheduler
  import opened Fairness
  import opened Starvation

  const CHILDREN: nat := 20

  /** Only the default level is in use, and it holds s. */
  ghost predicate OneLevel(r: Ready, s: seq<int>) {
    |r.q| == NPRIO && r.q[20] == s && forall l :: 0 <= l < NPRIO && l != 20 ==> r.q[l] == []
  }

  /** Slots 0..n-1 are in use; one process runs and the others are ready. */
  ghost predicate Occupied(state: seq<PState>, n: nat, cur: int) {
    |state| == NPROC && forall p :: 0 <= p < NPROC ==> state[p] == if p >= n then UNUSED else if p == cur then RUNNING else RUNNABLE
  }

  /** They are at the default level, apart from the idle process in slot 1. */
  ghost predicate AtDefault(prio: seq<int>, n: nat) {
    |prio| == NPROC && forall p :: 0 <= p < NPROC && p < n && p != 1 ==> prio[p] == 20
  }

  ghost predicate Crowd(s: Sched, n: nat, cur: int) {
    && SInv(s) && s.idle == 1 && s.cur == cur != 1 && !s.pending
    && Occupied(s.state, n, cur) && AtDefault(s.r.prio, n) && s.killed == seq(NPROC, _ => false)
  }

  // ----- Forking -----

  function FirstSlots(k: nat): seq<int> {
    seq(k, i => i + 2)
  }

  /** initproc has forked k children, in slots 2..k+1. */
  ghost predicate Forking(s: Sched, k: nat) {
    forall x {:trigger Opened(x)} :: Opened(x) ==>
      && Crowd(s, k + 2, 0) && OneLevel(s.r, FirstSlots(k))
      && forall p :: 2 <= p < k + 2 && p < NPROC ==> s.r.wait[p] == 0
  }

  lemma BootQueue()
    ensures var s := Boot(0, 1);
            && s.r.q[20] == [0] && s.Typed() && (forall p :: s.r.In(p) <==> p == 0) && IsHighest(s.r.q, 20)
            && (forall l :: 20 < l < NPRIO ==> s.r.q[l] == []) && s.r.prio[0] == 20
  {
    assert Boot(0, 1).r.q[20] == [0];
  }

  lemma Booted() returns (s: Sched)
    ensures s == Boot(0, 1) && SInv(s) && Enabled(s, IdleLoop) && Forking(After(s, IdleLoop), 0)
  {
    s := Boot(0, 1);
    BootQueue();
    BootInv(s, 0);
    InitRuns(s);
  }

  /** initproc, alone in the queue, is picked. */
  lemma InitRuns(s: Sched)
    requires SInv(s) && s.cur == s.idle == 1 && s.r.q[20] == [0] && IsHighest(s.r.q, 20) && !s.pending && s.r.prio[0] == 20
    requires forall l :: 20 < l < NPRIO ==> s.r.q[l] == []
    requires s.killed == seq(NPROC, _ => false) && s.state == seq(NPROC, _ => UNUSED)[0 := RUNNABLE][1 := RUNNABLE]
    ensures Enabled(s, IdleLoop) && Forking(After(s, IdleLoop), 0)
  {
    BestUnique(s.r.q, 20);
    QueueOk(s);
    DispatchPicks(s);
    assert After(s, IdleLoop) == Dispatched(s);
    assert Popped(s.r.q, 20)[20] == [] == FirstSlots(0);
  }

  lemma ForkTakes(s: Sched, k: nat)
    requires Forking(s, k) && k < CHILDREN
    ensures SInv(s) && Enabled(s, ForkAlloc(k + 2)) && After(s, ForkAlloc(k + 2)) == Refiled(s, k + 2, USED, 20)
    ensures SInv(Refiled(s, k + 2, USED, 20)) && Enabled(Refiled(s, k + 2, USED, 20), ForkStart(k + 2))
  {
    assert Opened(true);
    Absent(s, k + 2);
    RefiledInv(s, k + 2, USED, 20);
  }

  lemma ForkStarts(s: Sched, k: nat)
    requires Forking(s, k) && k < CHILDREN && s.Typed() && SInv(Refiled(s, k + 2, USED, 20))
    requires Enabled(Refiled(s, k + 2, USED, 20), ForkStart(k + 2))
    ensures Forking(After(Refiled(s, k + 2, USED, 20), ForkStart(k + 2)), k + 1)
  {
    assert Opened(true);
    var t, c := Refiled(s, k + 2, USED, 20), k + 2;
    assert t.r.prio[t.cur] == 20;
    assert Refiled(t, c, USED, 20) == t;
    var u := After(t, ForkStart(c));
    assert u == MakeReady(t, c);
    assert u.r.q[20] == FirstSlots(k) + [c] == FirstSlots(k + 1);
  }

  lemma {:induction false} Forks(s: Sched, es0: seq<Event>, k: nat) returns (es: seq<Event>)
    requires SInv(s) && k <= CHILDREN && Forking(Exec(s, es0), 0)
    ensures Forking(Exec(s, es), k)
  {
    if k == 0 {
      es := es0;
    } else {
      es := Forks(s, es0, k - 1);
      es := ForkStep(s, es, k - 1);
    }
  }

  lemma ForkStep(s: Sched, es: seq<Event>, k: nat) returns (fs: seq<Event>)
    requires SInv(s) && k < CHILDREN && Forking(Exec(s, es), k)
    ensures Forking(Exec(s, fs), k + 1)
  {
    ForkTakes(Exec(s, es), k);
    ForkStarts(Exec(s, es), k);
    RunOne(s, es, ForkAlloc(k + 2));
    fs := es + [ForkAlloc(k + 2)];
    RunOne(s, fs, ForkStart(k + 2));
    fs := fs + [ForkStart(k + 2)];
  }

  lemma RunOne(s: Sched, es: seq<Event>, e: Event)
    requires SInv(s)
    ensures Exec(s, es + [e]) == After(Exec(s, es), e)
  {
    assert (es + [e])[..|es|] == es;
  }

  // ----- Ticking -----

  /** The queue after t ticks: the children that have not run, initproc, the children that have. */
  function Order(t: nat): seq<int> {
    seq(CHILDREN, i => if i < 20 - t then t + 2 + i else if i == 20 - t then 0 else i - (20 - t) + 1)
  }

  function Runner(t: nat): int {
    if t == 0 then 0 else t + 1
  }

  /** t ticks after the last fork. Who has not run yet has waited for all of them. */
  ghost predicate Rotating(s: Sched, t: nat) {
    forall x {:trigger Opened(x)} :: Opened(x) ==> Crowd(s, 22, Runner(t)) && OneLevel(s.r, Order(t)) && Waited(s.r.wait, t)
  }

  ghost predicate Waited(wait: seq<int>, t: nat) {
    && |wait| == NPROC
    && (forall p :: t + 2 <= p < 22 ==> wait[p] == t)
    && (forall p :: 0 <= p < t + 2 && p < 22 && p != 1 && p != Runner(t) ==> 0 <= wait[p] < t)
  }

  lemma FirstTick(s: Sched)
    requires Forking(s, CHILDREN)
    ensures Rotating(s, 0)
  {
    assert Opened(true);
    assert FirstSlots(CHILDREN) == Order(0);
  }

  lemma OrderNext(t: nat)
    requires t < CHILDREN
    ensures Order(t)[0] == t + 2 && Order(t)[1..] + [Runner(t)] == Order(t + 1)
  {
  }

  lemma {:induction false} NoneRise(r: Ready, s: seq<int>)
    requires |r.prio| == |r.wait| == NPROC && Slots(s) && forall i :: 0 <= i < |s| ==> !r.Ripe(s[i])
    ensures Risers(r, s) == []
  {
    if s != [] {
      NoneRise(r, s[..|s| - 1]);
    }
  }

  lemma {:induction false} OnlyHeadRises(r: Ready, s: seq<int>)
    requires |r.prio| == |r.wait| == NPROC && Slots(s) && s != [] && r.Ripe(s[0]) && forall i :: 0 < i < |s| ==> !r.Ripe(s[i])
    ensures Stayers(r, s) == s[1..] && Risers(r, s) == [s[0]]
  {
    if |s| > 1 {
      OnlyHeadRises(r, s[..|s| - 1]);
      assert s[1..] == s[..|s| - 1][1..] + [s[|s| - 1]];
    } else {
      assert s[..0] == [];
    }
  }

  lemma InLevel(r: Ready, s: seq<int>, p: int)
    requires r.Valid() && OneLevel(r, s)
    ensures r.In(p) <==> p in s
  {
    if p in s {
      assert r.q[20][IndexIn(s, p)] == p;
    }
  }

  /** Aging while nobody is ripe only counts. */
  lemma TickCounts(r: Ready, s: seq<int>)
    requires r.Valid() && OneLevel(r, s) && Slots(s) && forall i :: 0 <= i < |s| ==> !r.Ripe(s[i])
    ensures Ticked(r).prio == r.prio && Ticked(r).q == r.q
    ensures |Ticked(r).wait| == NPROC && forall p :: 0 <= p < NPROC && p in s ==> Ticked(r).wait[p] == r.wait[p] + 1
  {
    forall p | 0 <= p < NPROC
      ensures Ticked(r).prio[p] == r.prio[p] && (p in s ==> Ticked(r).wait[p] == r.wait[p] + 1)
    {
      TickOneCount(r, s, p);
    }
    forall l | 0 <= l < NPRIO
      ensures Ticked(r).q[l] == r.q[l]
    {
      LevelSame(r, s, l);
    }
  }

  lemma TickOneCount(r: Ready, s: seq<int>, p: int)
    requires r.Valid() && OneLevel(r, s) && Slots(s) && 0 <= p < NPROC && forall i :: 0 <= i < |s| ==> !r.Ripe(s[i])
    ensures Ticked(r).prio[p] == r.prio[p] && (p in s ==> Ticked(r).wait[p] == r.wait[p] + 1)
  {
    InLevel(r, s, p);
    if p in s {
      assert s[IndexIn(s, p)] == p;
    }
  }

  lemma LevelSame(r: Ready, s: seq<int>, l: nat)
    requires r.Valid() && OneLevel(r, s) && Slots(s) && l < NPRIO && forall i :: 0 <= i < |s| ==> !r.Ripe(s[i])
    ensures Ticked(r).q[l] == r.q[l]
  {
    TickedAt(r, l);
    NoneRipe(r, s);
    NoneRise(r, s);
    assert s + [] == s;
  }

  lemma TickedAt(r: Ready, l: nat)
    requires r.Valid() && l < NPRIO
    ensures Slots(r.q[l]) && (l + 1 < NPRIO ==> Slots(r.q[l + 1]))
    ensures Ticked(r).q[l] == Stayers(r, r.q[l]) + if l + 1 < NPRIO then Risers(r, r.q[l + 1]) else []
  {
    AllSlots(r);
  }

  /** Aging when only the head of the queue is ripe: it rises one level. */
  lemma TickRaises(r: Ready, s: seq<int>)
    requires r.Valid() && OneLevel(r, s) && s != [] && forall i :: 0 <= i < |s| ==> 0 <= s[i] < NPROC && (r.Ripe(s[i]) <==> i == 0)
    ensures var t := Ticked(r);
            && |t.q| == NPRIO && t.q[19] == [s[0]] && t.q[20] == s[1..] && (forall l :: 0 <= l < 19 ==> t.q[l] == [])
            && (forall p :: 0 <= p < NPROC && p != s[0] ==> t.prio[p] == r.prio[p]) && t.prio[s[0]] == 19
  {
    AllSlots(r);
    OnlyHeadRises(r, s);
    forall p | 0 <= p < NPROC && r.In(p)
      ensures r.Ripe(p) <==> p == s[0]
    {
      assert s[IndexIn(s, p)] == p;
    }
    assert r.prio[s[0]] == 20 && r.In(s[0]);
    assert Ticked(r).q[19] == [] + [s[0]];
    assert Ticked(r).q[20] == s[1..] + [];
  }

  /** A tick on a process that is not killed, with nobody asleep, ages the queue and yields. */
  lemma TickYields(s: Sched, n: nat, cur: int, h: int)
    requires Crowd(s, n, cur) && 0 <= h <= 20 && SInv(Aged(s)) && IsHighest(Ticked(s.r).q, h) && Ticked(s.r).prio[cur] == 20
    ensures Enabled(s, UserTick) && After(s, UserTick) == Yielded(Aged(s))
  {
    forall p | 0 <= p < NPROC
      ensures !Wakes(s, TICKS, p)
    {
    }
    NobodyWakes(s, TICKS, NPROC);
    CurRuns(s);
    BestUnique(Ticked(s.r).q, h);
  }

  /** Yielding to the head of the best level. */
  lemma YieldTo(a: Sched, h: int, p: int)
    requires SInv(a) && a.cur != a.idle && 0 <= h <= a.r.prio[a.cur] && a.r.q[h] != [] && p == a.r.q[h][0] != a.idle
    requires forall l :: 0 <= l < h ==> a.r.q[l] == []
    ensures var q := Push(a.r.q, a.r.prio[a.cur], a.cur);
            && q[h] != []
            && Yielded(a) == a.(cur := p, state := a.state[a.cur := RUNNABLE][p := RUNNING],
                                r := Ready(Popped(q, h), a.r.prio, a.r.wait[a.cur := 0][p := 0]))
  {
    CurNotQueued(a);
    QueueOk(a);
    ReadyInv(a, a.cur);
    var m := MakeReady(a, a.cur);
    BestUnique(m.r.q, h);
    DispatchPicks(m);
    assert m.r.q[h][0] == p;
  }

  lemma OrderSlots(t: nat, i: nat)
    requires t < CHILDREN && i < CHILDREN
    ensures |Order(t)| == CHILDREN && 0 <= Order(t)[i] < 22 && Order(t)[i] != 1 && Order(t)[i] != Runner(t)
    ensures Order(t)[i] >= t + 2 <==> i < 20 - t
  {
  }

  lemma OrderHas(t: nat, p: int)
    requires t < CHILDREN && 0 <= p < 22 && p != 1 && p != Runner(t)
    ensures p in Order(t)
  {
    var i := if p >= t + 2 then p - t - 2 else if p == 0 then 20 - t else p - 1 + 20 - t;
    assert Order(t)[i] == p;
  }

  /** Nobody is ripe before the twentieth tick. */
  lemma NotYet(r: Ready, t: nat)
    requires r.Valid() && Waited(r.wait, t) && t < 19
    ensures Slots(Order(t)) && forall i :: 0 <= i < |Order(t)| ==> !r.Ripe(Order(t)[i])
  {
    forall i | 0 <= i < CHILDREN
      ensures 0 <= Order(t)[i] < 22 && !r.Ripe(Order(t)[i])
    {
      OrderSlots(t, i);
    }
  }

  lemma WaitedNext(w: seq<int>, a: seq<int>, t: nat)
    requires Waited(w, t) && t < 19 && |a| == NPROC && forall p :: 0 <= p < NPROC && p in Order(t) ==> a[p] == w[p] + 1
    ensures Waited(a[Runner(t) := 0][t + 2 := 0], t + 1)
  {
    forall p | 0 <= p < 22 && p != 1 && p != Runner(t)
      ensures a[p] == w[p] + 1
    {
      OrderHas(t, p);
    }
  }

  lemma OccupiedNext(st: seq<PState>, t: nat)
    requires Occupied(st, 22, Runner(t)) && t < CHILDREN
    ensures Occupied(st[Runner(t) := RUNNABLE][t + 2 := RUNNING], 22, t + 2)
  {
  }

  lemma QueueNext(q: Queues, t: nat)
    requires |q| == NPRIO && q[20] == Order(t) && t < CHILDREN && forall l :: 0 <= l < NPRIO && l != 20 ==> q[l] == []
    ensures var q1 := Push(q, 20, Runner(t));
            q1[20] != [] && Popped(q1, 20)[20] == Order(t + 1) && forall l :: 0 <= l < NPRIO && l != 20 ==> Popped(q1, 20)[l] == []
  {
    OrderNext(t);
    assert (Order(t) + [Runner(t)])[1..] == Order(t)[1..] + [Runner(t)];
  }

  /** What one tick makes of a rotating crowd. */
  ghost function Rotated(s: Sched, t: nat): Sched
    requires SInv(s) && SInv(Aged(s)) && t < 19
  {
    var a := Aged(s);
    a.(cur := t + 2, state := a.state[a.cur := RUNNABLE][t + 2 := RUNNING],
       r := Ready(Popped(Push(a.r.q, 20, a.cur), 20), a.r.prio, a.r.wait[a.cur := 0][t + 2 := 0]))
  }

  lemma NextTick(s: Sched, t: nat)
    requires Rotating(s, t) && t < 19
    ensures SInv(s) && Enabled(s, UserTick) && Rotating(After(s, UserTick), t + 1)
  {
    assert Opened(true);
    NotYet(s.r, t);
    TickCounts(s.r, Order(t));
    OrderNext(t);
    AgedInv(s);
    TickRotates(s, t);
    RotatedIs(s, t);
  }

  lemma TickRotates(s: Sched, t: nat)
    requires Crowd(s, 22, Runner(t)) && SInv(Aged(s)) && t < 19
    requires IsHighest(Ticked(s.r).q, 20) && Ticked(s.r).q[20][0] == t + 2 && Ticked(s.r).prio == s.r.prio
    ensures Enabled(s, UserTick) && After(s, UserTick) == Rotated(s, t)
  {
    TickYields(s, 22, Runner(t), 20);
    YieldTo(Aged(s), 20, t + 2);
  }

  lemma RotatedIs(s: Sched, t: nat)
    requires Crowd(s, 22, Runner(t)) && OneLevel(s.r, Order(t)) && Waited(s.r.wait, t) && t < 19 && SInv(Aged(s))
    requires Ticked(s.r).q == s.r.q && Ticked(s.r).prio == s.r.prio
    requires forall p :: 0 <= p < NPROC && p in Order(t) ==> Ticked(s.r).wait[p] == s.r.wait[p] + 1
    requires SInv(Rotated(s, t))
    ensures Rotating(Rotated(s, t), t + 1)
  {
    WaitedNext(s.r.wait, Ticked(s.r).wait, t);
    OccupiedNext(s.state, t);
    QueueNext(s.r.q, t);
  }

  /** At the twentieth tick the head of the queue is ripe and nobody else is. */
  lemma HeadRipe(r: Ready)
    requires r.Valid() && Waited(r.wait, 19) && AtDefault(r.prio, 22)
    ensures Order(19) != [] && Order(19)[0] == 21
    ensures forall i :: 0 <= i < |Order(19)| ==> 0 <= Order(19)[i] < NPROC && (r.Ripe(Order(19)[i]) <==> i == 0)
  {
    forall i | 0 <= i < CHILDREN
      ensures 0 <= Order(19)[i] < 22 && (r.Ripe(Order(19)[i]) <==> i == 0)
    {
      OrderSlots(19, i);
    }
  }

  /** The twentieth tick. */
  lemma LastTick(s: Sched)
    requires Rotating(s, 19)
    ensures SInv(s) && Enabled(s, UserTick) && Starving(After(s, UserTick), 0)
  {
    assert Opened(true);
    HeadRipe(s.r);
    TickRaises(s.r, Order(19));
    RaisedRuns(s);
  }

  lemma RaisedRuns(s: Sched)
    requires Crowd(s, 22, 20) && Ticked(s.r).q[19] == [21] && Ticked(s.r).q[20] == Order(19)[1..]
    requires forall l :: 0 <= l < 19 ==> Ticked(s.r).q[l] == []
    requires (forall p :: 0 <= p < NPROC && p != 21 ==> Ticked(s.r).prio[p] == s.r.prio[p]) && Ticked(s.r).prio[21] == 19
    ensures Enabled(s, UserTick) && Starving(After(s, UserTick), 0)
  {
    AgedInv(s);
    TickYields(s, 22, 20, 19);
    YieldTo(Aged(s), 19, 21);
    AloneAbove(s, Aged(s), After(s, UserTick));
  }

  lemma AloneAbove(s: Sched, a: Sched, u: Sched)
    requires Crowd(s, 22, 20) && SInv(u) && a == Aged(s)
    requires a.r.q[19] == [21] && a.r.q[20] == Order(19)[1..] && (forall l :: 0 <= l < 19 ==> a.r.q[l] == [])
    requires (forall p :: 0 <= p < NPROC && p != 21 ==> a.r.prio[p] == s.r.prio[p]) && a.r.prio[21] == 19
    requires Push(a.r.q, 20, 20)[19] != []
    requires u == a.(cur := 21, state := a.state[20 := RUNNABLE][21 := RUNNING],
                     r := Ready(Popped(Push(a.r.q, 20, 20), 19), a.r.prio, a.r.wait[20 := 0][21 := 0]))
    ensures Starving(u, 0)
  {
    assert Order(19)[1..][0] == 0;
    assert u.r.q[20] == Order(19)[1..] + [20] && 0 in u.r.q[20];
    assert u.state[22] == UNUSED;
  }

  lemma {:induction false} Ticks(s: Sched, es0: seq<Event>, t: nat) returns (es: seq<Event>)
    requires SInv(s) && t <= 19 && Rotating(Exec(s, es0), 0)
    ensures Rotating(Exec(s, es), t)
  {
    if t == 0 {
      es := es0;
    } else {
      es := Ticks(s, es0, t - 1);
      es := TickStep(s, es, t - 1);
    }
  }

  lemma TickStep(s: Sched, es: seq<Event>, t: nat) returns (fs: seq<Event>)
    requires SInv(s) && t < 19 && Rotating(Exec(s, es), t)
    ensures Rotating(Exec(s, fs), t + 1)
  {
    NextTick(Exec(s, es), t);
    RunOne(s, es, UserTick);
    fs := es + [UserTick];
  }

  /** A run from boot after which initproc (process 0, not the idle process 1) can be starved. */
  lemma StarvingReached() returns (es: seq<Event>)
    ensures SInv(Boot(0, 1)) && Starving(Exec(Boot(0, 1), es), 0)
  {
    var s := Booted();
    RunOne(s, [], IdleLoop);
    es := Forks(s, [] + [IdleLoop], CHILDREN);
    FirstTick(Exec(s, es));
    es := Ticks(s, es, 19);
    LastTick(Exec(s, es));
    RunOne(s, es, UserTick);
    es := es + [UserTick];
  }

  /** For every n a run from boot has, after its first part, n timer ticks during all of which initproc
      stays queued. */
  lemma StarvesFromBoot(n: nat) returns (pre: seq<Event>, es: seq<Event>)
    ensures SInv(Boot(0, 1))
    ensures var s := Exec(Boot(0, 1), pre); Waits(s, es, 0) && TimerTicks(s, es) == n
  {
    pre := StarvingReached();
    es := Starves(Exec(Boot(0, 1), pre), 0, n);
  }
}
