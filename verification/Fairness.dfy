/** Bounded waiting in the priority scheduler: how long a queued process can be kept from running. */
module Fairness {
  import opened Collections
  import opened Guards
  import opened ReadyQueue
  import opened Scheduler

  // ----- A queue holds each process at most once, so it is no longer than the process table -----

  ghost function UpTo(n: nat): (s: set<int>)
    ensures |s| == n && forall x :: x in s <==> 0 <= x < n
  {
    if n == 0 then {} else UpTo(n - 1) + {n - 1}
  }

  lemma {:induction false} NoDupSize(s: seq<int>)
    requires NoDup(s)
    ensures |set x | x in s| == |s|
  {
    if s != [] {
      var n := |s| - 1;
      NoDupSize(s[..n]);
      assert (set x | x in s) == (set x | x in s[..n]) + {s[n]};
    }
  }

  lemma QueueBound(s: seq<int>)
    requires NoDup(s) && Slots(s)
    ensures |s| <= NPROC
  {
    NoDupSize(s);
    SubsetSize((set x | x in s), UpTo(NPROC));
  }

  // ----- The rank of a waiting process -----

  /** An upper bound on the ticks x can still wait: ticks to climb to level 0 and a full queue there,
      or its place in the queue of level 0. */
  ghost function Rank(r: Ready, x: int): int
    requires r.Valid() && r.In(x)
  {
    if r.prio[x] > 0 then NPROC - 1 + AGING_TICKS * r.prio[x] - r.wait[x] else IndexIn(r.q[0], x)
  }

  /** The ticks x still needs to climb to level 0. */
  ghost function Debt(r: Ready, x: int): int
    requires r.Valid() && r.In(x)
  {
    if r.prio[x] > 0 then AGING_TICKS * r.prio[x] - r.wait[x] else 0
  }

  lemma RankBound(r: Ready, x: int)
    requires r.Valid() && r.In(x) && WaitOk(r)
    ensures 0 <= Rank(r, x) <= NPROC - 1 + AGING_TICKS * r.prio[x]
  {
    AllSlots(r);
    QueueBound(r.q[0]);
  }

  lemma IndexUnique(s: seq<int>, i: int)
    requires NoDup(s) && 0 <= i < |s|
    ensures IndexIn(s, s[i]) == i
  {
  }

  lemma PushRank(r: Ready, p: int, x: int)
    requires r.Valid() && 0 <= p < NPROC && 0 <= r.prio[p] < NPRIO && !r.In(p) && r.In(x)
    ensures var r' := Enqueued(r, p);
            r'.Valid() && r'.In(x) && Rank(r', x) == Rank(r, x) && r'.prio[x] == r.prio[x] && r'.wait[x] == r.wait[x]
  {
    EnqueuedValid(r, p);
    var r' := Enqueued(r, p);
    if r.prio[x] == 0 {
      var i := IndexIn(r.q[0], x);
      assert r'.q[0][i] == x;
      IndexUnique(r'.q[0], i);
    }
  }

  lemma PopRank(r: Ready, w: seq<int>, x: int)
    requires r.Valid() && r.In(x) && Best(r.q) >= 0 && x != r.q[Best(r.q)][0]
    requires |w| == NPROC && w[x] == r.wait[x]
    ensures var r' := Ready(Popped(r.q, Best(r.q)), r.prio, w);
            r'.Valid() && r'.In(x) && Rank(r', x) == Rank(r, x) - if r.prio[x] == 0 then 1 else 0
  {
    var h := Best(r.q);
    PoppedValid(r, h);
    var r' := Ready(Popped(r.q, h), r.prio, w);
    assert r.(q := Popped(r.q, h)).In(x);
    if r.prio[x] == 0 {
      var i := IndexIn(r.q[0], x);
      assert h == 0;
      assert r'.q[0][i - 1] == x;
      IndexUnique(r'.q[0], i - 1);
    }
  }

  /** One round of aging brings x one tick nearer to level 0, and leaves its place there alone. */
  lemma TickRank(r: Ready, x: int)
    requires r.Valid() && r.In(x) && WaitOk(r)
    ensures Ticked(r).Valid() && Ticked(r).In(x) && WaitOk(Ticked(r))
    ensures r.prio[x] > 0 ==> Rank(Ticked(r), x) < Rank(r, x) && Debt(Ticked(r), x) == Debt(r, x) - 1
    ensures r.prio[x] == 0 ==> Rank(Ticked(r), x) == Rank(r, x) && Ticked(r).prio[x] == 0
  {
    TickedValid(r);
    var t := Ticked(r);
    assert WaitOk(t);
    if r.prio[x] == 0 {
      AllSlots(r);
      NoneRipe(r, r.q[0]);
      var i := IndexIn(r.q[0], x);
      assert t.q[0][i] == x;
      IndexUnique(t.q[0], i);
    } else {
      RankBound(t, x);
    }
  }

  // ----- Every step -----

  /** x is still queued in t and no worse off than in s, its priority and count unchanged; or it runs. */
  ghost predicate NoWorse(s: Sched, t: Sched, x: int)
    requires SInv(s) && s.r.In(x)
  {
    && t.r.Valid()
    && (t.r.In(x) ==> Rank(t.r, x) <= Rank(s.r, x) && Debt(t.r, x) == Debt(s.r, x) && t.r.prio[x] == s.r.prio[x])
    && (t.r.In(x) || t.cur == x)
  }

  /** The step is a timer tick that reaches prio_on_tick. */
  ghost predicate Ages(s: Sched, e: Event)
    requires SInv(s)
  {
    e == KernelTick || (e == UserTick && !s.killed[s.cur])
  }

  lemma ReadyRank(s: Sched, p: int, x: int)
    requires QueueInv(s) && 0 <= p < NPROC && !s.r.In(p) && s.r.In(x)
    ensures var t := MakeReady(s, p);
            && QueueInv(t) && t.r.In(x)
            && Rank(t.r, x) == Rank(s.r, x) && Debt(t.r, x) == Debt(s.r, x) && t.r.prio[x] == s.r.prio[x]
  {
    ReadyInv(s, p);
    PushRank(s.r, p, x);
  }

  /** schedule() takes x, or somebody who was ahead of it. */
  lemma DispatchRank(s: Sched, x: int)
    requires QueueInv(s) && OnlyRunning(s, -1) && s.r.In(x)
    ensures var t := Dispatched(s);
            && SInv(t)
            && (t.r.In(x) || t.cur == x)
            && (t.r.In(x) ==> && Debt(t.r, x) == Debt(s.r, x) && t.r.prio[x] == s.r.prio[x]
                              && Rank(t.r, x) == Rank(s.r, x) - if s.r.prio[x] == 0 then 1 else 0)
  {
    DispatchInv(s);
    DispatchPicks(s);
    var h, t := Best(s.r.q), Dispatched(s);
    assert x in s.r.q[s.r.prio[x]];
    var p := s.r.q[h][0];
    PoppedValid(s.r, h);
    if p != x {
      PopRank(s.r, t.r.wait, x);
    } else {
      assert !s.r.(q := Popped(s.r.q, h)).In(x);
    }
  }

  /** x is queued in both and stands the same. */
  ghost predicate SameRank(r: Ready, t: Ready, x: int) {
    (&& r.Valid() && r.In(x) && t.Valid() && t.In(x)
     && Rank(t, x) == Rank(r, x) && Debt(t, x) == Debt(r, x) && t.prio[x] == r.prio[x]) == true
  }

  lemma {:induction false} WokenRank(s: Sched, ch: int, n: nat, x: int)
    requires SInv(s) && s.r.In(x) && n <= NPROC
    ensures SameRank(s.r, WokenTo(s, ch, n).r, x)
  {
    if n > 0 {
      WokenRank(s, ch, n - 1, x);
      WakeOneRank(WokenTo(s, ch, n - 1), ch, n - 1, x);
    }
  }

  lemma WakeOneRank(s: Sched, ch: int, p: int, x: int)
    requires SInv(s) && s.r.In(x) && 0 <= p < NPROC
    ensures SameRank(s.r, WakeOne(s, ch, p).r, x)
  {
    if Wakes(s, ch, p) {
      ReadiedRank(s, p, x);
    }
  }

  lemma ReadiedRank(s: Sched, p: int, x: int)
    requires SInv(s) && 0 <= p < NPROC && s.state[p] != RUNNABLE && s.state[p] != RUNNING && s.r.In(x)
    ensures var t := MakeReady(s, p);
            && SInv(t) && t.r.In(x)
            && Rank(t.r, x) == Rank(s.r, x) && Debt(t.r, x) == Debt(s.r, x) && t.r.prio[x] == s.r.prio[x]
  {
    Absent(s, p);
    QueueOk(s);
    ReadiedInv(s, p);
    ReadyRank(s, p, x);
  }

  lemma YieldRank(s: Sched, x: int)
    requires SInv(s) && s.r.In(x)
    ensures var t := Yielded(s);
            && SInv(t)
            && (t.r.In(x) || t.cur == x)
            && (t.r.In(x) ==> && Debt(t.r, x) == Debt(s.r, x) && t.r.prio[x] == s.r.prio[x]
                              && Rank(t.r, x) == Rank(s.r, x) - if s.r.prio[x] == 0 then 1 else 0)
  {
    assert Settled(true);
    ReadyRank(s, s.cur, x);
    DispatchRank(MakeReady(s, s.cur), x);
  }

  /** After aging, a process waiting on level 0 forces the running process off the CPU. */
  lemma LevelZeroPreempts(s: Sched, x: int)
    requires SInv(s) && s.r.In(x) && s.r.prio[x] == 0
    ensures ShouldPreempt(s.r, s.r.prio[s.cur])
  {
    assert x in s.r.q[0];
  }

  ghost predicate Nearer(s: Sched, t: Sched, x: int)
    requires SInv(s) && s.r.In(x)
  {
    && SInv(t)
    && (t.r.In(x) || t.cur == x)
    && (t.r.In(x) ==> && Rank(t.r, x) < Rank(s.r, x)
                      && Debt(t.r, x) == if s.r.prio[x] > 0 then Debt(s.r, x) - 1 else 0)
  }

  lemma KernelTickRank(s: Sched, x: int)
    requires SInv(s) && s.r.In(x)
    ensures Nearer(s, KernelTicked(s), x)
  {
    var w := Woken(s, TICKS);
    WokenRank(s, TICKS, NPROC, x);
    AgedInv(w);
    QueueOk(w);
    TickRank(w.r, x);
    var a := Aged(w);
    YieldRank(a, x);
    if a.r.prio[x] == 0 {
      LevelZeroPreempts(a, x);
    }
  }

  lemma UserTickRank(s: Sched, x: int)
    requires SInv(s) && s.cur != s.idle && s.r.In(x)
    ensures s.killed[s.cur] ==> NoWorse(s, UserTicked(s), x)
    ensures !s.killed[s.cur] ==> Nearer(s, UserTicked(s), x)
  {
    var w := Woken(s, TICKS);
    WokenRank(s, TICKS, NPROC, x);
    AgedInv(w);
    QueueOk(w);
    TickRank(w.r, x);
    var a := Aged(w);
    YieldRank(a, x);
    CurRuns(a);
    PendingInv(a);
    YieldRank(a.(pending := false), x);
    if a.r.prio[x] == 0 {
      LevelZeroPreempts(a, x);
    }
  }

  lemma ParkRank(s: Sched, st: PState, ch: int, x: int)
    requires SInv(s) && s.cur != s.idle && st != RUNNABLE && st != RUNNING && s.r.In(x)
    ensures QueueInv(Parked(s, st, ch)) && NoWorse(s, Dispatched(Parked(s, st, ch)), x)
  {
    ParkedInv(s, st, ch);
    DispatchRank(Parked(s, st, ch), x);
  }

  lemma RefileRank(s: Sched, p: int, st: PState, prio: int, x: int)
    requires SInv(s) && 0 <= p < NPROC && p != s.cur && p != s.idle && !s.r.In(p) && s.r.In(x)
    requires st != RUNNABLE && st != RUNNING && 0 <= prio < NPRIO
    ensures NoWorse(s, Refiled(s, p, st, prio), x) && SInv(Refiled(s, p, st, prio)) && Refiled(s, p, st, prio).r.In(x)
  {
    RefiledInv(s, p, st, prio);
  }

  lemma ForkRank(s: Sched, p: int, x: int)
    requires SInv(s) && Enabled(s, ForkStart(p)) && s.r.In(x)
    ensures NoWorse(s, Step(s, ForkStart(p)), x)
  {
    Absent(s, p);
    RefileRank(s, p, USED, s.r.prio[s.cur], x);
    ReadiedRank(Refiled(s, p, USED, s.r.prio[s.cur]), p, x);
  }

  lemma KillRank(s: Sched, p: int, x: int)
    requires SInv(s) && 0 <= p < NPROC && s.r.In(x)
    ensures NoWorse(s, KilledBy(s, p), x)
  {
    if s.state[p] == SLEEPING {
      KilledInv(s, p);
      ReadiedRank(s.(killed := s.killed[p := true]), p, x);
    }
  }

  lemma QueueStepRank(s: Sched, e: Event, x: int)
    requires SInv(s) && Enabled(s, e) && s.r.In(x)
    requires e.SleepOn? || e.WakeupOn? || e.Kill? || e.Exit? || e.IdleLoop?
    ensures NoWorse(s, Step(s, e), x)
  {
    match e
    case SleepOn(ch) => ParkRank(s, SLEEPING, ch, x);
    case WakeupOn(ch) => WokenRank(s, ch, NPROC, x);
    case Kill(p) => KillRank(s, p, x);
    case Exit => ParkRank(s, ZOMBIE, s.chan[s.cur], x);
    case IdleLoop => IdleRank(s, x);
  }

  lemma IdleRank(s: Sched, x: int)
    requires SInv(s) && s.cur == s.idle && s.r.In(x)
    ensures NoWorse(s, Dispatched(s), x)
  {
    assert Settled(true);
    DispatchRank(s, x);
  }

  lemma TableStepRank(s: Sched, e: Event, x: int)
    requires SInv(s) && Enabled(s, e) && s.r.In(x)
    requires e.ForkAlloc? || e.ForkStart? || e.ForkFail? || e.Reap?
    ensures NoWorse(s, Step(s, e), x)
  {
    match e
    case ForkAlloc(p) =>
      Absent(s, p);
      RefileRank(s, p, USED, PRIO_DEFAULT, x);
    case ForkStart(p) => ForkRank(s, p, x);
    case ForkFail(p) =>
    case Reap(p) =>
  }

  lemma {:induction false} StepRank(s: Sched, e: Event, x: int)
    requires SInv(s) && Enabled(s, e) && s.r.In(x)
    ensures if Ages(s, e) then Nearer(s, Step(s, e), x) else NoWorse(s, Step(s, e), x)
  {
    if e == UserTick {
      UserTickRank(s, x);
    } else if e == KernelTick {
      KernelTickRank(s, x);
    } else if e.SleepOn? || e.WakeupOn? || e.Kill? || e.Exit? || e.IdleLoop? {
      QueueStepRank(s, e, x);
    } else {
      TableStepRank(s, e, x);
    }
  }

  // ----- Whole runs -----

  /** An event that is not possible in s leaves it as it is. */
  ghost function After(s: Sched, e: Event): (t: Sched)
    requires SInv(s)
    ensures SInv(t)
  {
    if Enabled(s, e) then StepInv(s, e); Step(s, e) else s
  }

  ghost function Exec(s: Sched, es: seq<Event>): (t: Sched)
    requires SInv(s)
    ensures SInv(t)
  {
    if es == [] then s else After(Exec(s, es[..|es| - 1]), es[|es| - 1])
  }

  /** The ticks of the run that reach prio_on_tick. */
  ghost function AgingTicks(s: Sched, es: seq<Event>): nat
    requires SInv(s)
  {
    if es == [] then 0 else
      var t, e := Exec(s, es[..|es| - 1]), es[|es| - 1];
      AgingTicks(s, es[..|es| - 1]) + if Enabled(t, e) && Ages(t, e) then 1 else 0
  }

  /** All timer ticks of the run. */
  ghost function TimerTicks(s: Sched, es: seq<Event>): nat
    requires SInv(s)
  {
    if es == [] then 0 else
      var t, e := Exec(s, es[..|es| - 1]), es[|es| - 1];
      TimerTicks(s, es[..|es| - 1]) + if Enabled(t, e) && (e == KernelTick || e == UserTick) then 1 else 0
  }

  /** x is queued at the start of the run and after each of its events. */
  ghost predicate Waits(s: Sched, es: seq<Event>, x: int)
    requires SInv(s)
  {
    if es == [] then s.r.In(x) else Waits(s, es[..|es| - 1], x) && Exec(s, es).r.In(x)
  }

  lemma {:induction false} WaitingRank(s: Sched, es: seq<Event>, x: int)
    requires SInv(s) && Waits(s, es, x)
    ensures s.r.In(x) && Exec(s, es).r.In(x)
    ensures Rank(Exec(s, es).r, x) + AgingTicks(s, es) <= Rank(s.r, x)
    ensures Debt(Exec(s, es).r, x) == if Debt(s.r, x) < AgingTicks(s, es) then 0 else Debt(s.r, x) - AgingTicks(s, es)
  {
    if es != [] {
      var t, e := Exec(s, es[..|es| - 1]), es[|es| - 1];
      WaitingRank(s, es[..|es| - 1], x);
      if Enabled(t, e) {
        StepRank(t, e, x);
        DebtPositive(t, x);
      }
    } else {
      DebtPositive(s, x);
    }
  }

  lemma DebtPositive(s: Sched, x: int)
    requires SInv(s) && s.r.In(x)
    ensures Debt(s.r, x) > 0 <==> s.r.prio[x] > 0
    ensures Debt(s.r, x) >= 0
  {
    QueueOk(s);
  }

  lemma LeavesLast(s: Sched, es: seq<Event>, x: int)
    requires SInv(s) && es != [] && Waits(s, es[..|es| - 1], x) && !Exec(s, es).r.In(x)
    ensures Exec(s, es).cur == x
  {
    var n := |es| - 1;
    WaitingRank(s, es[..n], x);
    var t := Exec(s, es[..n]);
    if Enabled(t, es[n]) {
      StepRank(t, es[n], x);
    }
  }

  /** A queued process that leaves the queue does so by being dispatched. */
  lemma {:induction false} LeavesByRunning(s: Sched, es: seq<Event>, x: int) returns (k: nat)
    requires SInv(s) && s.r.In(x) && !Waits(s, es, x)
    ensures 0 < k <= |es| && Exec(s, es[..k]).cur == x && Waits(s, es[..k - 1], x)
  {
    assert es[..|es|] == es;
    k := LeavesWithin(s, es, |es|, x);
  }

  lemma {:induction false} LeavesWithin(s: Sched, es: seq<Event>, n: nat, x: int) returns (k: nat)
    requires SInv(s) && s.r.In(x) && n <= |es| && !Waits(s, es[..n], x)
    ensures 0 < k <= n && Exec(s, es[..k]).cur == x && Waits(s, es[..k - 1], x)
  {
    if n > 0 {
      assert es[..n][..n - 1] == es[..n - 1];
      if Waits(s, es[..n - 1], x) {
        LeavesLast(s, es[..n], x);
        k := n;
      } else {
        k := LeavesWithin(s, es, n - 1, x);
      }
    }
  }

  /** Bounded waiting: whatever forks, wakeups, sleeps, kills and exits happen meanwhile, a process
      queued at level k is running by the time AGING_TICKS * k + NPROC ticks have aged the queue. */
  lemma {:induction false} BoundedWaiting(s: Sched, es: seq<Event>, x: int) returns (k: nat)
    requires SInv(s) && s.r.In(x)
    requires AgingTicks(s, es) >= AGING_TICKS * s.r.prio[x] + NPROC
    ensures 0 < k <= |es| && Exec(s, es[..k]).cur == x && Waits(s, es[..k - 1], x)
  {
    if Waits(s, es, x) {
      WaitingRank(s, es, x);
      QueueOk(s);
      QueueOk(Exec(s, es));
      RankBound(s.r, x);
      RankBound(Exec(s, es).r, x);
    } else {
      k := LeavesByRunning(s, es, x);
    }
  }

  /** The level of a waiting process is a function of the aging ticks alone: from level k with a
      fresh count, after t of them it is max(0, k - t / AGING_TICKS). */
  lemma {:induction false} LevelAfterTicks(s: Sched, es: seq<Event>, x: int)
    requires SInv(s) && Waits(s, es, x)
    ensures s.r.In(x) && Exec(s, es).r.In(x)
    ensures s.r.wait[x] == 0 ==>
              var k, t := s.r.prio[x], AgingTicks(s, es);
              Exec(s, es).r.prio[x] == if k < t / AGING_TICKS then 0 else k - t / AGING_TICKS
  {
    WaitingRank(s, es, x);
    QueueOk(Exec(s, es));
    if s.r.wait[x] == 0 {
      LevelOf(s.r.prio[x], AgingTicks(s, es), Exec(s, es).r.prio[x], Exec(s, es).r.wait[x]);
    }
  }

  /** The debt of a process gives its level. */
  lemma LevelOf(k: nat, t: nat, l: nat, w: int)
    requires l > 0 ==> 0 <= w < AGING_TICKS
    requires (if l > 0 then AGING_TICKS * l - w else 0) == (if AGING_TICKS * k < t then 0 else AGING_TICKS * k - t)
    ensures l == if k < t / AGING_TICKS then 0 else k - t / AGING_TICKS
  {
  }
}
