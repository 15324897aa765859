/** What the steps of a process's life do: fork, sleep, wakeup, kill, exit and wait, each in terms of what
    it promises, and how they fit together over whole runs. */
module Lifecycle {
  import opened ReadyQueue
  import opened Scheduler
  import opened Fairness

  // ----- Becoming ready -----

  /** p has been made ready and nothing else has changed: it is last on the level of its priority, with a
      fresh count, and preemption is requested if it outranks a running process. */
  ghost predicate Readied(s: Sched, t: Sched, p: int) {
    && s.Typed() && t.Typed() && 0 <= p < NPROC
    && t.state == s.state[p := RUNNABLE] && t.chan == s.chan && t.cur == s.cur && t.idle == s.idle
    && t.r.prio == s.r.prio && t.r.wait == s.r.wait[p := 0]
    && (forall l :: 0 <= l < NPRIO ==> t.r.q[l] == s.r.q[l] + if l == s.r.prio[p] then [p] else [])
    && (t.pending <==> s.pending || (p != s.cur && s.state[s.cur] == RUNNING && s.r.prio[p] < s.r.prio[s.cur]))
  }

  lemma MadeReady(s: Sched, p: int)
    requires SInv(s) && 0 <= p < NPROC && s.state[p] != RUNNABLE && s.state[p] != RUNNING
    ensures Readied(s, MakeReady(s, p), p) && SInv(MakeReady(s, p)) && MakeReady(s, p).r.In(p)
    ensures MakeReady(s, p).killed == s.killed
  {
    Absent(s, p);
    ReadiedInv(s, p);
  }

  // ----- kill -----

  /** kill(p): the flag is set, a sleeper becomes ready, and nothing else changes. */
  lemma KillIs(s: Sched, p: int)
    requires SInv(s) && 0 <= p < NPROC
    ensures var t := Step(s, Kill(p));
            && t.killed == s.killed[p := true]
            && if s.state[p] == SLEEPING then Readied(s, t, p) && t.r.In(p) else t == s.(killed := t.killed)
  {
    KilledInv(s, p);
    if s.state[p] == SLEEPING {
      MadeReady(s.(killed := s.killed[p := true]), p);
    }
  }

  /** A process that is queued stays killed. */
  lemma KilledStep(s: Sched, e: Event, x: int)
    requires SInv(s) && Enabled(s, e) && s.r.In(x) && s.killed[x]
    ensures Step(s, e).killed[x]
  {
    QueueOk(s);
  }

  lemma {:induction false} KilledWaits(s: Sched, es: seq<Event>, x: int)
    requires SInv(s) && Waits(s, es, x) && 0 <= x < NPROC && s.killed[x]
    ensures Exec(s, es).killed[x] && Exec(s, es).r.In(x)
  {
    if es != [] {
      var n := |es| - 1;
      KilledWaits(s, es[..n], x);
      if Enabled(Exec(s, es[..n]), es[n]) {
        KilledStep(Exec(s, es[..n]), es[n], x);
      }
    }
  }

  /** A sleeper that is killed runs, still killed, by the time AGING_TICKS * k + NPROC ticks have aged the
      queue, where k is its level, whatever else happens meanwhile. */
  lemma {:induction false} KilledSleeperRuns(s: Sched, p: int, es: seq<Event>) returns (k: nat)
    requires SInv(s) && 0 <= p < NPROC && s.state[p] == SLEEPING
    requires AgingTicks(After(s, Kill(p)), es) >= AGING_TICKS * s.r.prio[p] + NPROC
    ensures k <= |es|
    ensures var u := Exec(After(s, Kill(p)), es[..k]); u.cur == p && u.killed[p]
  {
    KillIs(s, p);
    var t := After(s, Kill(p));
    k := BoundedWaiting(t, es, p);
    KilledWaits(t, es[..k - 1], p);
    assert es[..k][..k - 1] == es[..k - 1];
    var u := Exec(t, es[..k - 1]);
    if Enabled(u, es[k - 1]) {
      KilledStep(u, es[k - 1], p);
    }
  }

  // ----- Preemption -----

  /** A process that yields although there is only worse than it runs on. */
  lemma YieldsToItself(a: Sched)
    requires SInv(a) && !ShouldPreempt(a.r, a.r.prio[a.cur])
    ensures Yielded(a).cur == a.cur && !Yielded(a).r.In(a.cur)
  {
    CurNotQueued(a);
    QueueOk(a);
    ReadyInv(a, a.cur);
    var m, l := MakeReady(a, a.cur), a.r.prio[a.cur];
    assert m.r.q[l] == a.r.q[l] + [a.cur];
    BestUnique(m.r.q, l);
    DispatchPicks(m);
    YieldInv(a);
    CurNotQueued(Yielded(a));
  }

  /** A tick in the kernel preempts exactly when the queue, woken and aged, has a process at the level of
      the current one or better; then the first of the best level runs and the other is queued. */
  lemma KernelTickPreempts(s: Sched)
    requires SInv(s)
    ensures var (a, t) := (Aged(Woken(s, TICKS)), Step(s, KernelTick));
            if ShouldPreempt(a.r, a.r.prio[s.cur]) then t.cur == a.r.q[Best(a.r.q)][0] != s.cur && t.r.In(s.cur)
            else t.cur == s.cur && !t.r.In(s.cur)
  {
    var w := Woken(s, TICKS);
    AgedInv(w);
    CurNotQueued(Aged(w));
    if ShouldPreempt(Aged(w).r, Aged(w).r.prio[w.cur]) {
      YieldedQueues(Aged(w));
    }
  }

  /** So does a tick in user mode, unless the process is killed: then nobody ages and it goes on to exit. A
      pending request for preemption is used up. */
  lemma UserTickPreempts(s: Sched)
    requires SInv(s) && s.cur != s.idle
    ensures var (a, t) := (Aged(Woken(s, TICKS)), Step(s, UserTick));
            if s.killed[s.cur] then t == Woken(s, TICKS)
            else if ShouldPreempt(a.r, a.r.prio[s.cur]) then t.cur == a.r.q[Best(a.r.q)][0] != s.cur && t.r.In(s.cur) && !t.pending
            else t.cur == s.cur && !t.r.In(s.cur) && !t.pending
  {
    var w := Woken(s, TICKS);
    AgedInv(w);
    var a := Aged(w);
    CurRuns(a);
    CurNotQueued(a);
    PendingInv(a);
    UserYields(a);
    UserYields(a.(pending := false));
  }

  lemma UserYields(a: Sched)
    requires SInv(a)
    ensures if ShouldPreempt(a.r, a.r.prio[a.cur]) then Yielded(a).cur == a.r.q[Best(a.r.q)][0] != a.cur && Yielded(a).r.In(a.cur)
            else Yielded(a).cur == a.cur && !Yielded(a).r.In(a.cur)
    ensures Yielded(a).pending == a.pending
  {
    if ShouldPreempt(a.r, a.r.prio[a.cur]) {
      YieldedQueues(a);
    } else {
      YieldsToItself(a);
    }
    CurNotQueued(a);
    QueueOk(a);
    ReadyInv(a, a.cur);
    DispatchPicks(MakeReady(a, a.cur));
  }

  // ----- sleep and wakeup -----

  /** sleep(ch) leaves its caller asleep on ch, off the CPU and out of the queue. */
  lemma SleepIs(s: Sched, ch: int)
    requires SInv(s) && s.cur != s.idle
    ensures var t := Step(s, SleepOn(ch));
            SInv(t) && t.state[s.cur] == SLEEPING && t.chan == s.chan[s.cur := ch] && t.cur != s.cur && !t.r.In(s.cur)
  {
    StepInv(s, SleepOn(ch));
    ParkedInv(s, SLEEPING, ch);
    Dispatches(Parked(s, SLEEPING, ch), s.cur);
    Absent(Step(s, SleepOn(ch)), s.cur);
  }

  /** schedule() does not touch a process that is not ready. */
  lemma Dispatches(s: Sched, p: int)
    requires QueueInv(s) && 0 <= p < NPROC && s.state[p] != RUNNABLE
    ensures Dispatched(s).state[p] == s.state[p] && Dispatched(s).chan == s.chan
  {
    DispatchPicks(s);
    var h := Best(s.r.q);
    if h >= 0 {
      var q := s.r.q[h][0];
      assert s.r.prio[q] == h && s.r.In(q);
    }
  }

  /** What a tick does to a sleeper: it wakes those on &ticks. */
  lemma TickWakes(s: Sched, e: Event, x: int)
    requires SInv(s) && Enabled(s, e) && (e == UserTick || e == KernelTick) && 0 <= x < NPROC && s.state[x] == SLEEPING
    ensures s.chan[x] != TICKS ==> Step(s, e).state[x] == SLEEPING && Step(s, e).chan[x] == s.chan[x]
  {
    Absent(s, x);
    WokenIs(s, TICKS);
    var w := Woken(s, TICKS);
    if s.chan[x] != TICKS {
      AgedInv(w);
      PendingInv(Aged(w));
      YieldSleeper(Aged(w), x);
      YieldSleeper(Aged(w).(pending := false), x);
    }
  }

  lemma YieldSleeper(a: Sched, x: int)
    requires SInv(a) && 0 <= x < NPROC && a.state[x] == SLEEPING
    ensures Yielded(a).state[x] == SLEEPING && Yielded(a).chan == a.chan
  {
    Absent(a, x);
    CurNotQueued(a);
    QueueOk(a);
    ReadyInv(a, a.cur);
    Dispatches(MakeReady(a, a.cur), x);
  }

  /** A sleeper is woken by wakeup on its own channel, by kill, or by a tick if it sleeps on &ticks, and by
      nothing else; its channel stays. */
  lemma {:induction false} SleeperLeaves(s: Sched, e: Event, x: int)
    requires SInv(s) && Enabled(s, e) && 0 <= x < NPROC && s.state[x] == SLEEPING
    ensures Step(s, e).state[x] != SLEEPING ==>
              e == WakeupOn(s.chan[x]) || e == Kill(x) || ((e == UserTick || e == KernelTick) && s.chan[x] == TICKS)
    ensures Step(s, e).state[x] == SLEEPING ==> Step(s, e).chan[x] == s.chan[x]
  {
    Absent(s, x);
    match e
    case UserTick => TickSleeper(s, e, x);
    case KernelTick => TickSleeper(s, e, x);
    case SleepOn(ch) =>
      ParkedInv(s, SLEEPING, ch);
      Dispatches(Parked(s, SLEEPING, ch), x);
    case WakeupOn(ch) => WokenIs(s, ch);
    case Kill(p) =>
    case ForkAlloc(p) =>
    case ForkStart(p) =>
    case ForkFail(p) =>
    case Exit =>
      ParkedInv(s, ZOMBIE, s.chan[s.cur]);
      Dispatches(Parked(s, ZOMBIE, s.chan[s.cur]), x);
    case Reap(p) =>
    case IdleLoop =>
      QueueOk(s);
      Dispatches(s, x);
  }

  lemma TickSleeper(s: Sched, e: Event, x: int)
    requires SInv(s) && Enabled(s, e) && (e == UserTick || e == KernelTick) && 0 <= x < NPROC && s.state[x] == SLEEPING
    ensures Step(s, e).state[x] != SLEEPING ==> s.chan[x] == TICKS
    ensures Step(s, e).chan == s.chan
  {
    TickWakes(s, e, x);
    WokenIs(s, TICKS);
    var w := Woken(s, TICKS);
    AgedInv(w);
    PendingInv(Aged(w));
    YieldChan(Aged(w));
    YieldChan(Aged(w).(pending := false));
  }

  lemma YieldChan(a: Sched)
    requires SInv(a)
    ensures Yielded(a).chan == a.chan
  {
    CurNotQueued(a);
    QueueOk(a);
    ReadyInv(a, a.cur);
  }

  /** x sleeps at the start of the run and after each of its events. */
  ghost predicate Asleep(s: Sched, es: seq<Event>, x: int)
    requires SInv(s) && 0 <= x < NPROC
  {
    if es == [] then s.state[x] == SLEEPING else Asleep(s, es[..|es| - 1], x) && Exec(s, es).state[x] == SLEEPING
  }

  lemma {:induction false} SleeperKeepsChannel(s: Sched, es: seq<Event>, x: int)
    requires SInv(s) && 0 <= x < NPROC && Asleep(s, es, x)
    ensures Exec(s, es).state[x] == SLEEPING && Exec(s, es).chan[x] == s.chan[x]
  {
    if es != [] {
      var n := |es| - 1;
      SleeperKeepsChannel(s, es[..n], x);
      if Enabled(Exec(s, es[..n]), es[n]) {
        SleeperLeaves(Exec(s, es[..n]), es[n], x);
      }
    }
  }

  /** Whoever called sleep(ch) and has slept since is made ready by wakeup(ch), and by no other wakeup,
      whatever has happened in between. */
  lemma {:induction false} SleeperWoken(s: Sched, ch: int, es: seq<Event>, other: int)
    requires SInv(s) && s.cur != s.idle && Asleep(After(s, SleepOn(ch)), es, s.cur)
    ensures var u := Exec(After(s, SleepOn(ch)), es);
            && After(u, WakeupOn(ch)).state[s.cur] == RUNNABLE && After(u, WakeupOn(ch)).r.In(s.cur)
            && (other != ch ==> After(u, WakeupOn(other)).state[s.cur] == SLEEPING)
  {
    SleepIs(s, ch);
    var t := After(s, SleepOn(ch));
    SleeperKeepsChannel(t, es, s.cur);
    WakeupReadies(Exec(t, es), ch, s.cur);
    WakeupReadies(Exec(t, es), other, s.cur);
  }

  lemma WakeupReadies(u: Sched, ch: int, x: int)
    requires SInv(u) && 0 <= x < NPROC && u.state[x] == SLEEPING
    ensures var t := After(u, WakeupOn(ch));
            if u.chan[x] == ch then t.state[x] == RUNNABLE && t.r.In(x) else t.state[x] == SLEEPING
  {
    Absent(u, x);
    WokenIs(u, ch);
    QueueOk(After(u, WakeupOn(ch)));
  }

  // ----- exit and wait -----

  /** exit() leaves a zombie, off the CPU and out of the queue. */
  lemma ExitIs(s: Sched)
    requires SInv(s) && s.cur != s.idle
    ensures var t := Step(s, Exit);
            SInv(t) && t.state[s.cur] == ZOMBIE && t.killed == s.killed && t.cur != s.cur && !t.r.In(s.cur)
  {
    StepInv(s, Exit);
    ParkedInv(s, ZOMBIE, s.chan[s.cur]);
    Dispatches(Parked(s, ZOMBIE, s.chan[s.cur]), s.cur);
    Absent(Step(s, Exit), s.cur);
  }

  lemma {:induction false} ZombieStep(s: Sched, e: Event, x: int)
    requires SInv(s) && Enabled(s, e) && 0 <= x < NPROC && s.state[x] == ZOMBIE && e != Reap(x)
    ensures Step(s, e).state[x] == ZOMBIE
  {
    Absent(s, x);
    match e
    case UserTick => TickZombie(s, e, x);
    case KernelTick => TickZombie(s, e, x);
    case SleepOn(ch) =>
      ParkedInv(s, SLEEPING, ch);
      Dispatches(Parked(s, SLEEPING, ch), x);
    case WakeupOn(ch) => WokenIs(s, ch);
    case Kill(p) =>
    case ForkAlloc(p) =>
    case ForkStart(p) =>
    case ForkFail(p) =>
    case Exit =>
      ParkedInv(s, ZOMBIE, s.chan[s.cur]);
      Dispatches(Parked(s, ZOMBIE, s.chan[s.cur]), x);
    case Reap(p) =>
    case IdleLoop =>
      QueueOk(s);
      Dispatches(s, x);
  }

  lemma TickZombie(s: Sched, e: Event, x: int)
    requires SInv(s) && Enabled(s, e) && (e == UserTick || e == KernelTick) && 0 <= x < NPROC && s.state[x] == ZOMBIE
    ensures Step(s, e).state[x] == ZOMBIE
  {
    WokenIs(s, TICKS);
    var w := Woken(s, TICKS);
    AgedInv(w);
    PendingInv(Aged(w));
    YieldZombie(Aged(w), x);
    YieldZombie(Aged(w).(pending := false), x);
  }

  lemma YieldZombie(a: Sched, x: int)
    requires SInv(a) && 0 <= x < NPROC && a.state[x] == ZOMBIE
    ensures Yielded(a).state[x] == ZOMBIE
  {
    Absent(a, x);
    CurNotQueued(a);
    QueueOk(a);
    ReadyInv(a, a.cur);
    Dispatches(MakeReady(a, a.cur), x);
  }

  /** A zombie never runs again: until wait() reaps it, it stays one, off the CPU and out of the queue. */
  lemma {:induction false} ZombieStays(s: Sched, es: seq<Event>, x: int)
    requires SInv(s) && 0 <= x < NPROC && s.state[x] == ZOMBIE && Reap(x) !in es
    ensures var t := Exec(s, es); t.state[x] == ZOMBIE && t.cur != x && !t.r.In(x)
  {
    if es != [] {
      var n := |es| - 1;
      ZombieStays(s, es[..n], x);
      if Enabled(Exec(s, es[..n]), es[n]) {
        ZombieStep(Exec(s, es[..n]), es[n], x);
      }
    }
    Absent(Exec(s, es), x);
  }

  /** wait() leaves a clean slot and touches no other, as does a fork() that runs out of memory: the next
      process in the slot is not born killed. */
  lemma FreedIs(s: Sched, p: int, e: Event)
    requires SInv(s) && Enabled(s, e) && (e == Reap(p) || e == ForkFail(p))
    ensures var t := Step(s, e);
            && t.state == s.state[p := UNUSED] && !t.killed[p] && t.chan[p] == 0
            && t.r == s.r && t.cur == s.cur && t.idle == s.idle && t.pending == s.pending
            && forall x :: 0 <= x < NPROC && x != p ==> t.killed[x] == s.killed[x] && t.chan[x] == s.chan[x]
  {
  }

  // ----- fork -----

  /** The end of fork(): the child is ready, last on the level of its parent's priority. */
  lemma ForkIs(s: Sched, p: int)
    requires SInv(s) && Enabled(s, ForkStart(p))
    ensures var t := Step(s, ForkStart(p));
            && Readied(s.(r := s.r.(prio := s.r.prio[p := s.r.prio[s.cur]])), t, p) && t.killed == s.killed && t.r.In(p)
            && t.r.prio[p] == t.r.prio[t.cur] && t.pending == s.pending
  {
    Absent(s, p);
    RefiledInv(s, p, USED, s.r.prio[s.cur]);
    MadeReady(Refiled(s, p, USED, s.r.prio[s.cur]), p);
  }
}
