/** Bounded waiting counts only the ticks that reach prio_on_tick. A user-mode tick on a killed
    process goes to exit() first (kernel/trap.c), and ticks of that kind can starve a waiting
    process for ever. */
module Starvation {
  import opened ReadyQueue
  import opened Scheduler
  import opened Fairness

  /** The ticks that find a killed process in user mode. */
  ghost function KilledTicks(s: Sched, es: seq<Event>): nat
    requires SInv(s)
  {
    if es == [] then 0 else
      var t, e := Exec(s, es[..|es| - 1]), es[|es| - 1];
      KilledTicks(s, es[..|es| - 1]) + if Enabled(t, e) && e == UserTick && t.killed[t.cur] then 1 else 0
  }

  lemma {:induction false} TicksSplit(s: Sched, es: seq<Event>)
    requires SInv(s)
    ensures TimerTicks(s, es) == AgingTicks(s, es) + KilledTicks(s, es)
  {
    if es != [] {
      TicksSplit(s, es[..|es| - 1]);
    }
  }

  /** Bounded waiting in timer ticks, for runs in which no tick finds a killed process in user mode. */
  lemma {:induction false} BoundedTimerWaiting(s: Sched, es: seq<Event>, x: int) returns (k: nat)
    requires SInv(s) && s.r.In(x) && KilledTicks(s, es) == 0
    requires TimerTicks(s, es) >= AGING_TICKS * s.r.prio[x] + NPROC
    ensures k <= |es| && Exec(s, es[..k]).cur == x
  {
    TicksSplit(s, es);
    k := BoundedWaiting(s, es, x);
  }

  // ----- The failing family -----

  /** A process runs at a level better than every queued one, x is queued, a slot is free and nobody
      sleeps on &ticks. */
  ghost predicate Starving(s: Sched, x: int) {
    && SInv(s) && s.cur != s.idle && s.r.In(x)
    && (forall l :: 0 <= l <= s.r.prio[s.cur] ==> s.r.q[l] == [])
    && (exists p :: 0 <= p < NPROC && s.state[p] == UNUSED)
    && (forall p :: 0 <= p < NPROC && s.state[p] == SLEEPING ==> s.chan[p] != TICKS)
  }

  lemma FirstFree(s: Sched, n: nat) returns (c: int)
    requires |s.state| == NPROC && n <= NPROC && forall p :: 0 <= p < n ==> s.state[p] != UNUSED
    requires exists p :: 0 <= p < NPROC && s.state[p] == UNUSED
    ensures 0 <= c < NPROC && s.state[c] == UNUSED && forall p :: 0 <= p < c ==> s.state[p] != UNUSED
    decreases NPROC - n
  {
    if n < NPROC && s.state[n] == UNUSED {
      c := n;
    } else {
      c := FirstFree(s, n + 1);
    }
  }

  lemma {:induction false} NobodyWakes(s: Sched, ch: int, n: nat)
    requires SInv(s) && n <= NPROC && forall p :: 0 <= p < n ==> !Wakes(s, ch, p)
    ensures WokenTo(s, ch, n) == s
  {
    if n > 0 {
      NobodyWakes(s, ch, n - 1);
    }
  }

  lemma StillAsleep(s: Sched, ch: int, d: int, p: int)
    requires s.Typed() && 0 <= d < NPROC && 0 <= p < NPROC && p != d && !Wakes(s, ch, p)
    ensures !Wakes(MakeReady(s, d), ch, p)
  {
  }

  lemma {:induction false} OneWakes(s: Sched, ch: int, n: nat, d: int)
    requires SInv(s) && 0 <= d < n <= NPROC && Wakes(s, ch, d)
    requires forall p :: 0 <= p < NPROC && p != d ==> !Wakes(s, ch, p)
    ensures WokenTo(s, ch, n) == MakeReady(s, d)
  {
    if n - 1 == d {
      NobodyWakes(s, ch, n - 1);
    } else {
      OneWakes(s, ch, n - 1, d);
      StillAsleep(s, ch, d, n - 1);
    }
  }

  /** d has forked c at its own level and killed it; c is alone at the best level. */
  ghost predicate ChildQueued(s: Sched, x: int, d: int, c: int) {
    && SInv(s) && s.cur == d != s.idle && s.r.In(x) && x != c && 0 <= c < NPROC && c != d && c != s.idle
    && s.r.prio[c] == s.r.prio[d] && s.r.q[s.r.prio[d]] == [c] && s.state[c] == RUNNABLE
    && (forall l :: 0 <= l < s.r.prio[d] ==> s.r.q[l] == [])
    && (forall p :: 0 <= p < NPROC && s.state[p] == SLEEPING ==> s.chan[p] != TICKS)
  }

  lemma ForkAllocated(s: Sched, x: int, c: int)
    requires Starving(s, x) && 0 <= c < NPROC && s.state[c] == UNUSED && forall p :: 0 <= p < c ==> s.state[p] != UNUSED
    ensures var t := After(s, ForkAlloc(c));
            && Enabled(s, ForkAlloc(c)) && t == Refiled(s, c, USED, PRIO_DEFAULT) && SInv(t) && t.r.In(x) && Enabled(t, ForkStart(c))
  {
    Absent(s, c);
    RefiledInv(s, c, USED, PRIO_DEFAULT);
  }

  lemma ForkChild(s: Sched, x: int, c: int)
    requires Starving(s, x) && 0 <= c < NPROC && s.state[c] == UNUSED && forall p :: 0 <= p < c ==> s.state[p] != UNUSED
    ensures var t1 := After(s, ForkAlloc(c));
            && Enabled(s, ForkAlloc(c)) && t1.r.In(x) && Enabled(t1, ForkStart(c))
            && ChildQueued(After(t1, ForkStart(c)), x, s.cur, c)
  {
    ForkAllocated(s, x, c);
    var t1 := Refiled(s, c, USED, PRIO_DEFAULT);
    ForkStarted(s, t1, x, c);
  }

  lemma ForkStarted(s: Sched, t1: Sched, x: int, c: int)
    requires Starving(s, x) && 0 <= c < NPROC && s.state[c] == UNUSED
    requires t1 == Refiled(s, c, USED, PRIO_DEFAULT) && SInv(t1) && t1.r.In(x) && Enabled(t1, ForkStart(c))
    ensures ChildQueued(After(t1, ForkStart(c)), x, s.cur, c)
  {
    Absent(s, c);
    Absent(t1, c);
    RefiledInv(t1, c, USED, t1.r.prio[t1.cur]);
    var t2 := Refiled(t1, c, USED, t1.r.prio[t1.cur]);
    ReadiedInv(t2, c);
    assert After(t1, ForkStart(c)) == MakeReady(t2, c);
  }

  /** d has gone to sleep on &ticks and the killed child runs. */
  ghost predicate ChildRuns(s: Sched, x: int, d: int, c: int) {
    && SInv(s) && s.cur == c != s.idle && s.killed[c] && s.r.In(x) && 0 <= d < NPROC && d != c && d != s.idle && x != d
    && s.state[d] == SLEEPING && s.chan[d] == TICKS
    && s.r.prio[c] == s.r.prio[d]
    && (forall l :: 0 <= l <= s.r.prio[d] ==> s.r.q[l] == [])
    && (forall p :: 0 <= p < NPROC && p != d && s.state[p] == SLEEPING ==> s.chan[p] != TICKS)
  }

  lemma KillAndSleep(s: Sched, x: int, d: int, c: int)
    requires ChildQueued(s, x, d, c)
    ensures var t := After(s, Kill(c));
            && Enabled(s, Kill(c)) && t.r.In(x) && Enabled(t, SleepOn(TICKS))
            && ChildRuns(After(t, SleepOn(TICKS)), x, d, c)
  {
    assert After(s, Kill(c)) == s.(killed := s.killed[c := true]);
    SleepBehind(s.(killed := s.killed[c := true]), x, d, c);
  }

  /** d sleeps on &ticks and c is picked. */
  lemma SleepBehind(s: Sched, x: int, d: int, c: int)
    requires ChildQueued(s, x, d, c) && s.killed[c]
    ensures Enabled(s, SleepOn(TICKS)) && ChildRuns(After(s, SleepOn(TICKS)), x, d, c)
  {
    ParkPicks(s, SLEEPING, TICKS, s.r.prio[d], c);
    assert After(s, SleepOn(TICKS)) == Dispatched(Parked(s, SLEEPING, TICKS));
  }

  /** The running process gives up the CPU and the head of the best level is picked. */
  lemma ParkPicks(s: Sched, st: PState, ch: int, h: int, p: int)
    requires SInv(s) && s.cur != s.idle && st != RUNNABLE && st != RUNNING
    requires 0 <= h < NPRIO && s.r.q[h] != [] && s.r.q[h][0] == p != s.idle && forall l :: 0 <= l < h ==> s.r.q[l] == []
    ensures 0 <= p < NPROC
    ensures var t := Dispatched(Parked(s, st, ch));
            && t == s.(cur := p, state := s.state[s.cur := st][p := RUNNING], chan := s.chan[s.cur := ch],
                       r := Ready(Popped(s.r.q, h), s.r.prio, s.r.wait[p := 0]))
            && SInv(t) && forall x :: t.r.In(x) <==> s.r.In(x) && x != p
  {
    var u := Parked(s, st, ch);
    ParkInv(s, st, ch);
    BestUnique(u.r.q, h);
    DispatchPicks(u);
    PoppedValid(u.r, h);
    assert s.r.prio[p] == h;
    assert forall x :: Dispatched(u).r.In(x) <==> u.r.(q := Popped(u.r.q, h)).In(x);
  }

  /** The tick has woken d, which is now alone at the best level; c is on its way to exit(). */
  ghost predicate ParentQueued(s: Sched, x: int, d: int, c: int) {
    && SInv(s) && s.cur == c != s.idle && s.r.In(x) && 0 <= d < NPROC && d != c && d != s.idle && x != d
    && s.r.prio[c] == s.r.prio[d] && s.r.q[s.r.prio[d]] == [d] && s.state[d] == RUNNABLE
    && (forall l :: 0 <= l < s.r.prio[d] ==> s.r.q[l] == [])
    && (forall p :: 0 <= p < NPROC && s.state[p] == SLEEPING ==> s.chan[p] != TICKS)
  }

  lemma KilledTick(s: Sched, x: int, d: int, c: int)
    requires ChildRuns(s, x, d, c)
    ensures Enabled(s, UserTick) && !Ages(s, UserTick) && ParentQueued(After(s, UserTick), x, d, c)
  {
    OneWakes(s, TICKS, NPROC, d);
    ReadiedInv(s, d);
    assert After(s, UserTick) == MakeReady(s, d);
  }

  lemma ExitAndReap(s: Sched, x: int, d: int, c: int)
    requires ParentQueued(s, x, d, c)
    ensures var t := After(s, Exit);
            Enabled(s, Exit) && t.r.In(x) && Enabled(t, Reap(c)) && Starving(After(t, Reap(c)), x)
  {
    ExitPicks(s, x, d, c);
    ReapChild(After(s, Exit), x, d, c);
  }

  /** c exits and d is picked. */
  lemma ExitPicks(s: Sched, x: int, d: int, c: int)
    requires ParentQueued(s, x, d, c)
    ensures Enabled(s, Exit)
    ensures var t := After(s, Exit);
            && SInv(t) && t.cur == d != t.idle && t.r.In(x) && 0 <= c < NPROC && c != d && t.state[c] == ZOMBIE
            && (forall l :: 0 <= l <= t.r.prio[d] ==> t.r.q[l] == [])
            && (forall p :: 0 <= p < NPROC && t.state[p] == SLEEPING ==> t.chan[p] != TICKS)
  {
    ParkPicks(s, ZOMBIE, s.chan[s.cur], s.r.prio[d], d);
    assert After(s, Exit) == Dispatched(Parked(s, ZOMBIE, s.chan[s.cur]));
  }

  lemma ReapChild(s: Sched, x: int, d: int, c: int)
    requires SInv(s) && s.cur == d != s.idle && s.r.In(x) && 0 <= c < NPROC && c != d && s.state[c] == ZOMBIE
    requires forall l :: 0 <= l <= s.r.prio[d] ==> s.r.q[l] == []
    requires forall p :: 0 <= p < NPROC && s.state[p] == SLEEPING ==> s.chan[p] != TICKS
    ensures Enabled(s, Reap(c)) && Starving(After(s, Reap(c)), x)
  {
    FreedInv(s, c);
    assert After(s, Reap(c)).state[c] == UNUSED;
  }

  lemma ExtendRun(s: Sched, es: seq<Event>, e: Event, x: int)
    requires SInv(s) && Waits(s, es, x) && After(Exec(s, es), e).r.In(x)
    ensures Exec(s, es + [e]) == After(Exec(s, es), e) && Waits(s, es + [e], x)
    ensures var t := Exec(s, es);
            TimerTicks(s, es + [e]) == TimerTicks(s, es) + if Enabled(t, e) && (e == KernelTick || e == UserTick) then 1 else 0
  {
    assert (es + [e])[..|es|] == es;
  }

  lemma StarveOnce(s: Sched, es: seq<Event>, x: int) returns (fs: seq<Event>)
    requires SInv(s) && Waits(s, es, x) && Starving(Exec(s, es), x)
    ensures Waits(s, fs, x) && Starving(Exec(s, fs), x) && TimerTicks(s, fs) == TimerTicks(s, es) + 1
  {
    var t := Exec(s, es);
    var d := t.cur;
    var c := FirstFree(t, 0);
    ForkChild(t, x, c);
    ExtendRun(s, es, ForkAlloc(c), x);
    fs := es + [ForkAlloc(c)];
    ExtendRun(s, fs, ForkStart(c), x);
    fs := fs + [ForkStart(c)];
    KillAndSleep(Exec(s, fs), x, d, c);
    ExtendRun(s, fs, Kill(c), x);
    fs := fs + [Kill(c)];
    ExtendRun(s, fs, SleepOn(TICKS), x);
    fs := fs + [SleepOn(TICKS)];
    KilledTick(Exec(s, fs), x, d, c);
    ExtendRun(s, fs, UserTick, x);
    fs := fs + [UserTick];
    ExitAndReap(Exec(s, fs), x, d, c);
    ExtendRun(s, fs, Exit, x);
    fs := fs + [Exit];
    ExtendRun(s, fs, Reap(c), x);
    fs := fs + [Reap(c)];
  }

  /** Starvation: from such a state, for every n there is a run with n timer ticks during all of
      which x stays queued. */
  lemma {:induction false} Starves(s: Sched, x: int, n: nat) returns (es: seq<Event>)
    requires Starving(s, x)
    ensures Waits(s, es, x) && Starving(Exec(s, es), x) && TimerTicks(s, es) == n
  {
    if n == 0 {
      es := [];
    } else {
      es := Starves(s, x, n - 1);
      es := StarveOnce(s, es, x);
    }
  }
}
