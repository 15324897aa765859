/** The idle process in the ready queue. A comment in schedule says it is never there, but a timer tick
    in the kernel yields whoever is on the CPU. From boot one tick queues it; it then ages like everybody
    else, and after 221 ticks schedule() runs it while initproc is ready. */
module IdleRun {
  import opened ReadyQueue
  import opened Scheduler
  import opened Fairness
  import opened Starvation
  import opened StarvingRun

  /** Level l holds p, and nobody else is queued. */
  ghost predicate Alone(q: Queues, l: int, p: int) {
    |q| == NPRIO && 0 <= l < NPRIO && q[l] == [p] && forall k :: 0 <= k < NPRIO && k != l ==> q[k] == []
  }

  ghost predicate NobodySleeps(s: Sched) {
    |s.state| == NPROC && forall p :: 0 <= p < NPROC ==> s.state[p] != SLEEPING
  }

  /** Where one tick leaves p, alone on level l. */
  function LevelAfter(r: Ready, l: int, p: int): int
    requires 0 <= p < |r.prio| && p < |r.wait|
  {
    if r.Ripe(p) then l - 1 else l
  }

  lemma AloneIn(r: Ready, l: int, p: int)
    requires r.Valid() && Alone(r.q, l, p)
    ensures 0 <= p < NPROC && r.prio[p] == l && forall x :: r.In(x) <==> x == p
  {
    assert r.q[l][0] == p;
  }

  lemma AloneLevel(r: Ready, l: int, p: int, k: nat)
    requires r.Valid() && Alone(r.q, l, p) && k < NPRIO && 0 <= p < NPROC
    ensures Ticked(r).q[k] == if k == LevelAfter(r, l, p) then [p] else []
  {
    TickedAt(r, k);
    assert [p][..0] == [];
    assert Stayers(r, [p]) == if r.Ripe(p) then [] else [p];
    assert Risers(r, [p]) == if r.Ripe(p) then [p] else [];
  }

  /** One tick of a queue of one. */
  lemma AloneTicked(r: Ready, l: int, p: int)
    requires r.Valid() && Alone(r.q, l, p)
    ensures 0 <= p < NPROC && r.prio[p] == l && Alone(Ticked(r).q, LevelAfter(r, l, p), p)
    ensures Ticked(r).prio == r.prio[p := LevelAfter(r, l, p)]
    ensures |Ticked(r).wait| == NPROC && Ticked(r).wait[p] == if r.Ripe(p) then 0 else r.wait[p] + 1
  {
    AloneIn(r, l, p);
    forall k | 0 <= k < NPRIO
      ensures Ticked(r).q[k] == if k == LevelAfter(r, l, p) then [p] else []
    {
      AloneLevel(r, l, p, k);
    }
  }

  /** What a tick in the kernel does when nobody sleeps. */
  lemma TickIs(s: Sched, h: int)
    requires SInv(s) && NobodySleeps(s) && IsHighest(Ticked(s.r).q, h) && h >= 0
    ensures SInv(Aged(s))
    ensures Step(s, KernelTick) == if h <= Aged(s).r.prio[s.cur] then Yielded(Aged(s)) else Aged(s)
  {
    AgedInv(s);
    NobodyWakes(s, TICKS, NPROC);
    BestUnique(Ticked(s.r).q, h);
  }

  // ----- The first tick -----

  /** initproc runs and the idle process is queued, alone, at level l, where it has waited for w ticks. */
  ghost predicate IdleWaits(s: Sched, l: int, w: int) {
    && SInv(s) && s.cur == 0 && s.idle == 1 && NobodySleeps(s) && s.r.prio[0] == PRIO_DEFAULT
    && Alone(s.r.q, l, 1) && s.r.wait[1] == w
  }

  /** It has been queued for t ticks. */
  ghost predicate Climbing(s: Sched, t: nat) {
    IdleWaits(s, LevelAt(t), t % 20)
  }

  /** It starts at level 31 and rises every 20 ticks. */
  function LevelAt(t: nat): int {
    31 - t / 20
  }

  /** The idle process yields to the only process queued. */
  lemma IdleYields(a: Sched, h: int, p: int)
    requires SInv(a) && a.cur == a.idle && Alone(a.r.q, h, p) && h < a.r.prio[a.idle]
    ensures 0 <= p < NPROC && p != a.idle && a.r.prio[p] == h
    ensures var q := Push(a.r.q, a.r.prio[a.idle], a.idle);
            && q[h] == [p]
            && Yielded(a) == a.(cur := p, state := a.state[a.idle := RUNNABLE][p := RUNNING],
                                r := Ready(Popped(q, h), a.r.prio, a.r.wait[a.idle := 0][p := 0]))
  {
    CurNotQueued(a);
    QueueOk(a);
    assert a.r.q[h][0] == p;
    ReadyInv(a, a.idle);
    var m := MakeReady(a, a.idle);
    BestUnique(m.r.q, h);
    DispatchPicks(m);
  }

  lemma BootAlone()
    ensures var s := Boot(0, 1);
            && SInv(s) && NobodySleeps(s) && s.cur == s.idle == 1 && s.r.prio[0] == 20 && s.r.prio[1] == 31
            && Alone(s.r.q, 20, 0) && s.r.wait[0] == 0
  {
    BootQueue();
    BootInv(Boot(0, 1), 0);
  }

  lemma FirstTickQueues(s: Sched)
    requires SInv(s) && NobodySleeps(s) && s.cur == s.idle == 1 && s.r.prio[0] == 20 && s.r.prio[1] == 31
    requires Alone(s.r.q, 20, 0) && s.r.wait[0] == 0
    ensures Climbing(Step(s, KernelTick), 0)
  {
    AloneTicked(s.r, 20, 0);
    TickIs(s, 20);
    StepInv(s, KernelTick);
    IdleYields(Aged(s), 20, 0);
    ClimbStarts(Aged(s), Step(s, KernelTick));
  }

  lemma ClimbStarts(a: Sched, u: Sched)
    requires SInv(u) && a.Typed() && a.idle == 1 && NobodySleeps(a) && a.r.prio[0] == 20 && a.r.prio[1] == 31
    requires Alone(a.r.q, 20, 0) && Push(a.r.q, 31, 1)[20] == [0]
    requires u == a.(cur := 0, state := a.state[1 := RUNNABLE][0 := RUNNING],
                     r := Ready(Popped(Push(a.r.q, 31, 1), 20), a.r.prio, a.r.wait[1 := 0][0 := 0]))
    ensures Climbing(u, 0)
  {
    assert u.r.q[31] == [] + [1];
  }

  /** One timer tick after boot the idle process is in the ready queue. */
  lemma IdleQueued()
    ensures SInv(Boot(0, 1))
    ensures var s := Step(Boot(0, 1), KernelTick); s.r.In(s.idle) && Climbing(s, 0)
  {
    BootAlone();
    FirstTickQueues(Boot(0, 1));
    var s := Step(Boot(0, 1), KernelTick);
    AloneIn(s.r, 31, 1);
  }

  // ----- The climb -----

  function NextWait(w: int): int {
    if w + 1 >= AGING_TICKS then 0 else w + 1
  }

  function NextLevel(l: int, w: int): int {
    if w + 1 >= AGING_TICKS then l - 1 else l
  }

  lemma WaitAged(s: Sched, l: int, w: int)
    requires IdleWaits(s, l, w) && l > 0
    ensures IdleWaits(Aged(s), NextLevel(l, w), NextWait(w)) && IsHighest(Ticked(s.r).q, NextLevel(l, w))
  {
    AgedInv(s);
    AloneTicked(s.r, l, 1);
  }

  /** While the idle process is below initproc's level a tick only ages it. */
  lemma WaitOne(s: Sched, l: int, w: int)
    requires IdleWaits(s, l, w) && l > 0 && NextLevel(l, w) > PRIO_DEFAULT
    ensures Step(s, KernelTick) == Aged(s)
  {
    WaitAged(s, l, w);
    TickIs(s, NextLevel(l, w));
  }

  lemma ClimbNext(t: nat)
    requires t < 219
    ensures LevelAt(t) > 0 && NextLevel(LevelAt(t), t % 20) == LevelAt(t + 1) > PRIO_DEFAULT && NextWait(t % 20) == (t + 1) % 20
  {
  }

  lemma ClimbAged(s: Sched, t: nat)
    requires Climbing(s, t) && t < 219
    ensures Climbing(Aged(s), t + 1)
  {
    ClimbNext(t);
    WaitAged(s, LevelAt(t), t % 20);
  }

  lemma ClimbOne(s: Sched, t: nat)
    requires Climbing(s, t) && t < 219
    ensures Climbing(Step(s, KernelTick), t + 1)
  {
    ClimbAged(s, t);
    ClimbNext(t);
    WaitOne(s, LevelAt(t), t % 20);
  }

  /** When it reaches that level, initproc yields to it. */
  lemma ClimbDone(s: Sched)
    requires Climbing(s, 219)
    ensures var u := Step(s, KernelTick); u.cur == u.idle && u.state[0] == RUNNABLE && u.r.In(0)
  {
    AloneTicked(s.r, 21, 1);
    TickIs(s, 20);
    YieldsToIdle(Aged(s), 20);
  }

  lemma YieldsToIdle(a: Sched, h: int)
    requires SInv(a) && a.cur != a.idle && Alone(a.r.q, h, a.idle) && a.r.prio[a.cur] == h
    ensures var u := Yielded(a); u.cur == a.idle && u.state[a.cur] == RUNNABLE && u.r.In(a.cur)
  {
    CurNotQueued(a);
    QueueOk(a);
    ReadyInv(a, a.cur);
    var m := MakeReady(a, a.cur);
    assert m.r.q[h] == [a.idle, a.cur];
    BestUnique(m.r.q, h);
    DispatchPicks(m);
    assert Popped(m.r.q, h)[h] == [a.cur];
  }

  function Ticks(n: nat): seq<Event> {
    seq(n, _ => KernelTick)
  }

  lemma TicksNext(t: nat)
    requires SInv(Boot(0, 1))
    ensures Ticks(0) == [] && Exec(Boot(0, 1), Ticks(t + 1)) == Step(Exec(Boot(0, 1), Ticks(t)), KernelTick)
  {
    assert Ticks(t + 1) == Ticks(t) + [KernelTick];
    RunOne(Boot(0, 1), Ticks(t), KernelTick);
  }

  lemma {:induction false} Climbs(t: nat)
    requires t <= 219
    ensures SInv(Boot(0, 1)) && Climbing(Exec(Boot(0, 1), Ticks(t + 1)), t)
  {
    IdleQueued();
    TicksNext(t);
    if t > 0 {
      Climbs(t - 1);
      ClimbOne(Exec(Boot(0, 1), Ticks(t)), t - 1);
    }
  }

  /** After 221 timer ticks from boot the idle process runs although initproc is ready and queued. */
  lemma IdleRunsBeforeInit()
    ensures SInv(Boot(0, 1))
    ensures var s := Exec(Boot(0, 1), Ticks(221)); s.cur == s.idle == 1 && s.state[0] == RUNNABLE && s.r.In(0)
  {
    Climbs(219);
    TicksNext(220);
    ClimbDone(Exec(Boot(0, 1), Ticks(220)));
  }
}
