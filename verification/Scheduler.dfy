/** The process-state machine of kernel/proc.c and the timer tick of kernel/trap.c on one CPU.

    A step is one critical section as seen by the rest of the kernel: sleep() and exit() are taken
    through to schedule() in one step. Every list of steps is a run. */
module Scheduler {
  import opened Collections
  import opened Guards
  import opened ReadyQueue

  datatype PState = UNUSED | USED | SLEEPING | RUNNABLE | RUNNING | ZOMBIE

  const PRIO_DEFAULT: int := 20
  const TICKS: int := 1 // the channel &ticks

  datatype Sched = Sched(
    r: Ready, state: seq<PState>, chan: seq<int>, killed: seq<bool>, cur: int, idle: int, pending: bool)
  {
    ghost predicate Typed() {
      && r.Valid()
      && |state| == |chan| == |killed| == NPROC
      && 0 <= cur < NPROC && 0 <= idle < NPROC
      && forall p :: 0 <= p < NPROC ==> 0 <= r.prio[p] < NPRIO
    }
  }

  // ----- The ready queue under its three operations -----

  lemma EnqueuedValid(r: Ready, p: int)
    requires r.Valid() && 0 <= p < NPROC && 0 <= r.prio[p] < NPRIO && !r.In(p)
    ensures Enqueued(r, p).Valid()
    ensures forall x :: Enqueued(r, p).In(x) <==> r.In(x) || x == p
  {
    InIsQueued(r, p);
    PushFiled(r.q, r.prio, r.prio[p], p);
  }

  lemma PoppedValid(r: Ready, h: int)
    requires r.Valid() && 0 <= h < NPRIO && r.q[h] != []
    ensures var r' := r.(q := Popped(r.q, h));
            r'.Valid() && forall x :: r'.In(x) <==> r.In(x) && x != r.q[h][0]
  {
    var s := r.q[h];
    WithoutHead(s);
    assert r.prio[s[0]] == h;
    DropFiled(r.q, r.prio, h, s[0]);
    assert forall x :: x in s[1..] <==> x in s && x != s[0];
  }

  lemma {:induction false} StayersNoDup(r: Ready, s: seq<int>)
    requires |r.prio| == |r.wait| == NPROC && Slots(s) && NoDup(s)
    ensures NoDup(Stayers(r, s)) && NoDup(Risers(r, s))
  {
    if s != [] {
      var n := |s| - 1;
      StayersNoDup(r, s[..n]);
      StayersIn(r, s[..n], s[n]);
      assert s[n] !in s[..n];
    }
  }

  lemma {:induction false} NoneRipe(r: Ready, s: seq<int>)
    requires |r.prio| == |r.wait| == NPROC && Slots(s) && forall i :: 0 <= i < |s| ==> !r.Ripe(s[i])
    ensures Stayers(r, s) == s
  {
    if s != [] {
      NoneRipe(r, s[..|s| - 1]);
    }
  }

  lemma TickedLevel(r: Ready, l: nat, x: int)
    requires r.Valid() && l < NPRIO
    ensures x in Ticked(r).q[l] <==> (x in r.q[l] && !r.Ripe(x)) || (l + 1 < NPRIO && x in r.q[l + 1] && r.Ripe(x))
  {
    AllSlots(r);
    StayersIn(r, r.q[l], x);
    if l + 1 < NPRIO {
      StayersIn(r, r.q[l + 1], x);
    }
  }

  lemma TickedNoDup(r: Ready, l: nat)
    requires r.Valid() && l < NPRIO
    ensures NoDup(Ticked(r).q[l])
  {
    AllSlots(r);
    var a := Stayers(r, r.q[l]);
    StayersNoDup(r, r.q[l]);
    if l + 1 < NPRIO {
      var b := Risers(r, r.q[l + 1]);
      StayersNoDup(r, r.q[l + 1]);
      forall x | x in a
        ensures x !in b
      {
        StayersApart(r, l, x);
      }
      NoDupAppend(a, b);
      assert Ticked(r).q[l] == a + b;
    }
  }

  lemma StayersApart(r: Ready, l: nat, x: int)
    requires r.Valid() && l + 1 < NPRIO && Slots(r.q[l]) && Slots(r.q[l + 1]) && x in Stayers(r, r.q[l])
    ensures x !in Risers(r, r.q[l + 1])
  {
    StayersIn(r, r.q[l], x);
    StayersIn(r, r.q[l + 1], x);
    FiledLevel(r, x);
  }

  /** A queued process is on the level of its priority and on no other. */
  lemma FiledLevel(r: Ready, x: int)
    requires r.Valid()
    ensures forall k :: 0 <= k < NPRIO && x in r.q[k] ==> 0 <= x < NPROC && r.prio[x] == k
  {
    forall k | 0 <= k < NPRIO && x in r.q[k]
      ensures 0 <= x < NPROC && r.prio[x] == k
    {
      assert r.q[k][IndexIn(r.q[k], x)] == x;
    }
  }

  lemma NoDupAppend(a: seq<int>, b: seq<int>)
    requires NoDup(a) && NoDup(b) && forall x :: x in a ==> x !in b
    ensures NoDup(a + b)
  {
    forall i, j | 0 <= i < j < |a + b|
      ensures (a + b)[i] != (a + b)[j]
    {
      if i < |a| <= j {
        assert a[i] in a && b[j - |a|] in b;
      }
    }
  }

  /** Aging loses and duplicates nobody and keeps everybody filed under their own priority. */
  lemma {:induction false} TickedValid(r: Ready)
    requires r.Valid()
    ensures Ticked(r).Valid()
    ensures forall x :: Ticked(r).In(x) <==> r.In(x)
  {
    var t := Ticked(r);
    forall l, i | 0 <= l < NPRIO && 0 <= i < |t.q[l]|
      ensures 0 <= t.q[l][i] < NPROC && t.prio[t.q[l][i]] == l
    {
      assert t.q[l][i] in t.q[l];
      TickedPrio(r, l, t.q[l][i]);
    }
    forall l | 0 <= l < NPRIO
      ensures NoDup(t.q[l])
    {
      TickedNoDup(r, l);
    }
    forall x
      ensures t.In(x) <==> r.In(x)
    {
      TickedIn(r, x);
    }
  }

  lemma TickedPrio(r: Ready, l: nat, x: int)
    requires r.Valid() && l < NPRIO && x in Ticked(r).q[l]
    ensures 0 <= x < NPROC && Ticked(r).prio[x] == l
  {
    TickedLevel(r, l, x);
    FiledLevel(r, x);
  }

  lemma TickedIn(r: Ready, x: int)
    requires r.Valid()
    ensures Ticked(r).In(x) <==> r.In(x)
  {
    var t := Ticked(r);
    if r.In(x) {
      TickedLevel(r, r.prio[x], x);
      if r.Ripe(x) {
        TickedLevel(r, r.prio[x] - 1, x);
      }
    }
    if t.In(x) {
      TickedLevel(r, t.prio[x], x);
      FiledLevel(r, x);
    }
  }

  // ----- schedule() -----

  ghost function Total(q: Queues): nat {
    if q == [] then 0 else Total(q[..|q| - 1]) + |q[|q| - 1]|
  }

  lemma {:induction false} TotalUpdate(q: Queues, l: nat, s: seq<int>)
    requires l < |q|
    ensures Total(q[l := s]) == Total(q) - |q[l]| + |s|
  {
    var n := |q| - 1;
    if l < n {
      assert q[l := s][..n] == q[..n][l := s];
      TotalUpdate(q[..n], l, s);
    } else {
      assert q[l := s][..n] == q[..n];
    }
  }

  ghost function BestFrom(q: Queues, l: nat): (h: int)
    requires l <= |q|
    ensures h == -1 || (l <= h < |q| && q[h] != [])
    ensures forall k :: l <= k < |q| && (h < 0 || k < h) ==> q[k] == []
    decreases |q| - l
  {
    if l == |q| then -1 else if q[l] != [] then l else BestFrom(q, l + 1)
  }

  /** The least non-empty level, or -1. */
  ghost function Best(q: Queues): (h: int)
    ensures IsHighest(q, h)
  {
    BestFrom(q, 0)
  }

  lemma BestUnique(q: Queues, h: int)
    requires IsHighest(q, h)
    ensures h == Best(q)
  {
  }

  /** schedule(): take the head of the best level, skipping entries that are not RUNNABLE; idle if none is left. */
  ghost function Dispatched(s: Sched): (t: Sched)
    requires s.Typed()
    ensures t.Typed() && t.idle == s.idle && t.killed == s.killed && t.chan == s.chan
    decreases Total(s.r.q)
  {
    var h := Best(s.r.q);
    if h < 0 then s.(cur := s.idle)
    else
      var p := s.r.q[h][0];
      PoppedValid(s.r, h);
      TotalUpdate(s.r.q, h, s.r.q[h][1..]);
      var t := s.(r := s.r.(q := Popped(s.r.q, h)));
      if p == s.idle then t.(cur := p)
      else if s.state[p] == RUNNABLE then
        t.(state := s.state[p := RUNNING], r := t.r.(wait := t.r.wait[p := 0]), cur := p)
      else Dispatched(t)
  }

  // ----- Invariants -----

  ghost predicate WaitOk(r: Ready)
    requires r.Valid()
  {
    forall p :: r.In(p) ==> 0 <= r.wait[p] && (r.prio[p] > 0 ==> r.wait[p] < AGING_TICKS)
  }

  /** RUNNABLE and queued are the same thing. */
  ghost predicate QueueInv(s: Sched) {
    && s.Typed()
    && s.state[s.idle] == RUNNABLE
    && WaitOk(s.r)
    && forall p :: 0 <= p < NPROC && p != s.idle ==> (s.state[p] == RUNNABLE <==> s.r.In(p))
  }

  /** No process other than `except` is RUNNING. */
  ghost predicate OnlyRunning(s: Sched, except: int)
    requires |s.state| == NPROC
  {
    forall p :: 0 <= p < NPROC && p != except && p != s.idle ==> s.state[p] != RUNNING
  }

  /** The state between atomic steps. */
  ghost predicate SInv(s: Sched) {
    && s.Typed()
    && forall x {:trigger Settled(x)} :: Settled(x) ==>
         && QueueInv(s)
         && OnlyRunning(s, s.cur)
         && (s.cur != s.idle ==> s.state[s.cur] == RUNNING)
         && (s.r.In(s.idle) ==> s.cur != s.idle)
  }

  /** schedule() never skips: it runs the FIFO head of the best level, whoever that is, and idle when
      nothing is queued. */
  lemma {:induction false} DispatchPicks(s: Sched)
    requires QueueInv(s)
    ensures var (t, h) := (Dispatched(s), Best(s.r.q));
            if h < 0 then t == s.(cur := s.idle)
            else
              var p := s.r.q[h][0];
              t == s.(cur := p,
                      r := Ready(Popped(s.r.q, h), s.r.prio, if p == s.idle then s.r.wait else s.r.wait[p := 0]),
                      state := if p == s.idle then s.state else s.state[p := RUNNING])
  {
    var h := Best(s.r.q);
    if h >= 0 {
      var p := s.r.q[h][0];
      assert s.r.prio[p] == h && s.r.In(p);
    }
  }

  /** schedule() runs idle exactly when nothing is queued or idle itself is the head of the best level. */
  lemma DispatchIdle(s: Sched)
    requires QueueInv(s)
    ensures Dispatched(s).cur == s.idle <==> Best(s.r.q) < 0 || s.r.q[Best(s.r.q)][0] == s.idle
  {
    DispatchPicks(s);
  }

  lemma {:induction false} DispatchInv(s: Sched)
    requires QueueInv(s) && OnlyRunning(s, -1)
    ensures SInv(Dispatched(s))
  {
    DispatchPicks(s);
    var h := Best(s.r.q);
    if h < 0 {
      assert forall l :: 0 <= l < NPRIO ==> s.r.q[l] == [];
    } else if s.r.q[h][0] == s.idle {
      PoppedValid(s.r, h);
    } else {
      PickedInv(s, h, s.r.q[h][0]);
    }
  }

  lemma PickedInv(s: Sched, h: nat, p: int)
    requires QueueInv(s) && OnlyRunning(s, -1) && h < NPRIO && s.r.q[h] != [] && p == s.r.q[h][0] != s.idle
    ensures 0 <= p < NPROC
    ensures SInv(s.(cur := p, r := Ready(Popped(s.r.q, h), s.r.prio, s.r.wait[p := 0]), state := s.state[p := RUNNING]))
  {
    PoppedValid(s.r, h);
    assert s.r.prio[p] == h && s.r.In(p);
  }

  // ----- Steps -----

  datatype Event =
    | UserTick // timer interrupt in user mode
    | KernelTick // timer interrupt in the kernel
    | SleepOn(ch: int)
    | WakeupOn(ch: int)
    | Kill(p: int)
    | ForkAlloc(p: int) // allocproc takes a free slot
    | ForkStart(p: int) // the end of fork()
    | ForkFail(p: int) // fork() runs out of memory
    | Exit
    | Reap(p: int) // wait() frees a zombie
    | IdleLoop // idle_main calls schedule()

  /** prio_enqueue(p), with its request for preemption. */
  ghost function Enqueue(s: Sched, p: int): Sched
    requires s.Typed() && 0 <= p < NPROC
  {
    s.(r := Enqueued(s.r, p),
       pending := s.pending || (s.state[s.cur] == RUNNING && s.r.prio[p] < s.r.prio[s.cur]))
  }

  /** Make p RUNNABLE and queue it. */
  ghost function MakeReady(s: Sched, p: int): Sched
    requires s.Typed() && 0 <= p < NPROC
  {
    Enqueue(s.(state := s.state[p := RUNNABLE]), p)
  }

  lemma ReadyInv(s: Sched, p: int)
    requires QueueInv(s) && 0 <= p < NPROC && !s.r.In(p)
    ensures QueueInv(MakeReady(s, p))
    ensures forall x :: MakeReady(s, p).r.In(x) <==> s.r.In(x) || x == p
  {
    EnqueuedValid(s.r, p);
  }

  ghost function Yielded(s: Sched): Sched
    requires SInv(s)
  {
    assert Settled(true);
    ReadyInv(s, s.cur);
    Dispatched(MakeReady(s, s.cur))
  }

  lemma YieldInv(s: Sched)
    requires SInv(s)
    ensures SInv(Yielded(s))
  {
    assert Settled(true);
    ReadyInv(s, s.cur);
    DispatchInv(MakeReady(s, s.cur));
  }

  predicate Wakes(s: Sched, ch: int, p: int)
    requires 0 <= p < |s.state| == |s.chan|
  {
    p != s.cur && s.state[p] == SLEEPING && s.chan[p] == ch
  }

  lemma WakeInv(s: Sched, ch: int, p: int)
    requires SInv(s) && 0 <= p < NPROC && Wakes(s, ch, p)
    ensures SInv(MakeReady(s, p))
  {
    ReadiedInv(s, p);
  }

  /** One turn of the loop of wakeup. */
  ghost function WakeOne(s: Sched, ch: int, p: int): (t: Sched)
    requires SInv(s) && 0 <= p < NPROC
    ensures SInv(t)
    ensures t.chan == s.chan && t.cur == s.cur && t.idle == s.idle && t.killed == s.killed
  {
    if Wakes(s, ch, p) then WakeInv(s, ch, p); MakeReady(s, p) else s
  }

  /** wakeup(ch) over the first n slots of the process table. */
  ghost function WokenTo(s: Sched, ch: int, n: nat): (t: Sched)
    requires SInv(s) && n <= NPROC
    ensures SInv(t)
    ensures t.chan == s.chan && t.cur == s.cur && t.idle == s.idle && t.killed == s.killed
  {
    if n == 0 then s else WakeOne(WokenTo(s, ch, n - 1), ch, n - 1)
  }

  ghost function Woken(s: Sched, ch: int): Sched
    requires SInv(s)
  {
    WokenTo(s, ch, NPROC)
  }

  /** The slots below n that wakeup(ch) puts on level l, in the order of the table. */
  ghost function WokenOn(s: Sched, ch: int, n: nat, l: int): seq<int>
    requires s.Typed() && n <= NPROC
  {
    if n == 0 then [] else
      WokenOn(s, ch, n - 1, l) + if Wakes(s, ch, n - 1) && s.r.prio[n - 1] == l then [n - 1] else []
  }

  lemma {:induction false} WokenOnIs(s: Sched, ch: int, n: nat, l: int)
    requires s.Typed() && n <= NPROC
    ensures var w := WokenOn(s, ch, n, l);
            && (forall i :: 0 <= i < |w| ==> 0 <= w[i] < n && Wakes(s, ch, w[i]) && s.r.prio[w[i]] == l)
            && (forall i, j :: 0 <= i < j < |w| ==> w[i] < w[j])
            && (forall p :: 0 <= p < n && Wakes(s, ch, p) && s.r.prio[p] == l ==> p in w)
  {
    if n > 0 {
      WokenOnIs(s, ch, n - 1, l);
      var v := WokenOn(s, ch, n - 1, l);
      var w := WokenOn(s, ch, n, l);
      assert w == v || w == v + [n - 1];
    }
  }

  /** A process that wakeup(ch) readies among the first n slots is at a better level than the running one. */
  ghost predicate Outranked(s: Sched, ch: int, n: nat)
    requires s.Typed() && n <= NPROC
  {
    s.state[s.cur] == RUNNING && exists p :: 0 <= p < n && Wakes(s, ch, p) && s.r.prio[p] < s.r.prio[s.cur]
  }

  lemma WakeOneLevel(s: Sched, ch: int, p: int, l: int)
    requires SInv(s) && 0 <= p < NPROC && 0 <= l < NPRIO
    ensures WakeOne(s, ch, p).r.q[l] == s.r.q[l] + if Wakes(s, ch, p) && s.r.prio[p] == l then [p] else []
  {
  }

  lemma WakeOnePending(s: Sched, ch: int, p: int)
    requires SInv(s) && 0 <= p < NPROC
    ensures var (t, b) := (WakeOne(s, ch, p), Wakes(s, ch, p));
            t.pending == (s.pending || (b && s.state[s.cur] == RUNNING && s.r.prio[p] < s.r.prio[s.cur]))
  {
  }

  lemma WakeOneAt(s: Sched, ch: int, p: int, x: int)
    requires SInv(s) && 0 <= p < NPROC && 0 <= x < NPROC
    ensures var (t, b) := (WakeOne(s, ch, p), x == p && Wakes(s, ch, p));
            && t.state[x] == (if b then RUNNABLE else s.state[x]) && t.r.prio == s.r.prio
            && t.r.wait[x] == if b then 0 else s.r.wait[x]
  {
  }

  /** Slot p after wakeup has passed the first n slots: ready if it slept on ch, otherwise as it was. */
  lemma {:induction false} WokenToAt(s: Sched, ch: int, n: nat, p: int)
    requires SInv(s) && n <= NPROC && 0 <= p < NPROC
    ensures var (t, b) := (WokenTo(s, ch, n), p < n && Wakes(s, ch, p));
            && t.state[p] == (if b then RUNNABLE else s.state[p]) && t.r.prio == s.r.prio
            && t.r.wait[p] == if b then 0 else s.r.wait[p]
  {
    if n > 0 {
      WokenToAt(s, ch, n - 1, p);
      WakeOneAt(WokenTo(s, ch, n - 1), ch, n - 1, p);
    }
  }

  lemma {:induction false} WokenToWakes(s: Sched, ch: int, n: nat)
    requires SInv(s) && n < NPROC
    ensures var t := WokenTo(s, ch, n);
            t.r.prio == s.r.prio && t.cur == s.cur && t.state[s.cur] == s.state[s.cur] && (Wakes(t, ch, n) <==> Wakes(s, ch, n))
  {
    WokenToAt(s, ch, n, n);
    WokenToAt(s, ch, n, s.cur);
  }

  lemma {:induction false} WokenToLevel(s: Sched, ch: int, n: nat, l: int)
    requires SInv(s) && n <= NPROC && 0 <= l < NPRIO
    ensures WokenTo(s, ch, n).r.q[l] == s.r.q[l] + WokenOn(s, ch, n, l)
  {
    if n > 0 {
      WokenToLevel(s, ch, n - 1, l);
      WokenToWakes(s, ch, n - 1);
      WakeOneLevel(WokenTo(s, ch, n - 1), ch, n - 1, l);
    }
  }

  lemma {:induction false} WokenToPending(s: Sched, ch: int, n: nat)
    requires SInv(s) && n <= NPROC
    ensures WokenTo(s, ch, n).pending <==> s.pending || Outranked(s, ch, n)
  {
    if n > 0 {
      WokenToPending(s, ch, n - 1);
      WokenToWakes(s, ch, n - 1);
      WakeOnePending(WokenTo(s, ch, n - 1), ch, n - 1);
      OutrankedNext(s, ch, n - 1);
    }
  }

  lemma OutrankedNext(s: Sched, ch: int, n: nat)
    requires s.Typed() && n < NPROC
    ensures Outranked(s, ch, n + 1) <==>
            Outranked(s, ch, n) || (s.state[s.cur] == RUNNING && Wakes(s, ch, n) && s.r.prio[n] < s.r.prio[s.cur])
  {
  }

  /** What wakeup(ch) does: the sleepers on ch, and nobody else, become ready; each level gets its own
      at its end, in the order of the process table; preemption is requested when one of them is at a
      better level than the running process. */
  lemma WokenIs(s: Sched, ch: int)
    requires SInv(s)
    ensures var t := Woken(s, ch);
            && (forall p :: 0 <= p < NPROC ==> t.state[p] == if Wakes(s, ch, p) then RUNNABLE else s.state[p])
            && (forall l :: 0 <= l < NPRIO ==> t.r.q[l] == s.r.q[l] + WokenOn(s, ch, NPROC, l))
            && t.r.prio == s.r.prio
            && (forall p :: 0 <= p < NPROC ==> t.r.wait[p] == if Wakes(s, ch, p) then 0 else s.r.wait[p])
            && (t.pending <==> s.pending || Outranked(s, ch, NPROC))
  {
    WokenToPending(s, ch, NPROC);
    forall p | 0 <= p < NPROC
      ensures Woken(s, ch).state[p] == if Wakes(s, ch, p) then RUNNABLE else s.state[p]
      ensures Woken(s, ch).r.wait[p] == if Wakes(s, ch, p) then 0 else s.r.wait[p]
    {
      WokenToAt(s, ch, NPROC, p);
    }
    WokenToAt(s, ch, NPROC, 0);
    forall l | 0 <= l < NPRIO
      ensures Woken(s, ch).r.q[l] == s.r.q[l] + WokenOn(s, ch, NPROC, l)
    {
      WokenToLevel(s, ch, NPROC, l);
    }
  }

  /** prio_should_preempt */
  ghost predicate ShouldPreempt(r: Ready, curPrio: int) {
    0 <= Best(r.q) <= curPrio
  }

  ghost function Aged(s: Sched): Sched
    requires s.Typed()
  {
    s.(r := Ticked(s.r))
  }

  lemma AgedInv(s: Sched)
    requires SInv(s)
    ensures SInv(Aged(s))
  {
    assert Settled(true);
    TickedValid(s.r);
    TickedWait(s.r);
  }

  lemma TickedWait(r: Ready)
    requires r.Valid() && WaitOk(r) && Ticked(r).Valid() && forall x :: Ticked(r).In(x) <==> r.In(x)
    ensures WaitOk(Ticked(r))
  {
    var t := Ticked(r);
    forall p | t.In(p)
      ensures 0 <= t.wait[p] && (t.prio[p] > 0 ==> t.wait[p] < AGING_TICKS)
    {
      assert r.In(p);
    }
  }

  lemma PendingInv(s: Sched)
    requires SInv(s)
    ensures SInv(s.(pending := false))
  {
    assert Settled(true);
  }

  /** A timer tick: clockintr wakes the sleepers on &ticks; a user-mode tick on a killed process goes
      to exit() before it ages anybody; otherwise the queue ages and the process may be preempted. */
  ghost function UserTicked(s: Sched): Sched
    requires SInv(s)
  {
    var w := Woken(s, TICKS);
    if w.killed[w.cur] then w else
      AgedInv(w);
      var a := Aged(w);
      if a.state[a.cur] != RUNNING then a
      else if a.pending then PendingInv(a); Yielded(a.(pending := false))
      else if ShouldPreempt(a.r, a.r.prio[a.cur]) then Yielded(a)
      else a
  }

  ghost function KernelTicked(s: Sched): Sched
    requires SInv(s)
  {
    var w := Woken(s, TICKS);
    AgedInv(w);
    var a := Aged(w);
    if ShouldPreempt(a.r, a.r.prio[a.cur]) then Yielded(a) else a
  }

  /** sleep(ch): the caller is RUNNING, so there is nothing to dequeue. */
  ghost function Parked(s: Sched, st: PState, ch: int): Sched
    requires s.Typed()
  {
    s.(state := s.state[s.cur := st], chan := s.chan[s.cur := ch])
  }

  lemma ParkedInv(s: Sched, st: PState, ch: int)
    requires SInv(s) && s.cur != s.idle && st != RUNNABLE && st != RUNNING
    ensures QueueInv(Parked(s, st, ch)) && OnlyRunning(Parked(s, st, ch), -1)
  {
    assert Settled(true);
  }

  ghost function KilledBy(s: Sched, p: int): Sched
    requires SInv(s) && 0 <= p < NPROC
  {
    var t := s.(killed := s.killed[p := true]);
    if s.state[p] == SLEEPING then MakeReady(t, p) else t
  }

  lemma QueueOk(s: Sched)
    requires SInv(s)
    ensures QueueInv(s)
  {
    assert Settled(true);
  }

  lemma CurRuns(s: Sched)
    requires SInv(s) && s.cur != s.idle
    ensures s.state[s.cur] == RUNNING
  {
    assert Settled(true);
  }

  lemma CurNotQueued(s: Sched)
    requires SInv(s)
    ensures !s.r.In(s.cur)
  {
    assert Settled(true);
  }

  lemma KilledInv(s: Sched, p: int)
    requires SInv(s) && 0 <= p < NPROC
    ensures SInv(s.(killed := s.killed[p := true]))
  {
    assert Settled(true);
  }

  /** A process that is neither ready nor running is not on the CPU and not queued. */
  lemma Absent(s: Sched, p: int)
    requires SInv(s) && 0 <= p < NPROC && s.state[p] != RUNNABLE && s.state[p] != RUNNING
    ensures p != s.cur && p != s.idle && !s.r.In(p)
  {
    assert Settled(true);
  }

  /** Give slot p a state and a priority; it must not be queued. */
  ghost function Refiled(s: Sched, p: int, st: PState, prio: int): Sched
    requires s.Typed() && 0 <= p < NPROC
  {
    s.(state := s.state[p := st], r := s.r.(prio := s.r.prio[p := prio], wait := s.r.wait[p := 0]))
  }

  lemma RefiledInv(s: Sched, p: int, st: PState, prio: int)
    requires SInv(s) && 0 <= p < NPROC && p != s.cur && p != s.idle && !s.r.In(p)
    requires st != RUNNABLE && st != RUNNING && 0 <= prio < NPRIO
    ensures SInv(Refiled(s, p, st, prio))
    ensures forall x :: Refiled(s, p, st, prio).r.In(x) <==> s.r.In(x)
  {
    assert Settled(true);
    InIsQueued(s.r, p);
    RefileFiled(s.r.q, s.r.prio, p, prio);
    var t := Refiled(s, p, st, prio);
    forall x
      ensures t.r.In(x) <==> s.r.In(x)
    {
      InIsQueued(s.r, x);
      InIsQueued(t.r, x);
    }
  }

  ghost function Freed(s: Sched, p: int): Sched
    requires s.Typed() && 0 <= p < NPROC
  {
    s.(state := s.state[p := UNUSED], killed := s.killed[p := false], chan := s.chan[p := 0])
  }

  ghost predicate Enabled(s: Sched, e: Event)
    requires SInv(s)
  {
    match e
    case UserTick => s.cur != s.idle
    case KernelTick => true
    case SleepOn(ch) => s.cur != s.idle
    case WakeupOn(ch) => true
    case Kill(p) => 0 <= p < NPROC
    case ForkAlloc(p) =>
      s.cur != s.idle && 0 <= p < NPROC && s.state[p] == UNUSED && forall x :: 0 <= x < p ==> s.state[x] != UNUSED
    case ForkStart(p) => s.cur != s.idle && 0 <= p < NPROC && s.state[p] == USED
    case ForkFail(p) => s.cur != s.idle && 0 <= p < NPROC && s.state[p] == USED
    case Exit => s.cur != s.idle
    case Reap(p) => s.cur != s.idle && 0 <= p < NPROC && s.state[p] == ZOMBIE
    case IdleLoop => s.cur == s.idle
  }

  ghost function Step(s: Sched, e: Event): Sched
    requires SInv(s) && Enabled(s, e)
  {
    match e
    case UserTick => UserTicked(s)
    case KernelTick => KernelTicked(s)
    case SleepOn(ch) => ParkedInv(s, SLEEPING, ch); Dispatched(Parked(s, SLEEPING, ch))
    case WakeupOn(ch) => Woken(s, ch)
    case Kill(p) => KilledBy(s, p)
    case ForkAlloc(p) => Refiled(s, p, USED, PRIO_DEFAULT)
    case ForkStart(p) =>
      Absent(s, p); RefiledInv(s, p, USED, s.r.prio[s.cur]);
      MakeReady(Refiled(s, p, USED, s.r.prio[s.cur]), p)
    case ForkFail(p) => Freed(s, p)
    case Exit => ParkedInv(s, ZOMBIE, s.chan[s.cur]); Dispatched(Parked(s, ZOMBIE, s.chan[s.cur]))
    case Reap(p) => Freed(s, p)
    case IdleLoop => Dispatched(s)
  }

  lemma TickInv(s: Sched)
    requires SInv(s)
    ensures SInv(UserTicked(s)) && SInv(KernelTicked(s))
  {
    var w := Woken(s, TICKS);
    AgedInv(w);
    var a := Aged(w);
    YieldInv(a);
    PendingInv(a);
    YieldInv(a.(pending := false));
  }

  /** When the idle process enters the ready queue: a tick in the kernel takes the CPU from it exactly
      when the queue, woken and aged, has a process at its level or better. */
  lemma KernelTickQueuesIdle(s: Sched)
    requires SInv(s) && s.cur == s.idle
    ensures var a := Aged(Woken(s, TICKS));
            Step(s, KernelTick).r.In(s.idle) <==> ShouldPreempt(a.r, a.r.prio[a.cur])
  {
    var w := Woken(s, TICKS);
    AgedInv(w);
    var a := Aged(w);
    CurNotQueued(a);
    if ShouldPreempt(a.r, a.r.prio[a.cur]) {
      QueueOk(a);
      YieldedQueues(a);
    }
  }

  /** A process that yields while there is one at its level or better is queued, and the first of the best
      level runs. */
  lemma YieldedQueues(a: Sched)
    requires SInv(a) && ShouldPreempt(a.r, a.r.prio[a.cur])
    ensures Yielded(a).r.In(a.cur) && Yielded(a).cur == a.r.q[Best(a.r.q)][0] != a.cur
  {
    CurNotQueued(a);
    QueueOk(a);
    ReadyInv(a, a.cur);
    var m, h := MakeReady(a, a.cur), Best(a.r.q);
    assert a.r.prio[a.r.q[h][0]] == h && a.r.In(a.r.q[h][0]);
    BestUnique(m.r.q, h);
    assert m.r.q[h][0] == a.r.q[h][0] != a.cur;
    DispatchPicks(m);
    PoppedValid(m.r, h);
    assert Dispatched(m).r.In(a.cur) <==> m.r.(q := Popped(m.r.q, h)).In(a.cur);
  }

  lemma ParkInv(s: Sched, st: PState, ch: int)
    requires SInv(s) && s.cur != s.idle && st != RUNNABLE && st != RUNNING
    ensures QueueInv(Parked(s, st, ch)) && SInv(Dispatched(Parked(s, st, ch)))
  {
    ParkedInv(s, st, ch);
    DispatchInv(Parked(s, st, ch));
  }

  lemma KillInv(s: Sched, p: int)
    requires SInv(s) && 0 <= p < NPROC
    ensures SInv(KilledBy(s, p))
  {
    var t := s.(killed := s.killed[p := true]);
    KilledInv(s, p);
    if s.state[p] == SLEEPING {
      ReadiedInv(t, p);
    }
  }

  lemma ForkInv(s: Sched, p: int)
    requires SInv(s) && Enabled(s, ForkStart(p))
    ensures SInv(Step(s, ForkStart(p)))
  {
    Absent(s, p);
    var t := Refiled(s, p, USED, s.r.prio[s.cur]);
    RefiledInv(s, p, USED, s.r.prio[s.cur]);
    ReadiedInv(t, p);
  }

  /** Making ready a process that is neither ready nor running. */
  lemma ReadiedInv(s: Sched, p: int)
    requires SInv(s) && 0 <= p < NPROC && s.state[p] != RUNNABLE && s.state[p] != RUNNING
    ensures SInv(MakeReady(s, p))
    ensures forall x :: MakeReady(s, p).r.In(x) <==> s.r.In(x) || x == p
  {
    Absent(s, p);
    assert Settled(true);
    ReadyInv(s, p);
  }

  lemma FreedInv(s: Sched, p: int)
    requires SInv(s) && 0 <= p < NPROC && (s.state[p] == USED || s.state[p] == ZOMBIE)
    ensures SInv(Freed(s, p))
  {
    assert Settled(true);
  }

  /** Every step keeps the scheduler invariant. */
  lemma {:induction false} StepInv(s: Sched, e: Event)
    requires SInv(s) && Enabled(s, e)
    ensures SInv(Step(s, e))
  {
    match e
    case UserTick => TickInv(s);
    case KernelTick => TickInv(s);
    case SleepOn(ch) => ParkInv(s, SLEEPING, ch);
    case WakeupOn(ch) =>
    case Kill(p) => KillInv(s, p);
    case ForkAlloc(p) =>
      Absent(s, p);
      RefiledInv(s, p, USED, PRIO_DEFAULT);
    case ForkStart(p) => ForkInv(s, p);
    case ForkFail(p) => FreedInv(s, p);
    case Exit => ParkInv(s, ZOMBIE, s.chan[s.cur]);
    case Reap(p) => FreedInv(s, p);
    case IdleLoop => IdleInv(s);
  }

  lemma IdleInv(s: Sched)
    requires SInv(s) && s.cur == s.idle
    ensures SInv(Dispatched(s))
  {
    assert Settled(true);
    DispatchInv(s);
  }

  lemma {:induction false} StepIdle(s: Sched, e: Event)
    requires SInv(s) && Enabled(s, e)
    ensures Step(s, e).idle == s.idle
  {
  }

  /** The state at boot: userinit has queued initproc at the default level, and alloc_idleproc has made
      the idle process, which is on the CPU. */
  ghost function Boot(initproc: int, idle: int): Sched
    requires 0 <= initproc < NPROC && 0 <= idle < NPROC
  {
    Sched(Ready(seq(NPRIO, _ => [])[PRIO_DEFAULT := [initproc]],
                seq(NPROC, _ => 0)[initproc := PRIO_DEFAULT][idle := NPRIO - 1],
                seq(NPROC, _ => 0)),
          seq(NPROC, _ => UNUSED)[initproc := RUNNABLE][idle := RUNNABLE],
          seq(NPROC, _ => 0), seq(NPROC, _ => false), idle, idle, false)
  }

  /** With one RUNNABLE process queued and the idle process on the CPU the invariant holds. */
  lemma BootInv(s: Sched, initproc: int)
    requires s.Typed() && 0 <= initproc < NPROC && initproc != s.idle && s.cur == s.idle
    requires s.state == seq(NPROC, _ => UNUSED)[initproc := RUNNABLE][s.idle := RUNNABLE]
    requires s.r.wait[initproc] == 0 && forall p :: s.r.In(p) <==> p == initproc
    ensures SInv(s)
  {
  }
}
