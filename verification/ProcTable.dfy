/** The scheduling procedures of kernel/proc.c and kernel/trap.c, each proved to do what the
    corresponding step of the state machine in module Scheduler does. */
module ProcTable {
  import opened ReadyQueue
  import opened Scheduler

  class Kernel {
    const rq: ReadyQueues
    var state: seq<PState> // p->state
    var chan: seq<int> // p->chan
    var killed: seq<bool> // p->killed
    var cur: int // mycpu()->proc
    const idle: int // mycpu()->idleproc
    var pending: bool // mycpu()->preempt_pending

    ghost function Abs(): Sched
      reads this, rq
    {
      Sched(rq.Abs(), state, chan, killed, cur, idle, pending)
    }

    ghost predicate Valid()
      reads this, rq
    {
      rq.Valid() && Abs().Typed()
    }

    /** Boot: initproc queued at the default level, the idle process on the CPU. */
    constructor (initproc: int, idleproc: int)
      requires 0 <= initproc < NPROC && 0 <= idleproc < NPROC && initproc != idleproc
      ensures Valid() && fresh(rq) && SInv(Abs()) && Abs() == Boot(initproc, idleproc)
      ensures cur == idle == idleproc && forall p :: Abs().r.In(p) <==> p == initproc
    {
      rq := new ReadyQueues();
      state := seq(NPROC, _ => UNUSED)[initproc := RUNNABLE][idleproc := RUNNABLE];
      chan := seq(NPROC, _ => 0);
      killed := seq(NPROC, _ => false);
      cur, idle, pending := idleproc, idleproc, false;
      new;
      rq.prio := rq.prio[initproc := PRIO_DEFAULT][idleproc := NPRIO - 1];
      assert forall p :: !rq.Abs().In(p);
      EnqueuedValid(rq.Abs(), initproc);
      rq.PrioEnqueue(initproc);
      BootInv(Abs(), initproc);
      PushFirst(initproc);
      assert rq.wait == seq(NPROC, _ => 0);
    }

    /** One turn of the loop of schedule(). */
    method TryNext() returns (done: bool)
      requires Valid()
      modifies this, rq
      ensures Valid()
      ensures done ==> Abs() == Dispatched(old(Abs()))
      ensures !done ==> Dispatched(Abs()) == Dispatched(old(Abs())) && Total(rq.q) < old(Total(rq.q))
    {
      DispatchStep(Abs());
      BestUnique(rq.q, rq.highest);
      var next := rq.PrioPickNext();
      if next == NULL {
        cur := idle;
        return true;
      }
      if next == idle {
        cur := next;
        return true;
      }
      if state[next] == RUNNABLE {
        Run(next);
        return true;
      }
      return false;
    }

    /** Give the CPU to p. */
    method Run(p: int)
      requires Valid() && 0 <= p < NPROC
      modifies this`state, this`cur, rq`wait
      ensures Valid()
      ensures Abs() == old(Abs()).(state := old(state)[p := RUNNING], r := old(Abs()).r.(wait := old(rq.wait)[p := 0]), cur := p)
    {
      state := state[p := RUNNING];
      rq.wait := rq.wait[p := 0];
      cur := p;
    }

    method Schedule()
      requires Valid()
      modifies this, rq
      ensures Valid() && Abs() == Dispatched(old(Abs()))
    {
      var done := false;
      while !done
        invariant Valid()
        invariant if done then Abs() == Dispatched(old(Abs())) else Dispatched(Abs()) == Dispatched(old(Abs()))
        decreases if done then 0 else 1, Total(rq.q)
      {
        done := TryNext();
      }
    }

    /** prio_enqueue, with the test that asks for preemption. */
    method PrioEnqueue(p: int)
      requires Valid() && 0 <= p < NPROC && !Abs().r.In(p)
      modifies this`pending, rq
      ensures Valid() && Abs() == Enqueue(old(Abs()), p)
    {
      InIsQueued(rq.Abs(), p);
      rq.PrioEnqueue(p);
      if state[cur] == RUNNING && rq.prio[p] < rq.prio[cur] {
        pending := true;
      }
    }

    /** The lines that yield, wakeup, kill and fork share. */
    method MakeRunnable(p: int)
      requires Valid() && 0 <= p < NPROC && !Abs().r.In(p)
      modifies this`state, this`pending, rq
      ensures Valid() && Abs() == MakeReady(old(Abs()), p)
    {
      state := state[p := RUNNABLE];
      rq.wait := rq.wait[p := 0];
      PrioEnqueue(p);
    }

    method Yield()
      requires Valid() && SInv(Abs())
      modifies this, rq
      ensures Valid() && Abs() == Yielded(old(Abs()))
    {
      CurNotQueued(Abs());
      MakeRunnable(cur);
      Schedule();
    }

    method Sleep(ch: int)
      requires Valid() && SInv(Abs()) && cur != idle
      modifies this, rq
      ensures Valid() && Abs() == Step(old(Abs()), SleepOn(ch))
    {
      CurRuns(Abs());
      chan := chan[cur := ch];
      assert state[cur] != RUNNABLE; // so prio_dequeue is not called
      state := state[cur := SLEEPING];
      Schedule();
    }

    method Wakeup(ch: int)
      requires Valid() && SInv(Abs())
      modifies this, rq
      ensures Valid() && SInv(Abs()) && Abs() == Woken(old(Abs()), ch)
    {
      for p := 0 to NPROC
        invariant Valid() && SInv(old(Abs())) && Abs() == WokenTo(old(Abs()), ch, p)
      {
        WakeupSlot(ch, p);
      }
    }

    method WakeupSlot(ch: int, p: int)
      requires Valid() && SInv(Abs()) && 0 <= p < NPROC
      modifies this, rq
      ensures Valid() && SInv(Abs()) && Abs() == WakeOne(old(Abs()), ch, p)
    {
      if p != cur {
        if state[p] == SLEEPING && chan[p] == ch {
          Absent(Abs(), p);
          WakeInv(Abs(), ch, p);
          MakeRunnable(p);
        }
      }
    }

    method KillSlot(p: int)
      requires Valid() && SInv(Abs()) && 0 <= p < NPROC
      modifies this, rq
      ensures Valid() && Abs() == Step(old(Abs()), Kill(p))
    {
      killed := killed[p := true];
      if state[p] == SLEEPING {
        Absent(old(Abs()), p);
        MakeRunnable(p);
      }
    }

    /** allocproc: the first UNUSED slot, or NULL. */
    method AllocProc() returns (p: int)
      requires Valid() && SInv(Abs()) && cur != idle
      modifies this, rq
      ensures p == NULL ==> Abs() == old(Abs()) && forall x :: 0 <= x < NPROC ==> state[x] != UNUSED
      ensures p != NULL ==> Enabled(old(Abs()), ForkAlloc(p)) && Abs() == Step(old(Abs()), ForkAlloc(p))
      ensures Valid()
    {
      for x := 0 to NPROC
        invariant Valid() && Abs() == old(Abs())
        invariant forall y :: 0 <= y < x ==> state[y] != UNUSED
      {
        if state[x] == UNUSED {
          Absent(Abs(), x);
          RefiledInv(Abs(), x, USED, PRIO_DEFAULT);
          InIsQueued(rq.Abs(), x);
          state := state[x := USED];
          rq.prio := rq.prio[x := PRIO_DEFAULT];
          rq.wait := rq.wait[x := 0];
          return x;
        }
      }
      return NULL;
    }

    /** The end of fork(): the child takes its parent's priority and becomes RUNNABLE. */
    method StartChild(p: int)
      requires Valid() && SInv(Abs()) && cur != idle && 0 <= p < NPROC && state[p] == USED
      modifies this, rq
      ensures Valid() && Abs() == Step(old(Abs()), ForkStart(p))
    {
      Absent(Abs(), p);
      RefiledInv(Abs(), p, USED, rq.prio[cur]);
      InIsQueued(rq.Abs(), p);
      rq.prio := rq.prio[p := rq.prio[cur]];
      rq.wait := rq.wait[p := 0];
      MakeRunnable(p);
    }

    method ExitProc()
      requires Valid() && SInv(Abs()) && cur != idle
      modifies this, rq
      ensures Valid() && Abs() == Step(old(Abs()), Exit)
    {
      assert chan[cur := chan[cur]] == chan;
      state := state[cur := ZOMBIE];
      Schedule();
    }

    method ShouldPreemptNow(curPrio: int) returns (b: bool)
      requires Valid()
      ensures b == ShouldPreempt(rq.Abs(), curPrio)
    {
      BestUnique(rq.q, rq.highest);
      if rq.highest < 0 {
        return false;
      }
      return rq.highest <= curPrio;
    }

    /** prio_on_tick within the kernel's state. */
    method Age()
      requires Valid() && SInv(Abs())
      modifies rq
      ensures Valid() && SInv(Abs()) && Abs() == Aged(old(Abs()))
    {
      AgedInv(Abs());
      rq.PrioOnTick();
    }

    /** usertrap on a timer interrupt, after clockintr; a killed process is on its way to exit(). */
    method UserTrapTick()
      requires Valid() && SInv(Abs()) && cur != idle
      modifies this, rq
      ensures Valid() && Abs() == Step(old(Abs()), UserTick)
    {
      Wakeup(TICKS);
      if killed[cur] {
        return;
      }
      Age();
      if state[cur] == RUNNING {
        PreemptUser();
      }
    }

    /** The end of usertrap: a pending request, or a process of the same or a better level. */
    method PreemptUser()
      requires Valid() && SInv(Abs())
      modifies this, rq
      ensures var a := old(Abs());
              && SInv(a.(pending := false)) && Valid()
              && Abs() == if a.pending then Yielded(a.(pending := false)) else if ShouldPreempt(a.r, a.r.prio[a.cur]) then Yielded(a) else a
    {
      PendingInv(Abs());
      var need := false;
      if pending {
        pending := false;
        need := true;
      }
      if !need {
        need := ShouldPreemptNow(rq.prio[cur]);
      }
      if need {
        Yield();
      }
    }

    /** kerneltrap on a timer interrupt. */
    method KernelTrapTick()
      requires Valid() && SInv(Abs())
      modifies this, rq
      ensures Valid() && Abs() == Step(old(Abs()), KernelTick)
    {
      Wakeup(TICKS);
      Age();
      Preempt();
    }

    /** Yield to a process of the same or a better level. */
    method Preempt()
      requires Valid() && SInv(Abs())
      modifies this, rq
      ensures var s := old(Abs());
              Valid() && Abs() == if ShouldPreempt(s.r, s.r.prio[s.cur]) then Yielded(s) else s
    {
      var need := ShouldPreemptNow(rq.prio[cur]);
      if need {
        Yield();
      }
    }
  }

  lemma PushFirst(p: int)
    ensures Push(seq(NPRIO, _ => []), PRIO_DEFAULT, p) == seq(NPRIO, _ => [])[PRIO_DEFAULT := [p]]
  {
    assert [] + [p] == [p];
  }

  /** One unfolding of Dispatched. */
  lemma DispatchStep(s: Sched)
    requires s.Typed()
    ensures var h := Best(s.r.q);
            if h < 0 then Dispatched(s) == s.(cur := s.idle)
            else
              var p := s.r.q[h][0];
              var t := s.(r := s.r.(q := Popped(s.r.q, h)));
              && 0 <= p < NPROC && t.Typed() && Total(t.r.q) < Total(s.r.q)
              && Dispatched(s) == if p == s.idle then t.(cur := p)
                                  else if s.state[p] == RUNNABLE then
                                    t.(state := s.state[p := RUNNING], r := t.r.(wait := t.r.wait[p := 0]), cur := p)
                                  else Dispatched(t)
  {
    var h := Best(s.r.q);
    if h >= 0 {
      PoppedValid(s.r, h);
      TotalUpdate(s.r.q, h, s.r.q[h][1..]);
    }
  }
}
