/** The writer-preferring lock of kernel/rwlock.c as a machine over its critical sections. A thread that
    calls sleep leaves the critical section; woken, it tests its wait condition again. */
module RwLock {

  /** readers, writer and waiting are the fields of the lock; the sets say where each thread is. */
  datatype State = State(readers: int, writer: bool, waiting: int,
                         reading: set<int>, writing: set<int>,
                         rAsleep: set<int>, rAwake: set<int>, wAsleep: set<int>, wAwake: set<int>) {
    /** The number of places that thread p is at. */
    function Places(p: int): int {
      One(p in reading) + One(p in writing) + One(p in rAsleep) + One(p in rAwake) + One(p in wAsleep) + One(p in wAwake)
    }
  }

  function One(b: bool): int {
    if b then 1 else 0
  }

  /** rw_table_init and rw_init_k */
  const INIT: State := State(0, false, 0, {}, {}, {}, {}, {}, {})

  datatype Step =
    | RLock(p: int) // rw_rlock_k up to its first sleep or its return
    | RAgain(p: int) // and after a sleep
    | RUnlock(p: int)
    | WLock(p: int)
    | WAgain(p: int)
    | WUnlock(p: int)
    | Wake(p: int) // kill() wakes a sleeping thread

  /** For callers that release only what they hold. */
  ghost predicate Enabled(s: State, e: Step) {
    match e
    case RLock(p) => s.Places(p) == 0
    case RAgain(p) => p in s.rAwake
    case RUnlock(p) => p in s.reading
    case WLock(p) => s.Places(p) == 0
    case WAgain(p) => p in s.wAwake
    case WUnlock(p) => p in s.writing
    case Wake(p) => p in s.rAsleep || p in s.wAsleep
  }

  function WakeAll(s: State): State {
    s.(rAwake := s.rAwake + s.rAsleep, rAsleep := {}, wAwake := s.wAwake + s.wAsleep, wAsleep := {})
  }

  /** The loop test of rw_rlock_k, and what follows it. */
  function TryRead(s: State, p: int): State {
    if s.writer || s.waiting > 0 then s.(rAsleep := s.rAsleep + {p})
    else s.(readers := s.readers + 1, reading := s.reading + {p})
  }

  function TryWrite(s: State, p: int): State {
    if s.writer || s.readers > 0 then s.(wAsleep := s.wAsleep + {p})
    else s.(waiting := s.waiting - 1, writer := true, writing := s.writing + {p})
  }

  function Next(s: State, e: Step): State {
    match e
    case RLock(p) => TryRead(s, p)
    case RAgain(p) => TryRead(s.(rAwake := s.rAwake - {p}), p)
    case RUnlock(p) =>
      var t := s.(readers := s.readers - 1, reading := s.reading - {p});
      if t.readers == 0 then WakeAll(t) else t
    case WLock(p) => TryWrite(s.(waiting := s.waiting + 1), p)
    case WAgain(p) => TryWrite(s.(wAwake := s.wAwake - {p}), p)
    case WUnlock(p) => WakeAll(s.(writer := false, writing := s.writing - {p}))
    case Wake(p) =>
      if p in s.rAsleep then s.(rAsleep := s.rAsleep - {p}, rAwake := s.rAwake + {p})
      else s.(wAsleep := s.wAsleep - {p}, wAwake := s.wAwake + {p})
  }

  ghost predicate Apart(s: State) {
    forall p :: s.Places(p) <= 1
  }

  ghost predicate Counts(s: State) {
    && s.readers == |s.reading|
    && |s.writing| == One(s.writer)
    && s.waiting == |s.wAsleep| + |s.wAwake|
  }

  /** A thread sleeps only while its own wait condition holds. */
  ghost predicate Justified(s: State) {
    && (s.rAsleep != {} ==> s.writer || s.waiting > 0)
    && (s.wAsleep != {} ==> s.writer || s.readers > 0)
  }

  ghost predicate Inv(s: State) {
    Apart(s) && Counts(s) && Justified(s) && (s.writer ==> s.readers == 0)
  }

  lemma StepApart(s: State, e: Step)
    requires Apart(s) && Enabled(s, e)
    ensures Apart(Next(s, e))
  {
    forall q
      ensures Next(s, e).Places(q) <= 1
    {
      assert s.Places(q) <= 1;
    }
  }

  lemma WakeCounts(s: State)
    requires Apart(s) && Counts(s)
    ensures Counts(WakeAll(s))
  {
    assert s.wAwake * s.wAsleep == {} by {
      forall p | p in s.wAwake
        ensures p !in s.wAsleep
      {
        assert s.Places(p) <= 1;
      }
    }
  }

  lemma UnlockCounts(s: State, p: int)
    requires Inv(s)
    ensures p in s.reading ==> Counts(Next(s, RUnlock(p)))
    ensures p in s.writing ==> Counts(Next(s, WUnlock(p)))
  {
    var t := s.(readers := s.readers - 1, reading := s.reading - {p});
    var u := s.(writer := false, writing := s.writing - {p});
    forall q
      ensures t.Places(q) <= 1 && u.Places(q) <= 1
    {
      assert s.Places(q) <= 1;
    }
    if p in s.reading {
      WakeCounts(t);
    }
    if p in s.writing {
      WakeCounts(u);
    }
  }

  lemma StepCounts(s: State, e: Step)
    requires Inv(s) && Enabled(s, e)
    ensures Counts(Next(s, e))
  {
    assert s.Places(e.p) <= 1;
    UnlockCounts(s, e.p);
  }

  lemma {:induction false} StepInv(s: State, e: Step)
    requires Inv(s) && Enabled(s, e)
    ensures Inv(Next(s, e))
  {
    StepApart(s, e);
    StepCounts(s, e);
    match e
    case RLock(p) =>
    case RAgain(p) =>
    case RUnlock(p) =>
    case WLock(p) =>
    case WAgain(p) => assert s.wAwake != {};
    case WUnlock(p) => assert s.writing != {};
    case Wake(p) =>
  }

  // ----- Runs -----

  function Exec(s: State, es: seq<Step>): State
    decreases |es|
  {
    if es == [] then s else Next(Exec(s, es[..|es| - 1]), es[|es| - 1])
  }

  ghost predicate Run(s: State, es: seq<Step>)
    decreases |es|
  {
    es == [] || (Run(s, es[..|es| - 1]) && Enabled(Exec(s, es[..|es| - 1]), es[|es| - 1]))
  }

  lemma {:induction false} RunInv(es: seq<Step>)
    requires Run(INIT, es)
    ensures Inv(Exec(INIT, es))
    decreases |es|
  {
    if es == [] {
    } else {
      RunInv(es[..|es| - 1]);
      StepInv(Exec(INIT, es[..|es| - 1]), es[|es| - 1]);
    }
  }

  /** In every run: never a writer together with a reader or with another writer. */
  lemma {:induction false} Exclusion(es: seq<Step>, p: int, q: int)
    requires Run(INIT, es) && p in Exec(INIT, es).writing
    ensures q !in Exec(INIT, es).reading && (q in Exec(INIT, es).writing ==> q == p)
  {
    RunInv(es);
    var s := Exec(INIT, es);
    assert s.writing == {p} by {
      assert |s.writing - {p}| == 0;
    }
    assert s.reading == {};
  }

  /** In every run: a reader enters only when no writer waits, asleep or woken. */
  lemma {:induction false} WritersFirst(es: seq<Step>, e: Step, p: int)
    requires Run(INIT, es + [e]) && p !in Exec(INIT, es).reading && p in Exec(INIT, es + [e]).reading
    ensures Exec(INIT, es).wAsleep == {} && Exec(INIT, es).wAwake == {}
  {
    assert (es + [e])[..|es|] == es;
    RunInv(es);
  }

  /** Nobody is where the thread of an enabled step already is. */
  lemma Elsewhere(s: State, e: Step)
    requires Inv(s) && Enabled(s, e)
    ensures (e.RLock? || e.RAgain?) ==> e.p !in s.reading && e.p !in s.rAsleep
    ensures (e.WLock? || e.WAgain?) ==> e.p !in s.writing && e.p !in s.wAsleep
    ensures e.RLock? ==> e.p !in s.rAwake
    ensures e.WLock? ==> e.p !in s.wAwake
    ensures e.RUnlock? ==> e.p !in s.writing
  {
    assert s.Places(e.p) <= 1;
  }

  /** The counters in terms of the threads. */
  lemma Free(s: State)
    requires Inv(s)
    ensures s.writer <==> s.writing != {}
    ensures s.readers > 0 <==> s.reading != {}
    ensures s.waiting > 0 <==> s.wAsleep != {} || s.wAwake != {}
    ensures s.writing != {} ==> s.reading == {}
  {
  }

  lemma ReaderTries(s: State, e: Step)
    requires Inv(s) && Enabled(s, e) && (e.RLock? || e.RAgain?)
    ensures var t := Next(s, e);
            && (e.p in t.reading <==> s.writing == {} && s.wAsleep == {} && s.wAwake == {})
            && (e.p in t.rAsleep <==> e.p !in t.reading)
            && t.reading - {e.p} == s.reading && t.rAsleep - {e.p} == s.rAsleep && t.rAwake == s.rAwake - {e.p}
            && t.writing == s.writing && t.wAsleep == s.wAsleep && t.wAwake == s.wAwake
  {
    Elsewhere(s, e);
    Free(s);
  }

  lemma WriterTries(s: State, e: Step)
    requires Inv(s) && Enabled(s, e) && (e.WLock? || e.WAgain?)
    ensures var t := Next(s, e);
            && (e.p in t.writing <==> s.writing == {} && s.reading == {})
            && (e.p in t.wAsleep <==> e.p !in t.writing)
            && t.writing - {e.p} == s.writing && t.wAsleep - {e.p} == s.wAsleep && t.wAwake == s.wAwake - {e.p}
            && t.reading == s.reading && t.rAsleep == s.rAsleep && t.rAwake == s.rAwake
  {
    Elsewhere(s, e);
    Free(s);
  }

  lemma HolderLeaves(s: State, e: Step)
    requires Inv(s) && Enabled(s, e) && (e.RUnlock? || e.WUnlock?)
    ensures var t := Next(s, e);
            && t.reading == s.reading - {e.p} && t.writing == s.writing - {e.p}
            && if t.reading == {} then t.rAsleep == t.wAsleep == {} && t.rAwake == s.rAwake + s.rAsleep && t.wAwake == s.wAwake + s.wAsleep
               else t.rAsleep == s.rAsleep && t.wAsleep == s.wAsleep && t.rAwake == s.rAwake && t.wAwake == s.wAwake
  {
    Elsewhere(s, e);
    Free(s);
    assert e.RUnlock? ==> |s.reading - {e.p}| == s.readers - 1;
  }

  /** In every run: a reader that tries is admitted exactly when nobody writes and no writer waits, asleep
      or woken; else it sleeps. Nobody else moves. */
  lemma {:induction false} ReaderAdmitted(es: seq<Step>, e: Step)
    requires Run(INIT, es) && Enabled(Exec(INIT, es), e) && (e.RLock? || e.RAgain?)
    ensures var s, t := Exec(INIT, es), Next(Exec(INIT, es), e);
            && (e.p in t.reading <==> s.writing == {} && s.wAsleep == {} && s.wAwake == {})
            && (e.p in t.rAsleep <==> e.p !in t.reading)
            && t.reading - {e.p} == s.reading && t.rAsleep - {e.p} == s.rAsleep && t.rAwake == s.rAwake - {e.p}
            && t.writing == s.writing && t.wAsleep == s.wAsleep && t.wAwake == s.wAwake
  {
    RunInv(es);
    ReaderTries(Exec(INIT, es), e);
  }

  /** In every run: a writer that tries is admitted exactly when nobody reads or writes; else it sleeps. */
  lemma {:induction false} WriterAdmitted(es: seq<Step>, e: Step)
    requires Run(INIT, es) && Enabled(Exec(INIT, es), e) && (e.WLock? || e.WAgain?)
    ensures var s, t := Exec(INIT, es), Next(Exec(INIT, es), e);
            && (e.p in t.writing <==> s.writing == {} && s.reading == {})
            && (e.p in t.wAsleep <==> e.p !in t.writing)
            && t.writing - {e.p} == s.writing && t.wAsleep - {e.p} == s.wAsleep && t.wAwake == s.wAwake - {e.p}
            && t.reading == s.reading && t.rAsleep == s.rAsleep && t.rAwake == s.rAwake
  {
    RunInv(es);
    WriterTries(Exec(INIT, es), e);
  }

  /** In every run: a holder that releases is gone and the others stay; everybody asleep is woken if no
      reader is left, and nobody otherwise. */
  lemma {:induction false} ReleaseWakes(es: seq<Step>, e: Step)
    requires Run(INIT, es) && Enabled(Exec(INIT, es), e) && (e.RUnlock? || e.WUnlock?)
    ensures var s, t := Exec(INIT, es), Next(Exec(INIT, es), e);
            && t.reading == s.reading - {e.p} && t.writing == s.writing - {e.p}
            && if t.reading == {} then t.rAsleep == t.wAsleep == {} && t.rAwake == s.rAwake + s.rAsleep && t.wAwake == s.wAwake + s.wAsleep
               else t.rAsleep == s.rAsleep && t.wAsleep == s.wAsleep && t.rAwake == s.rAwake && t.wAwake == s.wAwake
  {
    RunInv(es);
    HolderLeaves(Exec(INIT, es), e);
  }

  /** In every run: whoever sleeps waits for a thread that holds the lock, or for a writer that was woken. */
  lemma {:induction false} SleepersWillBeWoken(es: seq<Step>)
    requires Run(INIT, es) && (Exec(INIT, es).rAsleep != {} || Exec(INIT, es).wAsleep != {})
    ensures var s := Exec(INIT, es); s.reading != {} || s.writing != {} || s.wAwake != {}
  {
    RunInv(es);
  }

  /** Nothing stops a thread from releasing a lock that it does not hold. After that a writer gets in beside a reader. */
  lemma UnheldReleaseBreaksExclusion()
    ensures var s := Exec(INIT, [RUnlock(0), RLock(1), WLock(2)]); 1 in s.reading && 2 in s.writing
    ensures !Enabled(INIT, RUnlock(0))
  {
    var a := [RUnlock(0)];
    var b := a + [RLock(1)];
    var c := b + [WLock(2)];
    assert c[..2] == b && b[..1] == a && a[..0] == [];
    assert Exec(INIT, a) == Next(INIT, RUnlock(0));
    assert Exec(INIT, b) == Next(Exec(INIT, a), RLock(1));
    assert c == [RUnlock(0), RLock(1), WLock(2)];
  }

  /** Exactly the read releases by holders keep the invariant. */
  lemma ReadReleaseExact(s: State, p: int)
    requires Inv(s)
    ensures Inv(Next(s, RUnlock(p))) <==> p in s.reading
  {
    if p in s.reading {
      StepInv(s, RUnlock(p));
    } else {
      assert s.reading - {p} == s.reading;
    }
  }

  /** Releasing a write lock that nobody holds only wakes sleepers. */
  lemma WriteReleaseExact(s: State, p: int)
    requires Inv(s)
    ensures Inv(Next(s, WUnlock(p))) <==> p in s.writing || !s.writer
  {
    if p in s.writing {
      StepInv(s, WUnlock(p));
    } else {
      assert s.writing - {p} == s.writing;
      if !s.writer {
        WakeCounts(s);
        forall q
          ensures Next(s, WUnlock(p)).Places(q) <= 1
        {
          assert s.Places(q) <= 1;
        }
      }
    }
  }

  lemma NotWriting(s: State, p: int, again: bool)
    requires Inv(s) && Enabled(s, if again then WAgain(p) else WLock(p))
    ensures p !in s.writing
  {
    assert s.Places(p) <= 1;
  }

  /** The lock itself; the threads' places are bookkeeping. */
  class Lock {
    var readers: int
    var writer: bool
    var waiting: int
    ghost var reading: set<int>
    ghost var writing: set<int>
    ghost var rAsleep: set<int>
    ghost var rAwake: set<int>
    ghost var wAsleep: set<int>
    ghost var wAwake: set<int>

    ghost function S(): State
      reads this
    {
      State(readers, writer, waiting, reading, writing, rAsleep, rAwake, wAsleep, wAwake)
    }

    constructor ()
      ensures S() == INIT
    {
      readers, writer, waiting := 0, false, 0;
      reading, writing, rAsleep, rAwake, wAsleep, wAwake := {}, {}, {}, {}, {}, {};
    }

    /** rw_rlock_k from the loop test on; false if the thread went to sleep. */
    method RLockPass(p: int, again: bool) returns (held: bool)
      requires Inv(S()) && Enabled(S(), if again then RAgain(p) else RLock(p))
      modifies this
      ensures Inv(S()) && S() == Next(old(S()), if again then RAgain(p) else RLock(p)) && (held <==> p in reading)
    {
      StepInv(S(), if again then RAgain(p) else RLock(p));
      assert S().Places(p) <= 1;
      if again {
        rAwake := rAwake - {p};
      }
      if writer || waiting > 0 {
        rAsleep := rAsleep + {p};
        return false;
      }
      readers, reading := readers + 1, reading + {p};
      return true;
    }

    method Wakeup()
      modifies this
      ensures S() == WakeAll(old(S()))
    {
      rAwake, rAsleep, wAwake, wAsleep := rAwake + rAsleep, {}, wAwake + wAsleep, {};
    }

    /** rw_runlock_k, by any thread. */
    method RUnlock(p: int)
      requires Inv(S())
      modifies this
      ensures S() == Next(old(S()), Step.RUnlock(p)) && (Inv(S()) <==> p in old(reading))
    {
      ReadReleaseExact(S(), p);
      readers, reading := readers - 1, reading - {p};
      if readers == 0 {
        Wakeup();
      }
    }

    /** rw_wlock_k, from its start or from the loop test on after a sleep. */
    method WLockPass(p: int, again: bool) returns (held: bool)
      requires Inv(S()) && Enabled(S(), if again then WAgain(p) else WLock(p))
      modifies this
      ensures Inv(S()) && S() == Next(old(S()), if again then WAgain(p) else WLock(p)) && (held <==> p in writing)
    {
      StepInv(S(), if again then WAgain(p) else WLock(p));
      NotWriting(S(), p, again);
      if again {
        wAwake := wAwake - {p};
      } else {
        waiting := waiting + 1;
      }
      held := WTry(p);
    }

    /** The loop test of rw_wlock_k and what follows it. */
    method WTry(p: int) returns (held: bool)
      requires p !in writing
      modifies this
      ensures S() == TryWrite(old(S()), p) && (held <==> p in writing)
    {
      if writer || readers > 0 {
        wAsleep := wAsleep + {p};
        return false;
      }
      waiting, writer, writing := waiting - 1, true, writing + {p};
      return true;
    }

    /** rw_wunlock_k, by any thread. */
    method WUnlock(p: int)
      requires Inv(S())
      modifies this
      ensures S() == Next(old(S()), Step.WUnlock(p)) && (Inv(S()) <==> p in old(writing) || !old(writer))
    {
      WriteReleaseExact(S(), p);
      writer, writing := false, writing - {p};
      Wakeup();
    }
  }
}
