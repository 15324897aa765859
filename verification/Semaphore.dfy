/** The counting semaphore of kernel/semaphore.c as a machine over its critical sections. */
module Semaphore {

  /** value is the field; asleep and awake are the threads in sem_wait_k, sleeping or woken. */
  datatype State = State(value: int, asleep: set<int>, awake: set<int>, signals: nat, waits: nat)

  /** sem_init_k: any int is accepted. */
  function Init(value: int): State {
    State(value, {}, {}, 0, 0)
  }

  datatype Step =
    | Wait(p: int) // sem_wait_k up to its first sleep or its return
    | Again(p: int) // and after a sleep
    | Signal
    | Wake(p: int) // kill() wakes a sleeping thread

  ghost predicate Enabled(s: State, e: Step) {
    match e
    case Wait(p) => p !in s.asleep && p !in s.awake
    case Again(p) => p in s.awake
    case Signal => true
    case Wake(p) => p in s.asleep
  }

  /** The loop test of sem_wait_k, and what follows it. */
  function Try(s: State, p: int): State {
    if s.value == 0 then s.(asleep := s.asleep + {p}) else s.(value := s.value - 1, waits := s.waits + 1)
  }

  function Next(s: State, e: Step): State {
    match e
    case Wait(p) => Try(s, p)
    case Again(p) => Try(s.(awake := s.awake - {p}), p)
    case Signal => s.(value := s.value + 1, signals := s.signals + 1, awake := s.awake + s.asleep, asleep := {})
    case Wake(p) => s.(asleep := s.asleep - {p}, awake := s.awake + {p})
  }

  function Exec(s: State, es: seq<Step>): State
    decreases |es|
  {
    if es == [] then s else Next(Exec(s, es[..|es| - 1]), es[|es| - 1])
  }

  ghost predicate Run(s: State, es: seq<Step>)
    decreases |es|
  {
    es == [] || (Run(s, es[..|es| - 1]) && Enabled(Exec(s, es[..|es| - 1]), es[|es| - 1]))
  }

  /** Conservation, for a value that was never negative; and a thread sleeps only while the value is 0. */
  ghost predicate Inv(init: int, s: State) {
    && s.value == init + s.signals - s.waits
    && s.value >= 0
    && (s.asleep != {} ==> s.value == 0)
  }

  lemma {:induction false} RunInv(init: int, es: seq<Step>)
    requires init >= 0 && Run(Init(init), es)
    ensures Inv(init, Exec(Init(init), es))
    decreases |es|
  {
    if es == [] {
    } else {
      RunInv(init, es[..|es| - 1]);
    }
  }

  /** What a semaphore is for: completed waits never exceed the initial value plus the signals, in any
      run -- exactly when the initial value is not negative. */
  lemma Bounded(init: int)
    ensures (forall es :: Run(Init(init), es) ==> Exec(Init(init), es).waits <= init + Exec(Init(init), es).signals) <==> init >= 0
  {
    if init >= 0 {
      forall es | Run(Init(init), es)
        ensures Exec(Init(init), es).waits <= init + Exec(Init(init), es).signals
      {
        RunInv(init, es);
      }
    } else {
      assert Run(Init(init), []);
      assert Exec(Init(init), []) == Init(init);
    }
  }

  /** With a negative value sem_wait_k never sleeps: any number of waits complete without a signal. */
  lemma {:induction false} NegativeNeverBlocks(init: int, n: nat)
    requires init < 0
    ensures exists es :: Run(Init(init), es) && Exec(Init(init), es).waits == n && Exec(Init(init), es).signals == 0
                         && Exec(Init(init), es).asleep == {}
  {
    var es := NegativeRun(init, n);
  }

  lemma {:induction false} NegativeRun(init: int, n: nat) returns (es: seq<Step>)
    requires init < 0
    ensures Run(Init(init), es)
    ensures Exec(Init(init), es) == State(init - n, {}, {}, 0, n)
    decreases n
  {
    if n == 0 {
      es := [];
    } else {
      var fs := NegativeRun(init, n - 1);
      es := fs + [Wait(0)];
      assert es[..|es| - 1] == fs;
    }
  }

  // ----- What the counters count -----

  /** How many signals a run has. */
  function Signals(es: seq<Step>): nat {
    if es == [] then 0 else Signals(es[..|es| - 1]) + if es[|es| - 1].Signal? then 1 else 0
  }

  /** How many of its steps end a wait: those of a waiting thread that do not put it to sleep. */
  function Completed(init: int, es: seq<Step>): nat
    decreases |es|
  {
    if es == [] then 0 else
      var e := es[|es| - 1];
      Completed(init, es[..|es| - 1]) + if (e.Wait? || e.Again?) && e.p !in Exec(Init(init), es).asleep then 1 else 0
  }

  /** In every run the counters are these numbers. */
  lemma {:induction false} RunCounts(init: int, es: seq<Step>)
    requires Run(Init(init), es)
    ensures Exec(Init(init), es).signals == Signals(es) && Exec(Init(init), es).waits == Completed(init, es)
    ensures Exec(Init(init), es).value == init + Signals(es) - Completed(init, es)
    ensures Exec(Init(init), es).asleep !! Exec(Init(init), es).awake
    decreases |es|
  {
    if es == [] {
    } else {
      RunCounts(init, es[..|es| - 1]);
    }
  }

  /** In every run: a thread that tries passes exactly when the value is not 0, and takes one. */
  lemma {:induction false} WaitPasses(init: int, es: seq<Step>, e: Step)
    requires Run(Init(init), es) && Enabled(Exec(Init(init), es), e) && (e.Wait? || e.Again?)
    ensures var s, t := Exec(Init(init), es), Next(Exec(Init(init), es), e);
            && (e.p in t.asleep <==> s.value == 0)
            && t.value == (if s.value == 0 then 0 else s.value - 1)
            && t.awake == s.awake - {e.p} && t.asleep - {e.p} == s.asleep
  {
    RunCounts(init, es);
  }

  /** In every run: a signal wakes all sleepers, and the first of them to try passes. */
  lemma {:induction false} SignalLetsOneIn(init: int, es: seq<Step>, p: int)
    requires init >= 0 && Run(Init(init), es) && p in Exec(Init(init), es).asleep
    ensures var s := Exec(Init(init), es);
            var t := Next(s, Signal);
            && t.asleep == {} && t.awake == s.awake + s.asleep
            && Enabled(t, Again(p)) && p !in Next(t, Again(p)).asleep && Next(t, Again(p)).value == 0
  {
    RunInv(init, es);
  }

  class Sem {
    var value: int
    ghost var asleep: set<int>
    ghost var awake: set<int>
    ghost var signals: nat
    ghost var waits: nat

    ghost function S(): State
      reads this
    {
      State(value, asleep, awake, signals, waits)
    }

    constructor (value: int)
      ensures S() == Init(value)
    {
      this.value, asleep, awake, signals, waits := value, {}, {}, 0, 0;
    }

    /** sem_wait_k from the loop test on; false if the thread went to sleep. */
    method WaitPass(p: int, again: bool) returns (done: bool)
      requires Enabled(S(), if again then Again(p) else Wait(p))
      modifies this
      ensures S() == Next(old(S()), if again then Again(p) else Wait(p)) && (done <==> old(value) != 0)
      ensures done ==> value == old(value) - 1 && waits == old(waits) + 1 && asleep == old(asleep)
      ensures !done ==> value == old(value) && waits == old(waits) && asleep == old(asleep) + {p}
    {
      if again {
        awake := awake - {p};
      }
      if value == 0 {
        asleep := asleep + {p};
        return false;
      }
      value, waits := value - 1, waits + 1;
      return true;
    }

    method Signal()
      modifies this
      ensures S() == Next(old(S()), Step.Signal)
      ensures value == old(value) + 1 && signals == old(signals) + 1 && asleep == {} && awake == old(awake) + old(asleep)
    {
      value, signals := value + 1, signals + 1;
      awake, asleep := awake + asleep, {};
    }
  }
}
