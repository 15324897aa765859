/** The procedures of kernel/log.c refine the machine of GroupCommit: each call of one of them takes the
    log through steps of the machine, so what is proved of every run of the machine holds of the code.

    The two agree on the disk, the list of logged blocks, the number of operations and what is read of
    each home block; the buffers of blocks that are not dirty need not be the same. */
module LogMachine {
  import opened Guards
  import opened LogFormat
  import opened RedoLog
  import opened GroupCommit

  /** The home blocks read the same. */
  ghost predicate SameView(g: Geometry, disk: Image, cache: Cache, cache': Cache) {
    forall b :: g.IsHome(b) && 0 <= b < |disk| ==> View(disk, cache, b) == View(disk, cache', b)
  }

  ghost predicate Agree(g: Geometry, lh: seq<int>, outstanding: int, committing: bool, disk: Image, cache: Cache, s: State) {
    forall x {:trigger Shown(x)} :: Shown(x) ==>
      && Inv(s) && s.phase.Running?
      && s.g == g && s.lh == lh && s.disk == disk && outstanding == |s.open| && !committing
      && CleanFrom(g, disk, cache, lh, 0) && SameView(g, disk, cache, s.cache)
  }

  /** The log between critical sections, and the state of the machine that it is in. */
  ghost predicate Refines(l: Log, s: State)
    reads l
  {
    l.Valid() && Agree(l.g, l.lh, l.outstanding, l.committing, l.disk, l.cache, s)
  }

  lemma RefinesIs(l: Log, s: State)
    requires Refines(l, s)
    ensures Inv(s) && s.phase.Running? && s.g == l.g && s.lh == l.lh && s.disk == l.disk && l.outstanding == |s.open| && !l.committing
    ensures CleanFrom(l.g, l.disk, l.cache, l.lh, 0) && SameView(l.g, l.disk, l.cache, s.cache)
    ensures LogEmpty(l.g, l.disk) && InDisk(|l.disk|, l.lh)
  {
    assert Shown(true);
    RunningLog(s);
    LoggableInDisk(l.g, l.lh);
  }

  lemma RunningLog(s: State)
    requires Inv(s) && s.phase.Running?
    ensures LogEmpty(s.g, s.disk) && forall b :: b in s.cache ==> 0 <= b < |s.disk| && (b in s.lh || s.cache[b] == s.disk[b])
  {
    assert Opened(true);
  }

  // ----- The writes of a commit or a recovery as steps -----

  function Writes(n: nat): seq<Step> {
    seq(n, _ => DiskWrite)
  }

  /** The state after k of the writes of a phase. */
  ghost function Written(s: State, k: nat): State
    requires Shape(s) && !s.phase.Running? && k <= |Plan(s)| && InRange(|s.disk|, Plan(s))
  {
    s.(disk := Apply(s.disk, Plan(s)[..k]), phase := s.phase.(k := k),
       durable := if s.phase.Committing? && k > |s.lh| then |s.history| else s.durable)
  }

  lemma {:induction false} WritesRun(s: State, k: nat)
    requires Shape(s) && !s.phase.Running? && s.phase.k == 0 && s.phase.d0 == s.disk && k <= |Plan(s)| && InRange(|s.disk|, Plan(s))
    ensures Exec(s, Writes(k)) == Written(s, k)
  {
    if k > 0 {
      WritesRun(s, k - 1);
      assert Writes(k) == Writes(k - 1) + [DiskWrite];
      ExecOne(s, Writes(k - 1), DiskWrite);
      WritesNext(s, k - 1);
    }
  }

  lemma WritesNext(s: State, k: nat)
    requires Shape(s) && !s.phase.Running? && s.phase.k == 0 && s.phase.d0 == s.disk && k < |Plan(s)| && InRange(|s.disk|, Plan(s))
    ensures Shape(Written(s, k)) && Next(Written(s, k), DiskWrite) == Written(s, k + 1)
  {
    ApplyNext(s.disk, Plan(s), k);
    WrittenPlan(s, k);
    PlanInRange(Written(s, k));
  }

  lemma WrittenPlan(s: State, k: nat)
    requires Shape(s) && !s.phase.Running? && k <= |Plan(s)| && InRange(|s.disk|, Plan(s))
    ensures Shape(Written(s, k)) && Plan(Written(s, k)) == Plan(s)
  {
  }

  /** All of them, and the end of the phase. */
  lemma PhaseRun(s: State)
    requires Inv(s) && !s.phase.Running? && s.phase.k == 0 && s.phase.d0 == s.disk
    ensures InRange(|s.disk|, Plan(s))
    ensures var t := Exec(s, Writes(|Plan(s)|) + [Finish]);
            && Inv(t) && t.phase.Running? && t.lh == [] && t.open == s.open && t.g == s.g && t.cache == s.cache && t.history == s.history
            && t.disk == Apply(s.disk, Plan(s))
  {
    PlanInRange(s);
    var n := |Plan(s)|;
    WritesRun(s, n);
    assert Plan(s)[..n] == Plan(s);
    ExecOne(s, Writes(n), Finish);
    WrittenPlan(s, n);
    ExecInv(s, Writes(n) + [Finish]);
  }

  lemma {:induction false} ExecInv(s: State, steps: seq<Step>)
    requires Inv(s)
    ensures Inv(Exec(s, steps))
  {
    if steps != [] {
      ExecInv(s, steps[..|steps| - 1]);
      NextInv(Exec(s, steps[..|steps| - 1]), steps[|steps| - 1]);
    }
  }

  lemma {:induction false} ExecMore(s: State, a: seq<Step>, b: seq<Step>)
    requires Shape(s)
    ensures Exec(s, a + b) == Exec(Exec(s, a), b)
  {
    if b == [] {
      assert a + b == a;
    } else {
      assert (a + b)[..|a + b| - 1] == a + b[..|b| - 1];
      ExecMore(s, a, b[..|b| - 1]);
    }
  }

  /** After a phase nothing is dirty, so both read the disk. */
  lemma CleanViews(g: Geometry, disk: Image, cache: Cache, t: State)
    requires Inv(t) && t.phase.Running? && t.lh == [] && t.disk == disk && t.g == g && CleanFrom(g, disk, cache, [], 0)
    ensures SameView(g, disk, cache, t.cache)
  {
    RunningLog(t);
  }

  // ----- The calls -----

  /** initlog on the disk that a crash left. */
  method BootLog(g: Geometry, image: Image, ghost s: State) returns (l: Log, ghost steps: seq<Step>)
    requires Init(s) && s.g == g && s.disk == image
    ensures Shape(s) && Refines(l, Exec(s, steps)) && fresh(l)
    ensures l.writes == RecoverWrites(g, image) && steps == Writes(|l.writes|) + [Finish]
  {
    InitInv(s);
    l := new Log(g, image);
    l.RecoverFromLog();
    steps := Writes(|l.writes|) + [Finish];
    PhaseRun(s);
    CleanViews(g, l.disk, l.cache, Exec(s, steps));
  }

  /** begin_op: a step Begin if it is admitted and a step Sleep if not. */
  method BeginCall(l: Log, ghost s: State, ghost op: nat, ghost pid: nat) returns (r: Begin, ghost step: Step)
    requires Refines(l, s) && forall e :: e in s.history ==> e.op != op
    modifies l`outstanding
    ensures Shape(s) && Enabled(s, step) && step == (if r == Admitted then Step.Begin(op) else Step.Sleep(pid))
    ensures Refines(l, Next(s, step))
  {
    RefinesIs(l, s);
    r := l.BeginOp();
    step := if r == Admitted then Step.Begin(op) else Step.Sleep(pid);
    NextInv(s, step);
  }

  lemma PutAgrees(g: Geometry, lh: seq<int>, n: int, disk: Image, cache: Cache, s: State, i: nat, b: int, v: Block)
    requires Agree(g, lh, n, false, disk, cache, s) && |disk| == g.nblocks && Shape(s) && Enabled(s, Put(i, b, v))
    ensures Agree(g, Absorb(lh, b), n, false, disk, cache[b := v], Next(s, Put(i, b, v)))
  {
    assert Shown(true);
    NextInv(s, Put(i, b, v));
    PutClean(g, disk, cache, lh, b, v);
  }

  lemma PutClean(g: Geometry, disk: Image, cache: Cache, lh: seq<int>, b: int, v: Block)
    requires CleanFrom(g, disk, cache, lh, 0) && g.IsHome(b) && |disk| == g.nblocks
    ensures CleanFrom(g, disk, cache[b := v], Absorb(lh, b), 0)
  {
  }

  /** Changing the buffer of block b and log_write: a step Put of the operation at place i. It panics exactly
      if the log is full. */
  method PutCall(l: Log, ghost s: State, ghost i: nat, b: int, v: Block) returns (r: LogOutcome)
    requires Refines(l, s) && i < |s.open| && l.g.IsHome(b) && (b in s.lh || s.open[i].used < MAXOPBLOCKS)
    modifies l`cache, l`lh, l`pinned
    ensures r == if TooBig(|old(l.lh)|, l.g.size) then PanicTooBig else Recorded
    ensures r == Recorded ==> Shape(s) && Enabled(s, Put(i, b, v)) && Refines(l, Next(s, Put(i, b, v)))
  {
    RefinesIs(l, s);
    l.cache := l.cache[b := v];
    r := l.LogWrite(b);
    if r == Recorded {
      PutAgrees(l.g, old(l.lh), l.outstanding, l.disk, old(l.cache), s, i, b, v);
    }
  }

  /** Both would commit the same contents. */
  lemma SameVals(g: Geometry, disk: Image, cache: Cache, cache': Cache, lh: seq<int>)
    requires SameView(g, disk, cache, cache') && Loggable(g, lh) && InDisk(|disk|, lh)
    ensures Vals(disk, cache, lh) == Vals(disk, cache', lh)
  {
    forall i | 0 <= i < |lh|
      ensures View(disk, cache, lh[i]) == View(disk, cache', lh[i])
    {
      assert g.IsHome(lh[i]);
    }
  }

  /** The step End of one among several operations. */
  lemma EndAgrees(g: Geometry, lh: seq<int>, n: int, disk: Image, cache: Cache, s: State, i: nat)
    requires Agree(g, lh, n, false, disk, cache, s) && Shape(s) && Enabled(s, End(i)) && |s.open| > 1
    ensures Agree(g, lh, n - 1, false, disk, cache, Next(s, End(i)))
  {
    assert Shown(true);
    NextInv(s, End(i));
  }

  /** The step End of the last operation begins a commit. */
  lemma EndBegins(s: State, i: nat)
    requires Inv(s) && s.phase.Running? && i < |s.open| == 1 && InDisk(|s.disk|, s.lh)
    ensures var t := Next(s, End(i));
            && Inv(t) && t.phase.Committing? && t.phase.k == 0 && t.phase.d0 == t.disk == s.disk && t.open == [] && t.g == s.g
            && Plan(t) == CommitPlanned(s.g, s.disk, s.lh, Vals(s.disk, s.cache, s.lh))
  {
    NextInv(s, End(i));
  }

  lemma ExecEnd(s: State, i: nat, n: nat)
    requires Shape(s)
    ensures Exec(s, [End(i)]) == Next(s, End(i))
    ensures Exec(s, [End(i)] + Writes(n) + [Finish]) == Exec(Next(s, End(i)), Writes(n) + [Finish])
  {
    assert Exec(s, []) == s && [] + [End(i)] == [End(i)];
    ExecOne(s, [], End(i));
    ExecMore(s, [End(i)], Writes(n) + [Finish]);
    assert [End(i)] + Writes(n) + [Finish] == [End(i)] + (Writes(n) + [Finish]);
  }

  /** The steps of a commit. */
  lemma EndCommits(s: State, i: nat, plan: seq<Write>, cache: Cache)
    requires Inv(s) && s.phase.Running? && i < |s.open| == 1 && InDisk(|s.disk|, s.lh)
    requires plan == CommitPlanned(s.g, s.disk, s.lh, Vals(s.disk, s.cache, s.lh)) && InRange(|s.disk|, plan)
    requires CleanFrom(s.g, Apply(s.disk, plan), cache, [], 0)
    ensures Agree(s.g, [], 0, false, Apply(s.disk, plan), cache, Exec(s, [End(i)] + Writes(|plan|) + [Finish]))
  {
    EndBegins(s, i);
    PhaseRun(Next(s, End(i)));
    ExecEnd(s, i, |plan|);
    var u := Exec(s, [End(i)] + Writes(|plan|) + [Finish]);
    CleanViews(s.g, Apply(s.disk, plan), cache, u);
  }

  /** A crash inside: the disk after the first k writes that the code issues is that of the machine, of which
      GroupCommitAtomicity says what a recovery makes. */
  lemma EndCrash(s: State, i: nat, plan: seq<Write>, k: nat)
    requires Inv(s) && s.phase.Running? && i < |s.open| == 1 && InDisk(|s.disk|, s.lh)
    requires plan == CommitPlanned(s.g, s.disk, s.lh, Vals(s.disk, s.cache, s.lh)) && k <= |plan|
    ensures InRange(|s.disk|, plan) && Exec(s, [End(i)] + Writes(k)).disk == Apply(s.disk, plan[..k])
  {
    EndBegins(s, i);
    PlanInRange(Next(s, End(i)));
    WritesRun(Next(s, End(i)), k);
    ExecEnd(s, i, k);
    ExecMore(s, [End(i)], Writes(k));
  }

  /** end_op: a step End; the last operation also takes the machine through every disk write of the commit,
      in the order in which they are issued, and the end of the commit. It never finds a commit under way. */
  method EndCall(l: Log, ghost s: State, ghost i: nat) returns (r: EndOutcome, ghost steps: seq<Step>)
    requires Refines(l, s) && i < |s.open|
    modifies l
    ensures r == if |s.open| > 1 then OthersOutstanding else Committed
    ensures Shape(s) && Refines(l, Exec(s, steps))
    ensures r == OthersOutstanding ==> steps == [End(i)] && l.writes == old(l.writes)
    ensures r == Committed ==>
              && InDisk(|s.disk|, s.lh) && l.writes == old(l.writes) + CommitPlanned(s.g, s.disk, s.lh, Vals(s.disk, s.cache, s.lh))
              && steps == [End(i)] + Writes(|l.writes| - |old(l.writes)|) + [Finish]
  {
    RefinesIs(l, s);
    SameVals(l.g, l.disk, l.cache, s.cache, l.lh);
    ghost var plan := CommitPlanned(l.g, l.disk, l.lh, Vals(l.disk, l.cache, l.lh));
    r := l.EndOp();
    ExecEnd(s, i, |plan|);
    if r == Committed {
      EndCommits(s, i, plan, l.cache);
      steps := [End(i)] + Writes(|plan|) + [Finish];
    } else {
      EndAgrees(l.g, old(l.lh), old(l.outstanding), old(l.disk), old(l.cache), s, i);
      steps := [End(i)];
    }
  }

  /** An end_op that is not the last, followed by a begin_op: the latter is refused only for want of log space. */
  method EndThenBegin(l: Log, ghost s: State, ghost i: nat, ghost op: nat, ghost pid: nat) returns (r: Begin)
    requires Refines(l, s) && i < |s.open| && |s.open| > 1
    requires (forall e :: e in s.history ==> e.op != op) && forall o :: o in s.open ==> o.id != op
    modifies l
    ensures r == Sleeps <==> |l.lh| + |s.open| * MAXOPBLOCKS > LOGSIZE
    ensures l.lh == old(l.lh)
  {
    RefinesIs(l, s);
    var e, steps := EndCall(l, s, i);
    ExecEnd(s, i, 0);
    ghost var t := Exec(s, steps);
    RefinesIs(l, t);
    ghost var step;
    r, step := BeginCall(l, t, op, pid);
  }
}
