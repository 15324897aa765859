/** Group commit as a state machine over whole runs of the log.

    A step is one critical section of begin_op, log_write or end_op, one disk write of commit() or
    of recovery, the eviction of an unpinned buffer, or a crash. Every interleaving of operations
    and every crash point is a list of steps. The state carries the events of the operations so
    far (`history`) and how many of them the disk holds for good (`durable`). */
module GroupCommit {
  import opened Guards
  import opened LogFormat
  import opened RedoLog

  datatype Event =
    | BeginE(op: nat)
    | PutE(op: nat, b: int, v: Block)
    | EndE(op: nat)

  /** An operation inside begin_op .. end_op and the number of blocks it has added to the log. */
  datatype Op = Op(id: nat, used: nat)

  /** Committing and recovering remember the disk they started from and the writes issued so far. */
  datatype Phase =
    | Running
    | Committing(d0: Image, vals: seq<Block>, k: nat)
    | Recovering(d0: Image, k: nat)

  datatype State = State(
    g: Geometry, disk: Image, cache: Cache, lh: seq<int>, open: seq<Op>, sleepers: set<nat>,
    phase: Phase, history: seq<Event>, durable: nat, init: map<int, Block>)

  datatype Step =
    | Begin(op: nat)
    | Sleep(pid: nat)
    | Put(i: nat, b: int, v: Block)
    | End(i: nat)
    | DiskWrite
    | Finish
    | Evict(b: int)
    | Crash

  // ----- Histories -----

  /** The home contents m after the writes of h. */
  ghost function Replay(m: map<int, Block>, h: seq<Event>): (r: map<int, Block>) {
    if h == [] then m else
      var r := Replay(m, h[..|h| - 1]);
      var e := h[|h| - 1];
      if e.PutE? then r[e.b := e.v] else r
  }

  lemma ReplayOne(m: map<int, Block>, h: seq<Event>, e: Event)
    ensures Replay(m, h + [e]) == if e.PutE? then Replay(m, h)[e.b := e.v] else Replay(m, h)
  {
    assert (h + [e])[..|h|] == h;
  }

  /** Every operation with an event in h has also ended in h. */
  ghost predicate Complete(h: seq<Event>) {
    forall e :: e in h ==> EndE(e.op) in h
  }

  /** No operation has events on both sides of position d. */
  ghost predicate Separate(h: seq<Event>, d: nat)
    requires d <= |h|
  {
    forall i, j :: 0 <= i < d <= j < |h| ==> h[i].op != h[j].op
  }

  // ----- Steps -----

  ghost predicate PhaseShape(s: State)
    requires s.g.Valid() && Loggable(s.g, s.lh)
  {
    match s.phase
    case Running => true
    case Committing(d0, vals, k) => |d0| == s.g.nblocks && |vals| == |s.lh| && k <= |Plan(s)|
    case Recovering(d0, k) => WellFormed(s.g, d0) && k <= |Plan(s)|
  }

  ghost predicate Shape(s: State) {
    && s.g.Valid()
    && |s.disk| == s.g.nblocks
    && Loggable(s.g, s.lh)
    && s.durable <= |s.history|
    && PhaseShape(s)
  }

  /** The writes that the current phase issues. */
  ghost function Plan(s: State): seq<Write>
    requires s.g.Valid() && Loggable(s.g, s.lh)
    requires s.phase.Committing? ==> |s.phase.d0| == s.g.nblocks && |s.phase.vals| == |s.lh|
    requires s.phase.Recovering? ==> WellFormed(s.g, s.phase.d0)
  {
    match s.phase
    case Running => []
    case Committing(d0, vals, _) => if s.lh == [] then [] else CommitWrites(s.g, d0[s.g.start], s.lh, vals)
    case Recovering(d0, _) => RecoverWrites(s.g, d0)
  }

  ghost predicate Enabled(s: State, step: Step)
    requires Shape(s)
  {
    match step
    case Begin(op) =>
      && s.phase.Running?
      && !MustWait(|s.lh|, |s.open|, false)
      && forall e :: e in s.history ==> e.op != op
    case Sleep(pid) => !s.phase.Recovering? && MustWait(|s.lh|, |s.open|, s.phase.Committing?)
    case Put(i, b, v) =>
      && s.phase.Running?
      && i < |s.open|
      && s.g.IsHome(b)
      && (b in s.lh || s.open[i].used < MAXOPBLOCKS)
      && !TooBig(|s.lh|, s.g.size)
    case End(i) => s.phase.Running? && i < |s.open|
    case DiskWrite => !s.phase.Running? && s.phase.k < |Plan(s)|
    case Finish => !s.phase.Running? && s.phase.k == |Plan(s)|
    case Evict(b) => b in s.cache && b !in s.lh
    case Crash => WellFormed(s.g, s.disk)
  }

  ghost function RemoveAt(open: seq<Op>, i: nat): seq<Op>
    requires i < |open|
  {
    open[..i] + open[i + 1..]
  }

  ghost function AfterPut(s: State, i: nat, b: int, v: Block): State
    requires i < |s.open|
  {
    var o := s.open[i];
    s.(cache := s.cache[b := v],
       lh := Absorb(s.lh, b),
       open := if b in s.lh then s.open else s.open[i := o.(used := o.used + 1)],
       history := s.history + [PutE(o.id, b, v)])
  }

  ghost function AfterEnd(s: State, i: nat): State
    requires i < |s.open| && InDisk(|s.disk|, s.lh)
  {
    var t := s.(open := RemoveAt(s.open, i), history := s.history + [EndE(s.open[i].id)]);
    if |t.open| > 0 then t.(sleepers := {})
    else t.(phase := Committing(s.disk, Vals(s.disk, s.cache, s.lh), 0),
            durable := if s.lh == [] then |t.history| else s.durable)
  }

  ghost function AfterDiskWrite(s: State, w: Write): State
    requires w.bno < |s.disk| && !s.phase.Running?
  {
    s.(disk := s.disk[w.bno := w.data],
       phase := s.phase.(k := s.phase.k + 1),
       durable := if s.phase.Committing? && s.phase.k == |s.lh| then |s.history| else s.durable)
  }

  ghost function AfterCrash(s: State): State
    requires s.durable <= |s.history|
  {
    s.(phase := Recovering(s.disk, 0), cache := map[], lh := [], open := [], sleepers := {},
       history := s.history[..s.durable])
  }

  lemma PlanInRange(s: State)
    requires Shape(s)
    ensures InRange(s.g.nblocks, Plan(s))
  {
    match s.phase
    case Running =>
    case Committing(d0, vals, _) => CommitPrefix(s.g, d0, s.lh, vals, 0);
    case Recovering(d0, _) => RecoverPrefix(s.g, d0, 0);
  }

  lemma LoggableInDisk(g: Geometry, lh: seq<int>)
    requires Loggable(g, lh)
    ensures InDisk(g.nblocks, lh)
  {
    forall i | 0 <= i < |lh|
      ensures 0 <= lh[i] < g.nblocks
    {
      assert g.IsHome(lh[i]);
    }
  }

  ghost function Next(s: State, step: Step): (t: State)
    requires Shape(s)
    ensures Shape(t) && t.g == s.g && t.init == s.init
  {
    if !Enabled(s, step) then s else
      match step
      case Begin(op) => s.(open := s.open + [Op(op, 0)], history := s.history + [BeginE(op)])
      case Sleep(pid) => s.(sleepers := s.sleepers + {pid})
      case Put(i, b, v) => AfterPut(s, i, b, v)
      case End(i) => LoggableInDisk(s.g, s.lh); AfterEnd(s, i)
      case DiskWrite => PlanInRange(s); AfterDiskWrite(s, Plan(s)[s.phase.k])
      case Finish => s.(phase := Running, lh := [], sleepers := {})
      case Evict(b) => s.(cache := s.cache - {b})
      case Crash => AfterCrash(s)
  }

  /** The machine comes up on any disk with a well-formed log. */
  ghost predicate Init(s: State) {
    && WellFormed(s.g, s.disk)
    && s.cache == map[] && s.lh == [] && s.open == [] && s.sleepers == {}
    && s.phase == Recovering(s.disk, 0)
    && s.history == [] && s.durable == 0
    && s.init == HomeView(s.g, s.disk)
  }

  /** The state after the given steps; a step that is not enabled changes nothing. */
  ghost function Exec(s: State, steps: seq<Step>): (t: State)
    requires Shape(s)
    ensures Shape(t)
  {
    if steps == [] then s else Next(Exec(s, steps[..|steps| - 1]), steps[|steps| - 1])
  }

  // ----- Log reservation -----

  /** What is left of the allowances of the open operations. */
  ghost function Unused(open: seq<Op>): int {
    if open == [] then 0 else Unused(open[..|open| - 1]) + MAXOPBLOCKS - open[|open| - 1].used
  }

  ghost predicate Reserved(s: State) {
    && (forall i :: 0 <= i < |s.open| ==> s.open[i].used <= MAXOPBLOCKS)
    && |s.lh| + Unused(s.open) <= LOGSIZE
  }

  lemma {:induction false} UnusedUpdate(open: seq<Op>, i: nat, o: Op)
    requires i < |open|
    ensures Unused(open[i := o]) == Unused(open) + open[i].used - o.used
  {
    var n := |open| - 1;
    if i < n {
      assert open[i := o][..n] == open[..n][i := o];
      UnusedUpdate(open[..n], i, o);
    } else {
      assert open[i := o][..n] == open[..n];
    }
  }

  lemma {:induction false} UnusedRemove(open: seq<Op>, i: nat)
    requires i < |open|
    ensures Unused(RemoveAt(open, i)) == Unused(open) - MAXOPBLOCKS + open[i].used
  {
    var n := |open| - 1;
    if i < n {
      assert RemoveAt(open, i)[..n - 1] == RemoveAt(open[..n], i);
      UnusedRemove(open[..n], i);
    } else {
      assert RemoveAt(open, i) == open[..n];
    }
  }

  lemma {:induction false} UnusedBounds(open: seq<Op>, i: nat)
    requires i < |open| && forall j :: 0 <= j < |open| ==> open[j].used <= MAXOPBLOCKS
    ensures 0 <= MAXOPBLOCKS - open[i].used <= Unused(open) <= MAXOPBLOCKS * |open|
  {
    var n := |open| - 1;
    if n > 0 {
      UnusedBounds(open[..n], if i < n then i else 0);
    }
  }

  lemma ReservedPut(s: State, i: nat, b: int, v: Block)
    requires Shape(s) && Reserved(s) && Enabled(s, Put(i, b, v))
    ensures Reserved(AfterPut(s, i, b, v))
  {
    var o := s.open[i];
    UnusedUpdate(s.open, i, o.(used := o.used + 1));
  }

  lemma ReservedEnd(s: State, i: nat)
    requires i < |s.open| && InDisk(|s.disk|, s.lh) && Reserved(s)
    ensures Reserved(AfterEnd(s, i))
  {
    UnusedRemove(s.open, i);
    UnusedBounds(s.open, i);
  }

  lemma ReservedNext(s: State, step: Step)
    requires Shape(s) && Reserved(s) && Enabled(s, step)
    ensures Reserved(Next(s, step))
  {
    match step
    case Begin(op) =>
      assert (s.open + [Op(op, 0)])[..|s.open|] == s.open;
      if s.open != [] {
        UnusedBounds(s.open, 0);
      }
    case Put(i, b, v) => ReservedPut(s, i, b, v);
    case End(i) =>
      LoggableInDisk(s.g, s.lh);
      ReservedEnd(s, i);
    case _ =>
      assert s.open != [] ==> Unused(s.open) >= 0 by {
        if s.open != [] {
          UnusedBounds(s.open, 0);
        }
      }
  }

  // ----- Histories stay whole -----

  ghost predicate IsOpen(open: seq<Op>, op: nat) {
    exists i :: 0 <= i < |open| && open[i].id == op
  }

  /** Operations in the durable part have ended there and have no event after it; the others are open or ended. */
  ghost predicate Whole(open: seq<Op>, h: seq<Event>, d: nat)
    requires d <= |h|
  {
    && Complete(h[..d])
    && Separate(h, d)
    && (forall e :: e in h ==> IsOpen(open, e.op) || EndE(e.op) in h)
    && (forall e :: e in h[..d] ==> !IsOpen(open, e.op))
  }

  lemma WholeAppend(open: seq<Op>, h: seq<Event>, d: nat, e: Event)
    requires d <= |h| && Whole(open, h, d)
    requires forall x :: x in h[..d] ==> x.op != e.op
    requires IsOpen(open, e.op)
    ensures Whole(open, h + [e], d)
  {
    assert (h + [e])[..d] == h[..d];
    forall i, j | 0 <= i < d <= j < |h + [e]|
      ensures (h + [e])[i].op != (h + [e])[j].op
    {
      assert h[i] in h[..d];
    }
  }

  lemma WholeBegin(open: seq<Op>, h: seq<Event>, d: nat, op: nat)
    requires d <= |h| && Whole(open, h, d)
    requires forall x :: x in h ==> x.op != op
    ensures Whole(open + [Op(op, 0)], h + [BeginE(op)], d)
  {
    var open' := open + [Op(op, 0)];
    assert open'[|open|].id == op;
    forall x: nat
      ensures IsOpen(open', x) <==> IsOpen(open, x) || x == op
    {
      if IsOpen(open, x) {
        var i :| 0 <= i < |open| && open[i].id == x;
        assert open'[i].id == x;
      }
    }
    assert Whole(open', h, d);
    WholeAppend(open', h, d, BeginE(op));
  }

  /** The operation that ends keeps the history whole, also when its end closes the group. */
  lemma WholeEnd(open: seq<Op>, h: seq<Event>, d: nat, i: nat)
    requires d <= |h| && Whole(open, h, d) && i < |open|
    ensures Whole(RemoveAt(open, i), h + [EndE(open[i].id)], d)
    ensures |open| == 1 ==> Whole([], h + [EndE(open[i].id)], |h| + 1)
  {
    var h' := h + [EndE(open[i].id)];
    assert IsOpen(open, open[i].id);
    WholeAppend(open, h, d, EndE(open[i].id));
    assert h'[|h|] in h';
    forall x: nat
      ensures IsOpen(RemoveAt(open, i), x) ==> IsOpen(open, x)
      ensures IsOpen(open, x) ==> IsOpen(RemoveAt(open, i), x) || x == open[i].id
    {
      if IsOpen(RemoveAt(open, i), x) {
        var j :| 0 <= j < |RemoveAt(open, i)| && RemoveAt(open, i)[j].id == x;
        assert open[if j < i then j else j + 1].id == x;
      }
      if IsOpen(open, x) && x != open[i].id {
        var j :| 0 <= j < |open| && open[j].id == x;
        assert RemoveAt(open, i)[if j < i then j else j - 1].id == x;
      }
    }
    assert h'[..|h| + 1] == h';
  }

  /** With no operation open the whole history may become durable. */
  lemma WholeDurable(h: seq<Event>, d: nat)
    requires d <= |h| && Whole([], h, d)
    ensures Whole([], h, |h|)
  {
    assert h[..|h|] == h;
  }

  /** A crash cuts the history at the durable part. */
  lemma WholeCrash(open: seq<Op>, h: seq<Event>, d: nat)
    requires d <= |h| && Whole(open, h, d)
    ensures Whole([], h[..d], d)
  {
    assert h[..d][..d] == h[..d];
  }

  lemma WholeSameIds(open: seq<Op>, open': seq<Op>, h: seq<Event>, d: nat)
    requires d <= |h| && Whole(open, h, d)
    requires |open| == |open'| && forall i :: 0 <= i < |open| ==> open[i].id == open'[i].id
    ensures Whole(open', h, d)
  {
    forall x: nat
      ensures IsOpen(open, x) <==> IsOpen(open', x)
    {
      if IsOpen(open, x) {
        var i :| 0 <= i < |open| && open[i].id == x;
        assert open'[i].id == x;
      }
    }
  }

  // ----- What disk and cache hold, phase by phase -----
  // m is the home contents after the whole history, p after its durable part.

  ghost predicate RunningInv(g: Geometry, disk: Image, cache: Cache, lh: seq<int>, m: map<int, Block>, p: map<int, Block>) {
    && LogEmpty(g, disk)
    && RawHome(g, disk) == p
    && m.Keys == p.Keys
    && (forall b :: b in cache ==> b in p && (b in lh || cache[b] == disk[b]))
    && (forall b :: b in m ==> 0 <= b < |disk| && View(disk, cache, b) == m[b])
  }

  ghost predicate CommittingInv(
    g: Geometry, d0: Image, disk: Image, cache: Cache, lh: seq<int>, vals: seq<Block>, plan: seq<Write>, k: nat,
    m: map<int, Block>, p: map<int, Block>)
  {
    && LogEmpty(g, d0) && Loggable(g, lh) && |lh| == |vals|
    && InRange(|d0|, plan) && k <= |plan| && disk == Apply(d0, plan[..k])
    && m == Updated(RawHome(g, d0), lh, vals)
    && p == (if lh == [] || k > |lh| then m else RawHome(g, d0))
    && (forall b :: b in cache ==> b in m && cache[b] == m[b])
  }

  ghost predicate RecoveringInv(
    g: Geometry, d0: Image, disk: Image, cache: Cache, plan: seq<Write>, k: nat, m: map<int, Block>, p: map<int, Block>)
  {
    && WellFormed(g, d0)
    && InRange(|d0|, plan) && k <= |plan| && disk == Apply(d0, plan[..k])
    && HomeView(g, d0) == m == p
    && cache == map[]
  }

  ghost predicate DataInv(s: State)
    requires Shape(s)
  {
    forall x {:trigger Opened(x)} :: Opened(x) ==> PhaseInv(s)
  }

  ghost predicate PhaseInv(s: State)
    requires Shape(s)
  {
    var m, p := Replay(s.init, s.history), Replay(s.init, s.history[..s.durable]);
    match s.phase
    case Running => RunningInv(s.g, s.disk, s.cache, s.lh, m, p)
    case Committing(d0, vals, k) => CommittingInv(s.g, d0, s.disk, s.cache, s.lh, vals, Plan(s), k, m, p)
    case Recovering(d0, k) => RecoveringInv(s.g, d0, s.disk, s.cache, Plan(s), k, m, p)
  }

  lemma RunningPut(g: Geometry, disk: Image, cache: Cache, lh: seq<int>, m: map<int, Block>, p: map<int, Block>, b: int, v: Block)
    requires RunningInv(g, disk, cache, lh, m, p) && g.IsHome(b)
    ensures RunningInv(g, disk, cache[b := v], Absorb(lh, b), m[b := v], p)
  {
    assert b in p;
    var m' := m[b := v];
    forall x | x in m'
      ensures 0 <= x < |disk| && View(disk, cache[b := v], x) == m'[x]
    {
      assert x == b || x in m;
    }
  }

  lemma RunningEnd(g: Geometry, disk: Image, cache: Cache, lh: seq<int>, m: map<int, Block>, p: map<int, Block>)
    requires RunningInv(g, disk, cache, lh, m, p) && Loggable(g, lh) && InDisk(|disk|, lh)
    ensures m == Updated(RawHome(g, disk), lh, Vals(disk, cache, lh))
    ensures forall b :: b in cache ==> b in m && cache[b] == m[b]
  {
    var vals := Vals(disk, cache, lh);
    forall b | b in m
      ensures m[b] == Updated(RawHome(g, disk), lh, vals)[b]
    {
      assert b in p;
      if b in lh {
        assert vals[IndexOf(lh, b)] == View(disk, cache, b);
      } else {
        assert View(disk, cache, b) == disk[b];
      }
    }
    forall b | b in cache
      ensures b in m && cache[b] == m[b]
    {
      assert b in p && b in m;
    }
  }

  /** After any number of the writes of commit() the disk means what the durable history says. */
  lemma CommittingView(
    g: Geometry, d0: Image, disk: Image, cache: Cache, lh: seq<int>, vals: seq<Block>, k: nat, m: map<int, Block>, p: map<int, Block>)
    requires g.Valid() && |d0| == g.nblocks && Loggable(g, lh) && |lh| == |vals|
    requires var plan := if lh == [] then [] else CommitWrites(g, d0[g.start], lh, vals);
             CommittingInv(g, d0, disk, cache, lh, vals, plan, k, m, p)
    ensures WellFormed(g, disk) && HomeView(g, disk) == p
  {
    if lh == [] {
      EmptyLogView(g, d0);
      assert Updated(RawHome(g, d0), lh, vals) == RawHome(g, d0);
    } else {
      CrashInCommit(g, d0, lh, vals, k);
    }
  }

  /** When commit() is done the disk holds the group in place and no buffer differs from it. */
  lemma CommittingFinish(
    g: Geometry, d0: Image, disk: Image, cache: Cache, lh: seq<int>, vals: seq<Block>, plan: seq<Write>, m: map<int, Block>, p: map<int, Block>)
    requires g.Valid() && |d0| == g.nblocks && Loggable(g, lh) && |lh| == |vals|
    requires plan == if lh == [] then [] else CommitWrites(g, d0[g.start], lh, vals)
    requires CommittingInv(g, d0, disk, cache, lh, vals, plan, |plan|, m, p)
    ensures RunningInv(g, disk, cache, [], m, p) && m == p
  {
    assert plan[..|plan|] == plan;
    if lh == [] {
      assert Updated(RawHome(g, d0), lh, vals) == RawHome(g, d0);
    } else {
      CommitCompletes(g, d0, lh, vals);
    }
    assert RawHome(g, disk) == m;
  }

  lemma RecoveringFinish(g: Geometry, d0: Image, disk: Image, cache: Cache, m: map<int, Block>, p: map<int, Block>)
    requires WellFormed(g, d0) && RecoveringInv(g, d0, disk, cache, RecoverWrites(g, d0), |RecoverWrites(g, d0)|, m, p)
    ensures RunningInv(g, disk, cache, [], m, p)
  {
    var plan := RecoverWrites(g, d0);
    assert plan[..|plan|] == plan;
    RecoveryCompletes(g, d0);
  }

  /** The heart of it: in every state a crash now would recover exactly the durable history. */
  lemma DurableView(s: State)
    requires Shape(s) && DataInv(s)
    ensures WellFormed(s.g, s.disk)
    ensures HomeView(s.g, s.disk) == Replay(s.init, s.history[..s.durable])
  {
    assert Opened(true);
    var m, p := Replay(s.init, s.history), Replay(s.init, s.history[..s.durable]);
    match s.phase
    case Running => EmptyLogView(s.g, s.disk);
    case Committing(d0, vals, k) => CommittingView(s.g, d0, s.disk, s.cache, s.lh, vals, k, m, p);
    case Recovering(d0, k) => CrashInRecovery(s.g, d0, k);
  }

  lemma DataPut(s: State, i: nat, b: int, v: Block)
    requires Shape(s) && DataInv(s) && Enabled(s, Put(i, b, v)) && Shape(AfterPut(s, i, b, v))
    ensures DataInv(AfterPut(s, i, b, v))
  {
    assert Opened(true);
    var e := PutE(s.open[i].id, b, v);
    ReplayOne(s.init, s.history, e);
    assert (s.history + [e])[..s.durable] == s.history[..s.durable];
    RunningPut(s.g, s.disk, s.cache, s.lh, Replay(s.init, s.history), Replay(s.init, s.history[..s.durable]), b, v);
  }

  lemma DataEnd(s: State, i: nat)
    requires Shape(s) && DataInv(s) && Enabled(s, End(i)) && InDisk(|s.disk|, s.lh) && Shape(AfterEnd(s, i))
    ensures DataInv(AfterEnd(s, i))
  {
    assert Opened(true);
    var e := EndE(s.open[i].id);
    var m, p := Replay(s.init, s.history), Replay(s.init, s.history[..s.durable]);
    ReplayOne(s.init, s.history, e);
    assert (s.history + [e])[..s.durable] == s.history[..s.durable];
    assert (s.history + [e])[..|s.history| + 1] == s.history + [e];
    var t := AfterEnd(s, i);
    if |t.open| == 0 {
      RunningEnd(s.g, s.disk, s.cache, s.lh, m, p);
      PlanInRange(t);
      assert Apply(s.disk, Plan(t)[..0]) == s.disk;
      assert s.lh == [] ==> Updated(RawHome(s.g, s.disk), s.lh, t.phase.vals) == RawHome(s.g, s.disk);
    }
  }

  lemma DataDiskWrite(s: State)
    requires Shape(s) && DataInv(s) && Enabled(s, DiskWrite) && Plan(s)[s.phase.k].bno < |s.disk|
    requires Shape(AfterDiskWrite(s, Plan(s)[s.phase.k]))
    ensures DataInv(AfterDiskWrite(s, Plan(s)[s.phase.k]))
  {
    var t := AfterDiskWrite(s, Plan(s)[s.phase.k]);
    PlanInRange(s);
    assert Plan(t) == Plan(s);
    if s.phase.Committing? {
      DataCommitWrite(s, t);
    } else {
      DataRecoverWrite(s, t);
    }
  }

  lemma DataCommitWrite(s: State, t: State)
    requires Shape(s) && DataInv(s) && s.phase.Committing? && s.phase.k < |Plan(s)| && InRange(|s.disk|, Plan(s))
    requires t == AfterDiskWrite(s, Plan(s)[s.phase.k]) && Shape(t) && Plan(t) == Plan(s)
    ensures DataInv(t)
  {
    assert Opened(true);
    ApplyNext(s.phase.d0, Plan(s), s.phase.k);
    assert s.history[..|s.history|] == s.history;
  }

  lemma DataRecoverWrite(s: State, t: State)
    requires Shape(s) && DataInv(s) && s.phase.Recovering? && s.phase.k < |Plan(s)| && InRange(|s.disk|, Plan(s))
    requires t == AfterDiskWrite(s, Plan(s)[s.phase.k]) && Shape(t) && Plan(t) == Plan(s)
    ensures DataInv(t)
  {
    assert Opened(true);
    ApplyNext(s.phase.d0, Plan(s), s.phase.k);
  }

  lemma DataFinish(s: State)
    requires Shape(s) && DataInv(s) && Enabled(s, Finish)
    ensures DataInv(s.(phase := Running, lh := [], sleepers := {}))
  {
    assert Opened(true);
    var m, p := Replay(s.init, s.history), Replay(s.init, s.history[..s.durable]);
    match s.phase
    case Committing(d0, vals, k) => CommittingFinish(s.g, d0, s.disk, s.cache, s.lh, vals, Plan(s), m, p);
    case Recovering(d0, k) => RecoveringFinish(s.g, d0, s.disk, s.cache, m, p);
  }

  lemma DataCrash(s: State)
    requires Shape(s) && DataInv(s) && Enabled(s, Crash) && Shape(AfterCrash(s))
    ensures DataInv(AfterCrash(s))
  {
    DurableView(s);
    var t := AfterCrash(s);
    assert t.history[..t.durable] == t.history;
    PlanInRange(t);
    assert Apply(s.disk, Plan(t)[..0]) == s.disk;
  }

  lemma DataBegin(s: State, t: State, op: nat)
    requires Shape(s) && DataInv(s) && Enabled(s, Begin(op)) && Shape(t) && t == Next(s, Begin(op))
    ensures DataInv(t)
  {
    assert Opened(true);
    ReplayOne(s.init, s.history, BeginE(op));
    assert t.history[..s.durable] == s.history[..s.durable];
  }

  lemma DataSleep(s: State, t: State)
    requires Shape(s) && DataInv(s) && t == s.(sleepers := t.sleepers) && Shape(t)
    ensures DataInv(t)
  {
    assert Opened(true);
    assert Plan(t) == Plan(s);
  }

  lemma DataEvict(s: State, t: State, b: int)
    requires Shape(s) && DataInv(s) && b !in s.lh && t == s.(cache := s.cache - {b}) && Shape(t)
    ensures DataInv(t)
  {
    assert Opened(true);
    assert Plan(t) == Plan(s);
  }

  lemma DataNext(s: State, step: Step)
    requires Shape(s) && DataInv(s) && Enabled(s, step)
    ensures DataInv(Next(s, step))
  {
    var t := Next(s, step);
    match step
    case Begin(op) => DataBegin(s, t, op);
    case Sleep(pid) => DataSleep(s, t);
    case Put(i, b, v) => DataPut(s, i, b, v);
    case End(i) =>
      LoggableInDisk(s.g, s.lh);
      DataEnd(s, i);
    case DiskWrite =>
      PlanInRange(s);
      DataDiskWrite(s);
    case Finish => DataFinish(s);
    case Evict(b) => DataEvict(s, t, b);
    case Crash => DataCrash(s);
  }

  lemma WholePut(s: State, i: nat, b: int, v: Block)
    requires Shape(s) && Enabled(s, Put(i, b, v)) && Whole(s.open, s.history, s.durable)
    ensures var t := AfterPut(s, i, b, v); Whole(t.open, t.history, t.durable)
  {
    assert IsOpen(s.open, s.open[i].id);
    WholeAppend(s.open, s.history, s.durable, PutE(s.open[i].id, b, v));
    WholeSameIds(s.open, AfterPut(s, i, b, v).open, s.history + [PutE(s.open[i].id, b, v)], s.durable);
  }

  lemma WholeNext(s: State, step: Step)
    requires Shape(s) && Enabled(s, step) && Whole(s.open, s.history, s.durable) && (!s.phase.Running? ==> s.open == [])
    ensures var t := Next(s, step); Whole(t.open, t.history, t.durable)
  {
    match step
    case Begin(op) => WholeBegin(s.open, s.history, s.durable, op);
    case Put(i, b, v) => WholePut(s, i, b, v);
    case End(i) => WholeEnd(s.open, s.history, s.durable, i);
    case DiskWrite => WholeDurable(s.history, s.durable);
    case Crash => WholeCrash(s.open, s.history, s.durable);
    case _ =>
  }

  // ----- Admission -----

  /** Processes asleep in begin_op have a reason to be, and someone is left to wake them. */
  ghost predicate SleepInv(s: State) {
    && (s.sleepers != {} ==> MustWait(|s.lh|, |s.open|, s.phase.Committing?))
    && (!s.phase.Running? ==> s.open == [])
    && (s.phase.Recovering? ==> s.durable == |s.history| && s.lh == [] && s.sleepers == {})
    && (s.phase.Committing? && (s.phase.k > |s.lh| || s.lh == []) ==> s.durable == |s.history|)
    && (s.phase.Running? && s.open == [] ==> s.lh == [] && s.durable == |s.history|)
  }

  lemma SleepNext(s: State, step: Step)
    requires Shape(s) && SleepInv(s) && Enabled(s, step)
    ensures SleepInv(Next(s, step))
  {
  }

  // ----- Every run -----

  ghost predicate Inv(s: State) {
    Shape(s) && Reserved(s) && Whole(s.open, s.history, s.durable) && SleepInv(s) && DataInv(s)
  }

  lemma InitInv(s: State)
    requires Init(s)
    ensures Inv(s)
  {
    PlanInRange(s);
    assert Apply(s.disk, Plan(s)[..0]) == s.disk;
  }

  lemma NextInv(s: State, step: Step)
    requires Inv(s)
    ensures Inv(Next(s, step))
  {
    if Enabled(s, step) {
      ReservedNext(s, step);
      WholeNext(s, step);
      SleepNext(s, step);
      DataNext(s, step);
    }
  }

  lemma {:induction false} RunInv(s: State, steps: seq<Step>)
    requires Init(s)
    ensures Shape(s) && Inv(Exec(s, steps))
  {
    InitInv(s);
    if steps != [] {
      RunInv(s, steps[..|steps| - 1]);
      NextInv(Exec(s, steps[..|steps| - 1]), steps[|steps| - 1]);
    }
  }

  /** Group commit: after any steps from boot, a crash recovers exactly the writes of the durable
      operations. Each operation is wholly durable, ended before the durable point, or has no event
      before it. */
  lemma {:induction false} GroupCommitAtomicity(s: State, steps: seq<Step>)
    requires Init(s)
    ensures Shape(s)
    ensures var t := Exec(s, steps);
            && WellFormed(t.g, t.disk)
            && InRange(|t.disk|, RecoverWrites(t.g, t.disk))
            && RawHome(t.g, Apply(t.disk, RecoverWrites(t.g, t.disk))) == Replay(t.init, t.history[..t.durable])
            && Complete(t.history[..t.durable])
            && Separate(t.history, t.durable)
  {
    RunInv(s, steps);
    DurableView(Exec(s, steps));
    RecoveryCompletes(Exec(s, steps).g, Exec(s, steps).disk);
  }

  /** Between groups nothing is left to lose: with no operation in progress and no commit under way
      every operation so far is durable, and reads see exactly their writes. */
  lemma {:induction false} QuiescentIsDurable(s: State, steps: seq<Step>)
    requires Init(s)
    ensures Shape(s)
    ensures var t := Exec(s, steps);
            && (t.phase.Running? && t.open == [] ==> t.durable == |t.history|)
            && (t.phase.Running? ==> forall b :: b in Replay(t.init, t.history) ==>
                                       0 <= b < |t.disk| && View(t.disk, t.cache, b) == Replay(t.init, t.history)[b])
  {
    RunInv(s, steps);
    ReadsSeeWrites(Exec(s, steps));
  }

  lemma ReadsSeeWrites(t: State)
    requires Shape(t) && DataInv(t)
    ensures t.phase.Running? ==> forall b :: b in Replay(t.init, t.history) ==>
                                   0 <= b < |t.disk| && View(t.disk, t.cache, b) == Replay(t.init, t.history)[b]
  {
    assert Opened(true);
  }

  /** What is durable stays durable: no step, not even a crash, takes it back. */
  lemma {:induction false} DurableGrows(s: State, steps: seq<Step>, step: Step)
    requires Init(s)
    ensures Shape(s)
    ensures var t, u := Exec(s, steps), Next(Exec(s, steps), step);
            t.durable <= u.durable && t.history[..t.durable] <= u.history[..u.durable]
  {
    RunInv(s, steps);
  }

  /** begin_op admits an operation whenever its reservation fits, so always when none is open: it makes
      nobody wait without need. */
  lemma {:induction false} BeginAdmits(s: State, steps: seq<Step>, op: nat)
    requires Init(s)
    ensures Shape(s)
    ensures var t := Exec(s, steps);
            t.phase.Running? && (forall e :: e in t.history ==> e.op != op) ==>
              && (Enabled(t, Begin(op)) <==> |t.lh| + (|t.open| + 1) * 10 <= 30)
              && (t.open == [] ==> Enabled(t, Begin(op)))
  {
    RunInv(s, steps);
  }

  /** end_op never finds a commit under way, and a commit never runs beside an open operation. */
  lemma {:induction false} CommitExcludesOperations(s: State, steps: seq<Step>)
    requires Init(s)
    ensures Shape(s)
    ensures var t := Exec(s, steps); t.phase.Committing? ==> |t.open| == 0
  {
    RunInv(s, steps);
  }

  /** A process sleeps in begin_op only while its wait condition holds; then some operation is in
      progress, or a commit that will wake it. */
  lemma {:induction false} SleepersWillBeWoken(s: State, steps: seq<Step>)
    requires Init(s)
    ensures Shape(s)
    ensures var t := Exec(s, steps);
            t.sleepers != {} ==> MustWait(|t.lh|, |t.open|, t.phase.Committing?) && (t.open != [] || t.phase.Committing?)
  {
    RunInv(s, steps);
  }

  /** With a log of LOGSIZE + 1 blocks, no log_write of an operation that has not used up its allowance
      panics, whether it appends a block or finds it logged already. */
  lemma {:induction false} AppendFits(s: State, steps: seq<Step>, i: nat)
    requires Init(s)
    ensures Shape(s)
    ensures var t := Exec(s, steps);
            t.phase.Running? && i < |t.open| && t.open[i].used < MAXOPBLOCKS && t.g.size >= LOGSIZE + 1
            ==> !TooBig(|t.lh|, t.g.size)
  {
    RunInv(s, steps);
    var t := Exec(s, steps);
    if i < |t.open| {
      UnusedBounds(t.open, i);
    }
  }

  // ----- When log_write panics although every operation keeps to its allowance -----

  lemma ExecOne(s: State, steps: seq<Step>, step: Step)
    requires Shape(s)
    ensures Exec(s, steps + [step]) == Next(Exec(s, steps), step)
  {
    assert (steps + [step])[..|steps|] == steps;
  }

  /** Three open operations that have logged the first n blocks after the log, ten each. */
  ghost predicate Filled(g: Geometry, s: State, n: nat) {
    && s.g == g && s.phase.Running?
    && |s.lh| == n
    && (forall b :: b in s.lh <==> 0 <= b - g.start - g.size < n)
    && s.open == [Op(0, Clamp(n, 10)), Op(1, Clamp(n - 10, 10)), Op(2, Clamp(n - 20, 10))]
  }

  /** Recovery of a disk with an empty log: one write. */
  lemma Booted(g: Geometry) returns (s: State, steps: seq<Step>)
    requires g.Valid()
    ensures Init(s) && Shape(s)
    ensures var t := Exec(s, steps); t.g == g && t.phase.Running? && t.lh == [] && t.open == [] && t.history == []
  {
    var zero: Block := seq(BLOCK_WORDS, _ => 0);
    var disk: Image := seq(g.nblocks, _ => zero);
    assert Entries(disk[g.start]) == [];
    s := State(g, disk, map[], [], [], {}, Recovering(disk, 0), [], 0, HomeView(g, disk));
    PlanInRange(s);
    var t := Next(s, DiskWrite);
    assert Enabled(s, DiskWrite) && t == AfterDiskWrite(s, Plan(s)[0]) && Plan(t) == Plan(s);
    ExecOne(s, [], DiskWrite);
    ExecOne(s, [DiskWrite], Finish);
    assert [] + [DiskWrite] == [DiskWrite];
    steps := [DiskWrite] + [Finish];
  }

  /** Operations 0..i-1 are open and have logged nothing. */
  ghost predicate Opening(g: Geometry, t: State, i: nat) {
    && t.g == g && t.phase.Running? && t.lh == []
    && |t.open| == i && (forall j :: 0 <= j < i ==> t.open[j] == Op(j, 0))
    && (forall e :: e in t.history ==> e.op < i)
  }

  lemma OpenOne(g: Geometry, t: State, i: nat)
    requires Shape(t) && Opening(g, t, i) && i < 3
    ensures Opening(g, Next(t, Begin(i)), i + 1)
  {
    assert Enabled(t, Begin(i));
  }

  lemma {:induction false} OpenSome(g: Geometry, i: nat) returns (s: State, steps: seq<Step>)
    requires g.Valid() && i <= 3
    ensures Init(s) && Shape(s) && Opening(g, Exec(s, steps), i)
  {
    if i == 0 {
      s, steps := Booted(g);
    } else {
      s, steps := OpenSome(g, i - 1);
      OpenOne(g, Exec(s, steps), i - 1);
      ExecOne(s, steps, Begin(i - 1));
      steps := steps + [Begin(i - 1)];
    }
  }

  lemma ThreeOpen(g: Geometry) returns (s: State, steps: seq<Step>)
    requires g.Valid()
    ensures Init(s) && Shape(s) && Filled(g, Exec(s, steps), 0)
  {
    s, steps := OpenSome(g, 3);
    assert Exec(s, steps).open == [Op(0, 0), Op(1, 0), Op(2, 0)];
  }

  lemma FillOne(g: Geometry, t: State, n: nat, v: Block)
    requires Shape(t) && Filled(g, t, n)
    requires n < LOGSIZE && n < g.size - 1 && g.start + g.size + LOGSIZE <= g.nblocks
    ensures Filled(g, Next(t, Put(n / 10, g.start + g.size + n, v)), n + 1)
  {
    var b := g.start + g.size + n;
    assert b !in t.lh && Enabled(t, Put(n / 10, b, v));
    var u := AfterPut(t, n / 10, b, v);
    forall x
      ensures x in u.lh <==> 0 <= x - g.start - g.size < n + 1
    {
      assert u.lh == t.lh + [b];
      assert x in u.lh <==> x in t.lh || x == b;
    }
  }

  lemma FillStep(g: Geometry, s: State, prior: seq<Step>, n: nat) returns (steps: seq<Step>)
    requires Shape(s) && Filled(g, Exec(s, prior), n)
    requires n < LOGSIZE && n < g.size - 1 && g.start + g.size + LOGSIZE <= g.nblocks
    ensures Filled(g, Exec(s, steps), n + 1)
  {
    var v: Block := seq(BLOCK_WORDS, _ => 0);
    var step := Put(n / 10, g.start + g.size + n, v);
    FillOne(g, Exec(s, prior), n, v);
    ExecOne(s, prior, step);
    steps := prior + [step];
  }

  lemma {:induction false} Fill(g: Geometry, n: nat) returns (s: State, steps: seq<Step>)
    requires g.Valid() && n <= LOGSIZE && n <= g.size - 1 && g.start + g.size + LOGSIZE <= g.nblocks
    ensures Init(s) && Shape(s) && Filled(g, Exec(s, steps), n)
  {
    if n == 0 {
      s, steps := ThreeOpen(g);
    } else {
      var prior;
      s, prior := Fill(g, n - 1);
      steps := FillStep(g, s, prior, n - 1);
    }
  }

  /** However large the log, a run within all allowances reaches a state in which an operation that has
      used up its allowance panics when it logs a block b that is logged already: the size guard is
      tested before absorption. */
  lemma AbsorbingWriteCanPanic(g: Geometry) returns (s: State, steps: seq<Step>, i: nat, b: int)
    requires g.Valid() && g.size >= LOGSIZE + 1 && g.start + g.size + LOGSIZE <= g.nblocks
    ensures Init(s) && Shape(s)
    ensures var t := Exec(s, steps);
            && t.g == g && t.phase.Running? && i < |t.open| && t.open[i].used == MAXOPBLOCKS
            && (forall j :: 0 <= j < |t.open| ==> t.open[j].used <= MAXOPBLOCKS)
            && g.IsHome(b) && b in t.lh && TooBig(|t.lh|, g.size)
  {
    s, steps := Fill(g, LOGSIZE);
    i, b := 0, g.start + g.size;
    assert b in Exec(s, steps).lh;
  }

  /** With log.size <= LOGSIZE, the size that mkfs gives it, even an append within the allowance can panic. */
  lemma SmallLogAppendCanPanic(g: Geometry) returns (s: State, steps: seq<Step>, i: nat, b: int)
    requires g.Valid() && g.size <= LOGSIZE && g.start + g.size + LOGSIZE <= g.nblocks
    ensures Init(s) && Shape(s)
    ensures var t := Exec(s, steps);
            && t.g == g && t.phase.Running? && i < |t.open| && t.open[i].used < MAXOPBLOCKS
            && g.IsHome(b) && b !in t.lh && TooBig(|t.lh|, g.size)
  {
    s, steps := Fill(g, g.size - 1);
    i, b := (g.size - 1) / 10, g.start + g.size + g.size - 1;
  }
}
