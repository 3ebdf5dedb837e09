/**
 The blocking queue between core and slaves, with its shutdown, as a state machine over the
 steps of any number of poppers, any pushers, and one thread that calls `queue_free`.

 `must_terminate` and `isFree` are written and sometimes read without the mutex, so each such
 access is a step of its own; the rest of a critical section is one step.
 */
module JobQueue {
  import opened Prelude
  import opened Jobs

  datatype Pc =
    | Idle
    | CheckFlag            // about to read the flag without the mutex
    | AtLock
    | Testing              // holds the mutex, about to evaluate the wait condition
    | ToWait               // holds the mutex, about to wait
    | Waiting
    | Woken
    | Rechecking           // holds the mutex, about to read the flag again
    | Taking               // holds the mutex, about to remove the head
    | Returned(job: Job)
    | Terminated           // the call yields the termination descriptor
    | Crashed              // the head of an empty queue was dereferenced

  /** Where the thread inside `queue_free` is. */
  datatype FreePc = FIdle | FFlagged | FTest | FDrain | FMark | FLast

  datatype Queue = Queue(
    jobs: seq<Job>, term: bool, isFree: bool, holder: Option<nat>, pcs: seq<Pc>,
    freer: FreePc, returned: bool,       // `returned`: some call of queue_free has returned
    pushed: seq<Job>, removed: seq<Job>) // history, in order

  datatype Event =
    | StartPop(t: nat)
    | Advance(t: nat)
    | Collect(t: nat)
    | Spurious(t: nat)
    | Push(job: Job, chosen: set<nat>)
    | Free

  ghost predicate Init(s: Queue) {
    && s.jobs == [] && !s.term && !s.isFree && s.holder == None && s.freer == FIdle && !s.returned
    && s.pushed == [] && s.removed == []
    && forall t :: 0 <= t < |s.pcs| ==> s.pcs[t] == Idle
  }

  predicate Holding(pc: Pc) {
    pc.Testing? || pc.ToWait? || pc.Rechecking? || pc.Taking?
  }

  function WaitSet(pcs: seq<Pc>): set<nat> {
    set t: nat | t < |pcs| && pcs[t].Waiting?
  }

  predicate Due(pc: Pc) {
    pc.Woken? || pc.Testing? || pc.Rechecking? || pc.Taking?
  }

  function DueSet(pcs: seq<Pc>): set<nat> {
    set t: nat | t < |pcs| && Due(pcs[t])
  }

  function Wake(pcs: seq<Pc>, who: set<nat>): (r: seq<Pc>)
    ensures |r| == |pcs|
    ensures forall t :: 0 <= t < |pcs| ==> r[t] == if t in who && pcs[t].Waiting? then Woken else pcs[t]
  {
    seq(|pcs|, i requires 0 <= i < |pcs| => if i in who && pcs[i].Waiting? then Woken else pcs[i])
  }

  predicate SignalChoice(pcs: seq<Pc>, chosen: set<nat>) {
    chosen <= WaitSet(pcs) && (WaitSet(pcs) != {} ==> chosen != {})
  }

  predicate CanAdvance(s: Queue, t: nat) {
    && t < |s.pcs|
    && !s.pcs[t].Idle? && !s.pcs[t].Waiting? && !s.pcs[t].Returned? && !s.pcs[t].Terminated?
    && !s.pcs[t].Crashed?
    && (s.pcs[t].AtLock? || s.pcs[t].Woken? ==> s.holder == None)
  }

  predicate Enabled(s: Queue, e: Event) {
    match e
    case StartPop(t) => t < |s.pcs| && s.pcs[t].Idle?
    case Advance(t) => CanAdvance(s, t)
    case Collect(t) => t < |s.pcs| && (s.pcs[t].Returned? || s.pcs[t].Terminated?)
    case Spurious(t) => t < |s.pcs| && s.pcs[t].Waiting?
    case Push(_, chosen) => s.holder == None && SignalChoice(s.pcs, chosen)
    case Free => s.freer == FDrain ==> s.holder == None
  }

  function Step(s: Queue, t: nat): (s': Queue)
    requires CanAdvance(s, t)
    ensures |s'.pcs| == |s.pcs|
  {
    match s.pcs[t]
    case CheckFlag => s.(pcs := s.pcs[t := if s.term then Terminated else AtLock])
    case AtLock => s.(holder := Some(t), pcs := s.pcs[t := Testing])
    case Woken => s.(holder := Some(t), pcs := s.pcs[t := Testing])
    case Testing => s.(pcs := s.pcs[t := if s.jobs == [] && !s.term then ToWait else Rechecking])
    case ToWait => s.(holder := None, pcs := s.pcs[t := Waiting])
    case Rechecking =>
      if s.term then s.(holder := None, pcs := s.pcs[t := Terminated])
      else s.(pcs := s.pcs[t := Taking])
    case Taking =>
      if s.jobs == [] then s.(pcs := s.pcs[t := Crashed]) else
      s.(jobs := s.jobs[1..], holder := None, pcs := s.pcs[t := Returned(s.jobs[0])],
         removed := s.removed + [s.jobs[0]])
  }

  /** The statements of `queue_free`, one per step. */
  function FreeStep(s: Queue): (s': Queue)
    requires Enabled(s, Free)
    ensures |s'.pcs| == |s.pcs|
  {
    match s.freer
    case FIdle => s.(term := true, freer := FFlagged)
    case FFlagged => s.(pcs := Wake(s.pcs, WaitSet(s.pcs)), freer := FTest)
    case FTest => s.(freer := if s.isFree then FLast else FDrain)
    case FDrain => s.(jobs := [], removed := s.removed + s.jobs, freer := FMark)
    case FMark => s.(isFree := true, freer := FLast)
    case FLast => s.(pcs := Wake(s.pcs, WaitSet(s.pcs)), freer := FIdle, returned := true)
  }

  function Apply(s: Queue, e: Event): (s': Queue)
    requires Enabled(s, e)
    ensures |s'.pcs| == |s.pcs|
  {
    match e
    case StartPop(t) => s.(pcs := s.pcs[t := CheckFlag])
    case Advance(t) => Step(s, t)
    case Collect(t) => s.(pcs := s.pcs[t := Idle])
    case Spurious(t) => s.(pcs := s.pcs[t := Woken])
    case Push(job, chosen) =>
      s.(jobs := s.jobs + [job], pcs := Wake(s.pcs, chosen), pushed := s.pushed + [job])
    case Free => FreeStep(s)
  }

  // ---------------------------------------------------------------- invariant

  ghost predicate MutexInv(s: Queue) {
    && (s.holder.Some? ==> s.holder.value < |s.pcs| && Holding(s.pcs[s.holder.value]))
    && (forall t :: 0 <= t < |s.pcs| && Holding(s.pcs[t]) ==> s.holder == Some(t))
  }

  ghost predicate TestInv(s: Queue) {
    forall t :: 0 <= t < |s.pcs| ==>
      match s.pcs[t]
      case ToWait => s.jobs == []
      case Rechecking => s.jobs != [] || s.term
      case Taking => s.jobs != []
      case Crashed => false
      case _ => true
  }

  /** Pops follow push order, and nothing is lost or invented. */
  ghost predicate OrderInv(s: Queue) {
    s.pushed == s.removed + s.jobs
  }

  predicate Drained(s: Queue) {
    s.isFree || s.freer == FMark
  }

  /** The mutex taken for the drain lies between the two broadcasts: a popper that read the flag
      too early has left its critical section by then. */
  ghost predicate ShutdownInv(s: Queue) {
    && (s.freer != FIdle || s.returned ==> s.term)
    && (s.returned || s.freer == FLast ==> s.isFree)
    && (s.freer == FDrain || s.freer == FMark ==> !s.isFree)
    && (Drained(s) ==> s.term && forall t :: 0 <= t < |s.pcs| ==> !s.pcs[t].ToWait? && !s.pcs[t].Taking?)
    && (s.returned ==> forall t :: 0 <= t < |s.pcs| ==> !s.pcs[t].Waiting?)
  }

  /** While the server runs, no job lies in the queue beyond those that woken poppers will see
      as long as anybody sleeps. */
  predicate Covered(term: bool, jobs: nat, waiting: set<nat>, due: set<nat>) {
    !term && waiting != {} ==> jobs <= |due|
  }

  predicate WakeInv(s: Queue) {
    Covered(s.term, |s.jobs|, WaitSet(s.pcs), DueSet(s.pcs))
  }

  ghost predicate Inv(s: Queue) {
    MutexInv(s) && TestInv(s) && OrderInv(s) && ShutdownInv(s) && WakeInv(s)
  }

  lemma InitInv(s: Queue)
    requires Init(s)
    ensures Inv(s)
  {
  }

  lemma SetsAfter(pcs: seq<Pc>, t: nat, pc: Pc)
    requires t < |pcs|
    ensures WaitSet(pcs[t := pc]) == if pc.Waiting? then WaitSet(pcs) + {t} else WaitSet(pcs) - {t}
    ensures DueSet(pcs[t := pc]) == if Due(pc) then DueSet(pcs) + {t} else DueSet(pcs) - {t}
  {
  }

  lemma SetsAfterWake(pcs: seq<Pc>, who: set<nat>)
    requires who <= WaitSet(pcs)
    ensures WaitSet(Wake(pcs, who)) == WaitSet(pcs) - who
    ensures DueSet(Wake(pcs, who)) == DueSet(pcs) + who
  {
  }

  lemma AdvanceKeepsWake(s: Queue, t: nat)
    requires Inv(s) && CanAdvance(s, t)
    ensures WakeInv(Step(s, t))
  {
    var s' := Step(s, t);
    SetsAfter(s.pcs, t, s'.pcs[t]);
    assert s'.pcs == s.pcs[t := s'.pcs[t]];
    assert Due(s.pcs[t]) <==> t in DueSet(s.pcs);
    assert t !in WaitSet(s.pcs);
  }

  lemma PushKeepsWake(s: Queue, job: Job, chosen: set<nat>)
    requires Inv(s) && Enabled(s, Push(job, chosen))
    ensures WakeInv(Apply(s, Push(job, chosen)))
  {
    SetsAfterWake(s.pcs, chosen);
    assert DueSet(s.pcs) !! chosen;
    assert WaitSet(s.pcs) != {} ==> |chosen| >= 1;
  }

  lemma AdvanceKeepsMutex(s: Queue, t: nat)
    requires MutexInv(s) && CanAdvance(s, t)
    requires s.pcs[t].Taking? ==> s.jobs != []
    ensures MutexInv(Step(s, t))
  {
  }

  lemma AdvanceKeepsTests(s: Queue, t: nat)
    requires MutexInv(s) && TestInv(s) && CanAdvance(s, t)
    ensures TestInv(Step(s, t))
  {
  }

  lemma AdvanceKeepsOrder(s: Queue, t: nat)
    requires OrderInv(s) && CanAdvance(s, t)
    ensures OrderInv(Step(s, t))
  {
    if s.pcs[t].Taking? && s.jobs != [] {
      assert s.removed + s.jobs == s.removed + [s.jobs[0]] + s.jobs[1..];
    }
  }

  lemma AdvanceKeepsShutdown(s: Queue, t: nat)
    requires ShutdownInv(s) && CanAdvance(s, t)
    ensures ShutdownInv(Step(s, t))
  {
  }

  lemma AdvanceKeepsInv(s: Queue, t: nat)
    requires Inv(s) && CanAdvance(s, t)
    ensures Inv(Step(s, t))
  {
    AdvanceKeepsMutex(s, t);
    AdvanceKeepsTests(s, t);
    AdvanceKeepsOrder(s, t);
    AdvanceKeepsShutdown(s, t);
    AdvanceKeepsWake(s, t);
  }

  lemma FreeKeepsWake(s: Queue)
    requires Inv(s) && Enabled(s, Free)
    ensures WakeInv(FreeStep(s))
  {
    SetsAfterWake(s.pcs, WaitSet(s.pcs));
  }

  lemma FreeKeepsShutdown(s: Queue)
    requires Inv(s) && Enabled(s, Free)
    ensures ShutdownInv(FreeStep(s))
  {
    assert forall t :: 0 <= t < |s.pcs| && s.pcs[t].Waiting? ==> t in WaitSet(s.pcs);
  }

  lemma FreeKeepsInv(s: Queue)
    requires Inv(s) && Enabled(s, Free)
    ensures Inv(FreeStep(s))
  {
    FreeKeepsWake(s);
    FreeKeepsShutdown(s);
    if s.freer == FDrain {
      assert s.removed + s.jobs == (s.removed + s.jobs) + [];
    }
  }

  lemma PushKeepsInv(s: Queue, job: Job, chosen: set<nat>)
    requires Inv(s) && Enabled(s, Push(job, chosen))
    ensures Inv(Apply(s, Push(job, chosen)))
  {
    PushKeepsWake(s, job, chosen);
    assert s.removed + s.jobs + [job] == s.removed + (s.jobs + [job]);
  }

  lemma OwnMoveKeepsWake(s: Queue, t: nat, pc: Pc)
    requires WakeInv(s) && t < |s.pcs| && !Due(s.pcs[t]) && !pc.Waiting?
    ensures WakeInv(s.(pcs := s.pcs[t := pc]))
  {
    SetsAfter(s.pcs, t, pc);
    assert t !in DueSet(s.pcs);
    assert DueSet(s.pcs) <= DueSet(s.pcs[t := pc]);
    SubsetSize(DueSet(s.pcs), DueSet(s.pcs[t := pc]));
  }

  lemma SubsetSize(a: set<nat>, b: set<nat>)
    requires a <= b
    ensures |a| <= |b|
  {
    assert b == a + (b - a);
  }

  /** Starting a pop, taking its result and waking without cause touch one position only. */
  lemma OwnMoveKeepsInv(s: Queue, e: Event)
    requires Inv(s) && Enabled(s, e) && (e.StartPop? || e.Collect? || e.Spurious?)
    ensures Inv(Apply(s, e))
  {
    OwnMoveKeepsWake(s, e.t, Apply(s, e).pcs[e.t]);
  }

  lemma StepKeepsInv(s: Queue, e: Event)
    requires Inv(s) && Enabled(s, e)
    ensures Inv(Apply(s, e))
  {
    match e
    case Advance(t) => AdvanceKeepsInv(s, t);
    case Push(job, chosen) => PushKeepsInv(s, job, chosen);
    case Free => FreeKeepsInv(s);
    case _ => OwnMoveKeepsInv(s, e);
  }

  // ---------------------------------------------------------------- runs

  ghost predicate Next(s: Queue, s': Queue) {
    exists e: Event :: Enabled(s, e) && s' == Apply(s, e)
  }

  ghost predicate IsRun(run: seq<Queue>) {
    && |run| > 0 && Init(run[0])
    && forall i :: 0 <= i < |run| - 1 ==> Next(run[i], run[i + 1])
  }

  lemma EventAt(run: seq<Queue>, i: nat) returns (e: Event)
    requires IsRun(run) && i + 1 < |run|
    ensures Enabled(run[i], e) && run[i + 1] == Apply(run[i], e)
  {
    assert Next(run[i], run[i + 1]);
    e :| Enabled(run[i], e) && run[i + 1] == Apply(run[i], e);
  }

  lemma {:induction false} RunInv(run: seq<Queue>, i: nat)
    requires IsRun(run) && i < |run|
    ensures Inv(run[i])
  {
    if i == 0 {
      InitInv(run[0]);
    } else {
      RunInv(run, i - 1);
      var e := EventAt(run, i - 1);
      StepKeepsInv(run[i - 1], e);
    }
  }

  /** Once `queue_free` has returned nobody sleeps in a pop, no pop can take a job or go to
      sleep any more, and no pop ever took the head of an empty queue. */
  lemma ShutdownReachesEveryone(run: seq<Queue>, i: nat, t: nat)
    requires IsRun(run) && i < |run| && t < |run[i].pcs|
    ensures !run[i].pcs[t].Crashed?
    ensures run[i].returned ==>
      run[i].term && !run[i].pcs[t].Waiting? && !run[i].pcs[t].ToWait? && !run[i].pcs[t].Taking?
  {
    RunInv(run, i);
  }

  /** Nothing has been taken between the states a and b, which both come after shutdown. */
  ghost predicate Frozen(a: Queue, b: Queue) {
    && a.returned && b.returned && b.removed == a.removed && |b.pcs| == |a.pcs|
    && forall t :: 0 <= t < |b.pcs| && b.pcs[t].Returned? ==> a.pcs[t] == b.pcs[t]
  }

  lemma StepKeepsFrozen(a: Queue, s: Queue, e: Event)
    requires Inv(s) && Frozen(a, s) && Enabled(s, e)
    ensures Frozen(a, Apply(s, e))
  {
  }

  lemma FrozenNext(run: seq<Queue>, i: nat, j: nat)
    requires IsRun(run) && i <= j && j + 1 < |run| && Frozen(run[i], run[j])
    ensures Frozen(run[i], run[j + 1])
  {
    RunInv(run, j);
    var e := EventAt(run, j);
    StepKeepsFrozen(run[i], run[j], e);
  }

  /** Once `queue_free` has returned no job is ever taken again: a pop that holds a job after
      that point already held it at that point. */
  lemma {:induction false} NothingTakenAfterShutdown(run: seq<Queue>, i: nat, j: nat)
    requires IsRun(run) && i <= j < |run| && run[i].returned
    ensures Frozen(run[i], run[j])
    decreases j
  {
    if i < j {
      NothingTakenAfterShutdown(run, i, j - 1);
      FrozenNext(run, i, j - 1);
    }
  }

  /** Pops, and the final drain, take jobs in the order they were pushed. */
  lemma FirstInFirstOut(run: seq<Queue>, i: nat)
    requires IsRun(run) && i < |run|
    ensures run[i].removed <= run[i].pushed
    ensures run[i].jobs == run[i].pushed[|run[i].removed|..]
  {
    RunInv(run, i);
  }

  /** As long as the server runs, a job in the queue never waits on sleepers alone: if some
      popper sleeps, at least as many woken poppers as there are jobs are on their way. */
  lemma NoLostWakeup(run: seq<Queue>, i: nat, w: nat)
    requires IsRun(run) && i < |run| && w < |run[i].pcs| && run[i].pcs[w].Waiting?
    ensures run[i].term || |run[i].jobs| <= |DueSet(run[i].pcs)|
  {
    RunInv(run, i);
    assert w in WaitSet(run[i].pcs);
  }

  // ---------------------------------------------------------------- progress after shutdown

  /** How much of a pop is left once the queue has been freed. */
  function Rank(pc: Pc): nat {
    match pc
    case CheckFlag => 5
    case AtLock => 4
    case Woken => 4
    case Waiting => 5
    case ToWait => 6
    case Testing => 3
    case Rechecking => 2
    case Taking => 1
    case _ => 0
  }

  /** After `queue_free` has returned, every step of a pop brings it closer to the termination
      descriptor, and other pops are left where they were. */
  lemma RankFalls(s: Queue, t: nat)
    requires Inv(s) && s.returned && CanAdvance(s, t)
    ensures Rank(Step(s, t).pcs[t]) < Rank(s.pcs[t])
    ensures !Step(s, t).pcs[t].Returned?
    ensures forall u :: 0 <= u < |s.pcs| && u != t ==> Step(s, t).pcs[u] == s.pcs[u]
  {
  }

  /** While a pop is under way after shutdown, either it can step itself, or the thread that
      holds the mutex can. */
  lemma SomePopperCanAdvance(s: Queue, w: nat) returns (t: nat)
    requires Inv(s) && s.returned && w < |s.pcs|
    requires !s.pcs[w].Idle? && !s.pcs[w].Returned? && !s.pcs[w].Terminated?
    ensures CanAdvance(s, t)
  {
    t := if s.holder.Some? then s.holder.value else w;
  }
}
