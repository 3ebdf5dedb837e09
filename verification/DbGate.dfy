/**
 The readers/writer gate that every SQL statement passes through (the build without WAL),
 with the termination flag, as a state machine over the steps of any number of threads.

 A step is a stretch of code that no other thread can observe in the middle: what happens
 under the mutex up to the next read of the unprotected flag `terminate_queries`, to the
 next wait, or to the unlock. The flag is set, and the first broadcast is sent, by a thread
 that does not hold the mutex; those are steps of their own.
 */
module DbGate {
  import opened Prelude

  datatype DbOp = Reading | Writing | Noop

  /** A SELECT, or a statement that writes; a busy write is attempted once more. */
  datatype Request = Read | Write(retried: bool)

  /** Where a thread is inside the call. */
  datatype Pc =
    | Out
    | AtLock(k: Request)                  // before the first lock
    | Testing(k: Request)                 // holds the mutex, about to evaluate the wait condition
    | ToWait(k: Request)                  // holds the mutex, condition found true, about to wait
    | Waiting(k: Request)                 // in the wait set of `db_busy`
    | Woken(k: Request)                   // out of the wait set, must take the mutex and test again
    | Rechecking(k: Request)              // holds the mutex, about to read the flag a second time
    | Entering(k: Request)                // holds the mutex, flag read as unset
    | Bailing(k: Request)                 // holds the mutex, flag read as set
    | InDb(k: Request)                    // executing the statement, mutex free
    | AtRelock(k: Request, busy: bool)    // statement done, before the second lock

  datatype Gate = Gate(op: DbOp, readers: int, term: bool, holder: Option<nat>, pcs: seq<Pc>)

  datatype Event =
    | Begin(t: nat, k: Request)
    | Advance(t: nat, busy: bool, chosen: set<nat>)  // `chosen`: whom a signal wakes
    | Spurious(t: nat)
    | SetTerm
    | Broadcast

  ghost predicate Init(s: Gate) {
    && s.op == Noop && s.readers == 0 && !s.term && s.holder == None
    && forall t :: 0 <= t < |s.pcs| ==> s.pcs[t] == Out
  }

  predicate Blocked(k: Request, op: DbOp) {
    if k.Read? then op == Writing else op != Noop
  }

  /** Positions in which the thread owns the mutex. */
  predicate Holding(pc: Pc) {
    pc.Testing? || pc.ToWait? || pc.Rechecking? || pc.Entering? || pc.Bailing?
  }

  predicate NeedsMutex(pc: Pc) {
    pc.AtLock? || pc.Woken? || pc.AtRelock?
  }

  predicate InRead(pc: Pc) {
    (pc.InDb? || pc.AtRelock?) && pc.k.Read?
  }

  predicate InWrite(pc: Pc) {
    (pc.InDb? || pc.AtRelock?) && pc.k.Write?
  }

  function WaitSet(pcs: seq<Pc>): set<nat> {
    set t: nat | t < |pcs| && pcs[t].Waiting?
  }

  function Readers(pcs: seq<Pc>): set<nat> {
    set t: nat | t < |pcs| && InRead(pcs[t])
  }

  function Writers(pcs: seq<Pc>): set<nat> {
    set t: nat | t < |pcs| && InWrite(pcs[t])
  }

  function Wake(pcs: seq<Pc>, who: set<nat>): (r: seq<Pc>)
    ensures |r| == |pcs|
    ensures forall t :: 0 <= t < |pcs| ==>
      r[t] == if t in who && pcs[t].Waiting? then Woken(pcs[t].k) else pcs[t]
  {
    seq(|pcs|, i requires 0 <= i < |pcs| => if i in who && pcs[i].Waiting? then Woken(pcs[i].k) else pcs[i])
  }

  function WakeAll(pcs: seq<Pc>): seq<Pc> {
    Wake(pcs, WaitSet(pcs))
  }

  /** A POSIX signal wakes at least one waiter when there is one. */
  predicate SignalChoice(pcs: seq<Pc>, chosen: set<nat>) {
    chosen <= WaitSet(pcs) && (WaitSet(pcs) != {} ==> chosen != {})
  }

  predicate LastReaderLeaves(s: Gate, t: nat)
    requires t < |s.pcs|
  {
    s.pcs[t].AtRelock? && s.pcs[t].k.Read? && s.readers - 1 == 0
  }

  predicate CanAdvance(s: Gate, t: nat) {
    && t < |s.pcs|
    && !s.pcs[t].Out? && !s.pcs[t].Waiting?
    && (NeedsMutex(s.pcs[t]) ==> s.holder == None)
  }

  predicate Enabled(s: Gate, e: Event) {
    match e
    case Begin(t, k) => t < |s.pcs| && s.pcs[t].Out? && (k.Write? ==> !k.retried)
    case Advance(t, busy, chosen) =>
      CanAdvance(s, t) && (LastReaderLeaves(s, t) ==> SignalChoice(s.pcs, chosen))
    case Spurious(t) => t < |s.pcs| && s.pcs[t].Waiting?
    case SetTerm => true
    case Broadcast => true
  }

  /** One step of thread t, branch by branch. */
  function Step(s: Gate, t: nat, busy: bool, chosen: set<nat>): (s': Gate)
    requires CanAdvance(s, t)
    ensures |s'.pcs| == |s.pcs| && s'.term == s.term
  {
    match s.pcs[t]
    case AtLock(k) => s.(holder := Some(t), pcs := s.pcs[t := Testing(k)])
    case Woken(k) => s.(holder := Some(t), pcs := s.pcs[t := Testing(k)])
    case Testing(k) =>
      s.(pcs := s.pcs[t := if !s.term && Blocked(k, s.op) then ToWait(k) else Rechecking(k)])
    case ToWait(k) => s.(holder := None, pcs := s.pcs[t := Waiting(k)])
    case Rechecking(k) => s.(pcs := s.pcs[t := if s.term then Bailing(k) else Entering(k)])
    case Bailing(k) => s.(holder := None, pcs := WakeAll(s.pcs)[t := Out])
    case Entering(k) =>
      if k.Write? then
        s.(op := Writing, holder := None, pcs := s.pcs[t := InDb(k)])
      else
        var op := if s.op == Noop then Reading else s.op;
        if op == Reading then
          s.(op := op, readers := s.readers + 1, holder := None, pcs := s.pcs[t := InDb(k)])
        else
          // neither branch of the code applies: the call returns with the mutex still locked
          s.(op := op, pcs := s.pcs[t := Out])
    case InDb(k) => s.(pcs := s.pcs[t := AtRelock(k, busy)])
    case AtRelock(k, wasBusy) =>
      if k.Read? then
        if s.readers - 1 == 0 then
          s.(readers := s.readers - 1, op := Noop, pcs := Wake(s.pcs, chosen)[t := Out])
        else
          s.(readers := s.readers - 1, pcs := s.pcs[t := Out])
      else
        s.(op := Noop,
           pcs := WakeAll(s.pcs)[t := if !k.retried && wasBusy then AtLock(Write(true)) else Out])
  }

  function Apply(s: Gate, e: Event): (s': Gate)
    requires Enabled(s, e)
    ensures |s'.pcs| == |s.pcs|
  {
    match e
    case Begin(t, k) => s.(pcs := s.pcs[t := AtLock(k)])
    case Advance(t, busy, chosen) => Step(s, t, busy, chosen)
    case Spurious(t) => s.(pcs := s.pcs[t := Woken(s.pcs[t].k)])
    case SetTerm => s.(term := true)
    case Broadcast => s.(pcs := WakeAll(s.pcs))
  }

  // ---------------------------------------------------------------- invariant

  ghost predicate MutexInv(s: Gate) {
    && (s.holder.Some? ==> s.holder.value < |s.pcs| && Holding(s.pcs[s.holder.value]))
    && (forall t :: 0 <= t < |s.pcs| && Holding(s.pcs[t]) ==> s.holder == Some(t))
  }

  /** The gate variable and the reader count say exactly who is in the database. */
  predicate Agree(op: DbOp, readers: int, r: set<nat>, w: set<nat>) {
    && |r| == readers
    && (op == Writing <==> |w| == 1)
    && (op == Reading <==> readers > 0)
    && (op != Writing <==> w == {})
  }

  predicate CountInv(s: Gate) {
    Agree(s.op, s.readers, Readers(s.pcs), Writers(s.pcs))
  }

  /** A thread that got past a test did so for a reason that still holds. */
  ghost predicate TestInv(s: Gate) {
    forall t :: 0 <= t < |s.pcs| ==>
      match s.pcs[t]
      case Rechecking(k) => s.term || !Blocked(k, s.op)
      case Entering(k) => !Blocked(k, s.op)
      case ToWait(k) => Blocked(k, s.op)
      case Waiting(k) => k.Read? ==> s.op == Writing
      case Bailing(k) => s.term
      case _ => true
  }

  predicate Due(pc: Pc) {
    pc.Woken? || pc.Testing? || pc.Rechecking? || pc.Entering? || pc.Bailing?
  }

  /** Nobody sleeps on an idle gate unless some thread is about to test it. */
  ghost predicate WakeInv(s: Gate) {
    s.op == Noop && (exists w :: 0 <= w < |s.pcs| && s.pcs[w].Waiting?) ==>
      exists t :: 0 <= t < |s.pcs| && Due(s.pcs[t])
  }

  ghost predicate Inv(s: Gate) {
    MutexInv(s) && CountInv(s) && TestInv(s) && WakeInv(s)
  }

  lemma InitInv(s: Gate)
    requires Init(s)
    ensures Inv(s)
  {
    assert Readers(s.pcs) == {} && Writers(s.pcs) == {};
  }

  lemma WakeKeepsSections(pcs: seq<Pc>, who: set<nat>)
    ensures Readers(Wake(pcs, who)) == Readers(pcs)
    ensures Writers(Wake(pcs, who)) == Writers(pcs)
  {
  }

  /** What moving one thread does to the sets of readers and writers. */
  lemma SectionsAfter(pcs: seq<Pc>, t: nat, pc: Pc)
    requires t < |pcs|
    ensures Readers(pcs[t := pc]) == if InRead(pc) then Readers(pcs) + {t} else Readers(pcs) - {t}
    ensures Writers(pcs[t := pc]) == if InWrite(pc) then Writers(pcs) + {t} else Writers(pcs) - {t}
  {
  }

  /** A move that stays on its side of both section borders changes neither section. */
  lemma SameSections(pcs: seq<Pc>, t: nat, pc: Pc)
    requires t < |pcs|
    requires InRead(pc) == InRead(pcs[t]) && InWrite(pc) == InWrite(pcs[t])
    ensures Readers(pcs[t := pc]) == Readers(pcs)
    ensures Writers(pcs[t := pc]) == Writers(pcs)
  {
  }

  /** Entering and leaving are the only steps that move a thread across a section border. */
  lemma QuietKeepsCounts(s: Gate, t: nat, busy: bool, chosen: set<nat>)
    requires CountInv(s) && CanAdvance(s, t)
    requires !s.pcs[t].Entering? && !s.pcs[t].AtRelock?
    ensures CountInv(Step(s, t, busy, chosen))
  {
    var s' := Step(s, t, busy, chosen);
    if s.pcs[t].Bailing? {
      WakeKeepsSections(s.pcs, WaitSet(s.pcs));
      SameSections(WakeAll(s.pcs), t, Out);
    } else {
      SameSections(s.pcs, t, s'.pcs[t]);
      assert s'.pcs == s.pcs[t := s'.pcs[t]];
    }
  }

  lemma EnterKeepsCounts(s: Gate, t: nat, busy: bool, chosen: set<nat>)
    requires Inv(s) && CanAdvance(s, t) && s.pcs[t].Entering?
    ensures CountInv(Step(s, t, busy, chosen))
  {
    var s' := Step(s, t, busy, chosen);
    SectionsAfter(s.pcs, t, s'.pcs[t]);
    assert t !in Readers(s.pcs) && t !in Writers(s.pcs);
    if s.pcs[t].k.Write? {
      assert Readers(s'.pcs) == Readers(s.pcs);
      assert Writers(s'.pcs) == {t};
    } else {
      assert Writers(s'.pcs) == Writers(s.pcs) == {};
      assert |Readers(s'.pcs)| == |Readers(s.pcs)| + 1;
    }
  }

  /** A thread about to leave finds the gate as it set it. */
  predicate GateIsMine(s: Gate, t: nat) {
    t < |s.pcs| && s.pcs[t].AtRelock? ==> s.op == if s.pcs[t].k.Read? then Reading else Writing
  }

  lemma LeaverOwnsGate(s: Gate, t: nat)
    requires CountInv(s)
    ensures GateIsMine(s, t)
  {
    if t < |s.pcs| && s.pcs[t].AtRelock? {
      assert if s.pcs[t].k.Read? then t in Readers(s.pcs) else t in Writers(s.pcs);
    }
  }

  lemma ReaderLeavesCounts(s: Gate, t: nat, busy: bool, chosen: set<nat>)
    requires CountInv(s) && GateIsMine(s, t) && CanAdvance(s, t) && s.pcs[t].AtRelock? && s.pcs[t].k.Read?
    ensures CountInv(Step(s, t, busy, chosen))
  {
    var base := if s.readers - 1 == 0 then Wake(s.pcs, chosen) else s.pcs;
    WakeKeepsSections(s.pcs, chosen);
    SectionsAfter(base, t, Out);
    assert t in Readers(s.pcs);
    assert |Readers(s.pcs) - {t}| == |Readers(s.pcs)| - 1;
  }

  lemma OnlyWriterLeaves(pcs: seq<Pc>, t: nat, pc: Pc)
    requires t < |pcs| && t in Writers(pcs) && |Writers(pcs)| == 1 && !InRead(pc) && !InWrite(pc)
    ensures Writers(WakeAll(pcs)[t := pc]) == {} && Readers(WakeAll(pcs)[t := pc]) == Readers(pcs)
  {
    WakeKeepsSections(pcs, WaitSet(pcs));
    SectionsAfter(WakeAll(pcs), t, pc);
    assert |Writers(pcs) - {t}| == 0;
    assert t !in Readers(pcs);
  }

  lemma WriterLeavesCounts(s: Gate, t: nat, busy: bool, chosen: set<nat>)
    requires CountInv(s) && GateIsMine(s, t) && CanAdvance(s, t) && s.pcs[t].AtRelock? && s.pcs[t].k.Write?
    ensures CountInv(Step(s, t, busy, chosen))
  {
    assert t in Writers(s.pcs);
    OnlyWriterLeaves(s.pcs, t, Step(s, t, busy, chosen).pcs[t]);
  }

  lemma NoReaderWhileWriting(s: Gate)
    requires CountInv(s) && s.op == Writing
    ensures Readers(s.pcs) == {}
  {
  }

  lemma AdvanceKeepsCounts(s: Gate, t: nat, busy: bool, chosen: set<nat>)
    requires Inv(s) && CanAdvance(s, t)
    ensures CountInv(Step(s, t, busy, chosen))
  {
    if s.pcs[t].Entering? {
      EnterKeepsCounts(s, t, busy, chosen);
    } else if s.pcs[t].AtRelock? {
      LeaverOwnsGate(s, t);
      if s.pcs[t].k.Read? {
        ReaderLeavesCounts(s, t, busy, chosen);
      } else {
        WriterLeavesCounts(s, t, busy, chosen);
      }
    } else {
      QuietKeepsCounts(s, t, busy, chosen);
    }
  }

  lemma AdvanceKeepsMutex(s: Gate, t: nat, busy: bool, chosen: set<nat>)
    requires MutexInv(s) && TestInv(s) && Enabled(s, Advance(t, busy, chosen))
    ensures MutexInv(Step(s, t, busy, chosen))
  {
  }

  lemma AdvanceKeepsTests(s: Gate, t: nat, busy: bool, chosen: set<nat>)
    requires MutexInv(s) && TestInv(s) && GateIsMine(s, t) && Enabled(s, Advance(t, busy, chosen))
    ensures TestInv(Step(s, t, busy, chosen))
  {
  }

  lemma AdvanceKeepsWake(s: Gate, t: nat, busy: bool, chosen: set<nat>)
    requires Inv(s) && Enabled(s, Advance(t, busy, chosen))
    ensures WakeInv(Step(s, t, busy, chosen))
  {
    var s' := Step(s, t, busy, chosen);
    assert s.pcs[t].InDb? ==> t in Readers(s.pcs) || t in Writers(s.pcs);
    if s'.op == Noop && exists w :: 0 <= w < |s'.pcs| && s'.pcs[w].Waiting? {
      var w :| 0 <= w < |s'.pcs| && s'.pcs[w].Waiting?;
      if s.pcs[t].AtRelock? {
        assert w in WaitSet(s.pcs);
        if s.pcs[t].k.Read? {
          assert t in Readers(s.pcs);
          var c :| c in chosen;
          assert Due(s'.pcs[c]);
        }
      } else if !s.pcs[t].ToWait? && !s.pcs[t].Bailing? {
        assert Due(s'.pcs[t]);
      }
    }
  }

  lemma AdvanceKeepsInv(s: Gate, t: nat, busy: bool, chosen: set<nat>)
    requires Inv(s) && Enabled(s, Advance(t, busy, chosen))
    ensures Inv(Step(s, t, busy, chosen))
  {
    AdvanceKeepsCounts(s, t, busy, chosen);
    AdvanceKeepsMutex(s, t, busy, chosen);
    LeaverOwnsGate(s, t);
    AdvanceKeepsTests(s, t, busy, chosen);
    AdvanceKeepsWake(s, t, busy, chosen);
  }

  lemma BeginKeepsInv(s: Gate, t: nat, k: Request)
    requires Inv(s) && Enabled(s, Begin(t, k))
    ensures Inv(Apply(s, Begin(t, k)))
  {
    var s' := Apply(s, Begin(t, k));
    SameSections(s.pcs, t, AtLock(k));
    if d :| 0 <= d < |s.pcs| && Due(s.pcs[d]) {
      assert Due(s'.pcs[d]);
    }
  }

  lemma SpuriousKeepsInv(s: Gate, t: nat)
    requires Inv(s) && Enabled(s, Spurious(t))
    ensures Inv(Apply(s, Spurious(t)))
  {
    var s' := Apply(s, Spurious(t));
    SameSections(s.pcs, t, Woken(s.pcs[t].k));
    assert Due(s'.pcs[t]);
  }

  lemma BroadcastKeepsInv(s: Gate)
    requires Inv(s)
    ensures Inv(Apply(s, Broadcast))
  {
    WakeKeepsSections(s.pcs, WaitSet(s.pcs));
    assert forall w :: 0 <= w < |s.pcs| && s.pcs[w].Waiting? ==> w in WaitSet(s.pcs);
  }

  /** Every step of every thread, a spurious wakeup, the unlocked flag and the unlocked
      broadcast all keep the invariant. */
  lemma StepKeepsInv(s: Gate, e: Event)
    requires Inv(s) && Enabled(s, e)
    ensures Inv(Apply(s, e))
  {
    match e
    case Advance(t, busy, chosen) => AdvanceKeepsInv(s, t, busy, chosen);
    case Begin(t, k) => BeginKeepsInv(s, t, k);
    case Spurious(t) => SpuriousKeepsInv(s, t);
    case SetTerm =>
    case Broadcast => BroadcastKeepsInv(s);
  }

  // ---------------------------------------------------------------- runs

  ghost predicate Next(s: Gate, s': Gate) {
    exists e: Event :: Enabled(s, e) && s' == Apply(s, e)
  }

  ghost predicate IsRun(run: seq<Gate>) {
    && |run| > 0 && Init(run[0])
    && forall i :: 0 <= i < |run| - 1 ==> Next(run[i], run[i + 1])
  }

  lemma EventAt(run: seq<Gate>, i: nat) returns (e: Event)
    requires IsRun(run) && i + 1 < |run|
    ensures Enabled(run[i], e) && run[i + 1] == Apply(run[i], e)
  {
    assert Next(run[i], run[i + 1]);
    e :| Enabled(run[i], e) && run[i + 1] == Apply(run[i], e);
  }

  lemma {:induction false} RunInv(run: seq<Gate>, i: nat)
    requires IsRun(run) && i < |run|
    ensures Inv(run[i])
  {
    if i == 0 {
      InitInv(run[0]);
    } else {
      RunInv(run, i - 1);
      var e := EventAt(run, i - 1);
      StepKeepsInv(run[i - 1], e);
    }
  }

  /** In every state of every run the gate variable names exactly who is in the database, and a
      writer is there alone. */
  lemma ExactGate(run: seq<Gate>, i: nat)
    requires IsRun(run) && i < |run|
    ensures var s := run[i];
      && (s.op == Writing <==> |Writers(s.pcs)| == 1)
      && (s.op == Reading <==> s.readers > 0)
      && s.readers == |Readers(s.pcs)|
      && (s.op == Noop <==> Readers(s.pcs) == {} && Writers(s.pcs) == {})
      && forall t, u :: 0 <= t < |s.pcs| && 0 <= u < |s.pcs| && t != u && InWrite(s.pcs[t]) ==>
           !InWrite(s.pcs[u]) && !InRead(s.pcs[u])
  {
    RunInv(run, i);
    var s := run[i];
    forall t, u | 0 <= t < |s.pcs| && 0 <= u < |s.pcs| && t != u && InWrite(s.pcs[t])
      ensures !InWrite(s.pcs[u]) && !InRead(s.pcs[u])
    {
      assert t in Writers(s.pcs);
      NoReaderWhileWriting(s);
      assert u !in Readers(s.pcs);
      assert |Writers(s.pcs) - {t}| == 0;
      assert Writers(s.pcs) - {t} == {};
      assert u !in Writers(s.pcs) - {t};
    }
  }

  /** The second, separate read of the flag never meets a gate the thread may not pass: a
      thread about to enter finds the gate open to its request, so the read branch always
      takes one of its two cases and no call returns with the mutex locked. */
  lemma EntryIsSound(run: seq<Gate>, i: nat, t: nat)
    requires IsRun(run) && i < |run| && t < |run[i].pcs|
    ensures run[i].pcs[t].Entering? && run[i].pcs[t].k.Read? ==> run[i].op != Writing
    ensures run[i].pcs[t].Entering? && run[i].pcs[t].k.Write? ==> run[i].op == Noop
    ensures run[i].holder == Some(t) ==> !run[i].pcs[t].Out?
  {
    RunInv(run, i);
  }

  /** No wakeup is lost: sleepers on an idle gate have a thread due to test it, and while the
      gate is open for reading only writers sleep, so one signal is enough. */
  lemma NoLostWakeup(run: seq<Gate>, i: nat, w: nat)
    requires IsRun(run) && i < |run| && w < |run[i].pcs| && run[i].pcs[w].Waiting?
    ensures run[i].op == Noop ==> exists t :: 0 <= t < |run[i].pcs| && Due(run[i].pcs[t])
    ensures run[i].op == Reading ==> run[i].pcs[w].k.Write?
  {
    RunInv(run, i);
  }

  // ---------------------------------------------------------------- progress

  /** If any call is in progress, some thread can take a step that is not a spurious wakeup. */
  lemma SomeThreadCanAdvance(s: Gate, w: nat) returns (t: nat)
    requires Inv(s) && w < |s.pcs| && !s.pcs[w].Out?
    ensures CanAdvance(s, t) && Enabled(s, Advance(t, false, WaitSet(s.pcs)))
  {
    if s.holder.Some? {
      t := s.holder.value;
    } else if !s.pcs[w].Waiting? {
      t := w;
    } else if s.op == Noop {
      t :| 0 <= t < |s.pcs| && Due(s.pcs[t]);
    } else {
      var inside := Readers(s.pcs) + Writers(s.pcs);
      assert inside != {};
      t :| t in inside;
    }
  }

  /** How much of a call is left once the flag is set. */
  function Rank(pc: Pc): nat {
    if pc.Out? then 0 else
      (if pc.k == Write(false) then 10 else 0) +
      match pc
      case Bailing(_) => 1
      case AtRelock(_, _) => 1
      case InDb(_) => 2
      case Entering(_) => 3
      case Rechecking(_) => 4
      case Testing(_) => 5
      case Woken(_) => 6
      case AtLock(_) => 6
      case Waiting(_) => 7
      case ToWait(_) => 8
  }

  /** After the flag is set every step inside the gate, even a spurious wakeup, shortens what
      is left of the stepping thread's call and lengthens nobody's. */
  lemma RankFalls(s: Gate, e: Event)
    requires Enabled(s, e) && s.term && (e.Advance? || e.Spurious?)
    ensures Rank(Apply(s, e).pcs[e.t]) < Rank(s.pcs[e.t])
    ensures forall u :: 0 <= u < |s.pcs| ==> Rank(Apply(s, e).pcs[u]) <= Rank(s.pcs[u])
  {
    var s' := Apply(s, e);
    forall u | 0 <= u < |s.pcs| && u != e.t
      ensures s'.pcs[u] == s.pcs[u] || (s.pcs[u].Waiting? && s'.pcs[u] == Woken(s.pcs[u].k))
    {
    }
  }
}
