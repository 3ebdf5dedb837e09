/**
 `exec_query` as it stands in the source (the build without WAL), over the shared gate variables.

 The other threads act at every point where the code can be interrupted. What they do then is
 given by `schedule`, an arbitrary list of bursts of steps; steps that are not possible at that
 moment are skipped. Whatever the schedule, the gate only ever goes through a run of DbGate, so
 everything proved there about runs holds of this code.
 */
module ExecQuery {
  import opened Prelude
  import opened DbGate

  /** Stuck: the schedule ended while the call was blocked. */
  datatype Outcome = Executed(busy: bool) | Terminated | Stuck

  predicate Own(e: Event, t: nat) {
    (e.Begin? || e.Advance? || e.Spurious?) && e.t == t
  }

  predicate SameOrWoken(before: Pc, after: Pc) {
    after == before || (before.Waiting? && after == Woken(before.k))
  }

  /** What a thread that owns the mutex reads stays as it is, except for the flag. */
  predicate Spared(s: Gate, s': Gate, t: nat) {
    && |s'.pcs| == |s.pcs| && t < |s.pcs|
    && SameOrWoken(s.pcs[t], s'.pcs[t])
    && (s.holder == Some(t) ==> s'.holder == s.holder && s'.op == s.op && s'.readers == s.readers)
    && (s.term ==> s'.term)
  }

  lemma OthersSpare(s: Gate, e: Event, t: nat)
    requires MutexInv(s) && Enabled(s, e) && t < |s.pcs| && !Own(e, t)
    ensures Spared(s, Apply(s, e), t)
  {
  }

  lemma SparedTwice(a: Gate, b: Gate, c: Gate, t: nat)
    requires Spared(a, b, t) && Spared(b, c, t)
    ensures Spared(a, c, t)
  {
  }

  lemma Extends(run: seq<Gate>, e: Event, s: Gate)
    requires IsRun(run) && Enabled(run[|run| - 1], e) && s == Apply(run[|run| - 1], e)
    ensures IsRun(run + [s])
  {
    assert Next(run[|run| - 1], s);
  }

  lemma MutexHolds(run: seq<Gate>)
    requires IsRun(run)
    ensures MutexInv(run[|run| - 1])
  {
    RunInv(run, |run| - 1);
  }

  /** A reader that found the flag unset twice finds the gate open. */
  lemma OpenToReader(run: seq<Gate>, t: nat)
    requires IsRun(run) && t < |run[|run| - 1].pcs| && run[|run| - 1].pcs[t] == Entering(Read)
    ensures run[|run| - 1].op != Writing
  {
    EntryIsSound(run, |run| - 1, t);
  }

  predicate Inside(s: Gate, t: nat, k: Request) {
    t < |s.pcs| && s.pcs[t] == InDb(k)
  }

  /** How often a thread has begun to execute a SELECT, a first attempt to write, a second one. */
  datatype Tally = Tally(selects: nat, firsts: nat, seconds: nat)

  function OneMore(n: Tally, k: Request): Tally {
    match k
    case Read => n.(selects := n.selects + 1)
    case Write(retried) => if retried then n.(seconds := n.seconds + 1) else n.(firsts := n.firsts + 1)
  }

  /** The thread is inside the database after the step and was not before. */
  function Counted(n: Tally, before: Gate, after: Gate, t: nat): Tally {
    if t < |after.pcs| && after.pcs[t].InDb? && !Inside(before, t, after.pcs[t].k) then OneMore(n, after.pcs[t].k)
    else n
  }

  /** In the first n states of a run. */
  function Executions(run: seq<Gate>, n: nat, t: nat): Tally
    requires n <= |run|
  {
    if n <= 1 then Tally(0, 0, 0) else Counted(Executions(run, n - 1, t), run[n - 2], run[n - 1], t)
  }

  /** The first attempt to write, and the second. */
  function Attempts(n: Tally, count: nat): Tally {
    if count == 0 then n
    else if count == 1 then OneMore(n, Write(false))
    else OneMore(OneMore(n, Write(false)), Write(true))
  }

  lemma {:induction false} ExecutionsOfPrefix(run: seq<Gate>, run': seq<Gate>, n: nat, t: nat)
    requires run <= run' && n <= |run|
    ensures Executions(run', n, t) == Executions(run, n, t)
  {
    if n > 1 {
      ExecutionsOfPrefix(run, run', n - 1, t);
    }
  }

  lemma ExecutionsSnoc(run: seq<Gate>, s: Gate, t: nat)
    requires run != []
    ensures Executions(run + [s], |run| + 1, t) == Counted(Executions(run, |run|, t), run[|run| - 1], s, t)
  {
    ExecutionsOfPrefix(run, run + [s], |run|, t);
  }

  class QueryGate {
    var dbOp: DbOp
    var noReader: int
    var terminateQueries: bool
    var holder: Option<nat>
    var pcs: seq<Pc>
    var schedule: seq<seq<Event>>
    ghost var trace: seq<Gate>

    function View(): Gate
      reads this
    {
      Gate(dbOp, noReader, terminateQueries, holder, pcs)
    }

    ghost predicate Valid()
      reads this
    {
      IsRun(trace) && trace[|trace| - 1] == View()
    }

    /** What thread t has executed so far. */
    ghost function Done(t: nat): Tally
      reads this`trace
    {
      Executions(trace, |trace|, t)
    }

    constructor (threads: nat, schedule: seq<seq<Event>>)
      ensures Valid() && Init(View()) && |pcs| == threads && this.schedule == schedule
    {
      dbOp, noReader, terminateQueries, holder := Noop, 0, false, None;
      pcs := seq(threads, _ => Out);
      this.schedule := schedule;
      new;
      trace := [View()];
    }

    /** The gate has just made the step e, by which thread t does not enter the database. */
    ghost method Record(e: Event, t: nat)
      requires IsRun(trace) && Enabled(trace[|trace| - 1], e) && View() == Apply(trace[|trace| - 1], e)
      requires t < |pcs| && t < |trace[|trace| - 1].pcs| && (pcs[t].InDb? ==> pcs[t] == trace[|trace| - 1].pcs[t])
      modifies this`trace
      ensures Valid() && old(trace) < trace && Done(t) == old(Done(t))
    {
      Extends(trace, e, View());
      ExecutionsSnoc(trace, View(), t);
      trace := trace + [View()];
    }

    /** The gate has just made the step e, by which thread t begins to execute its statement. */
    ghost method RecordEntry(e: Event, t: nat, k: Request)
      requires IsRun(trace) && Enabled(trace[|trace| - 1], e) && View() == Apply(trace[|trace| - 1], e)
      requires t < |pcs| && pcs[t] == InDb(k) && !Inside(trace[|trace| - 1], t, k)
      modifies this`trace
      ensures Valid() && old(trace) < trace && Done(t) == OneMore(old(Done(t)), k)
    {
      Extends(trace, e, View());
      ExecutionsSnoc(trace, View(), t);
      trace := trace + [View()];
    }

    /** A step that only moves thread t on in its own code. */
    method GoTo(t: nat, next: Pc, busy: bool)
      requires Valid() && CanAdvance(View(), t) && !LastReaderLeaves(View(), t) && !next.InDb?
      requires Step(View(), t, busy, {}) == View().(pcs := pcs[t := next])
      modifies this`pcs, this`trace
      ensures Valid() && old(trace) < trace && Done(t) == old(Done(t))
      ensures pcs == old(pcs)[t := next]
    {
      pcs := pcs[t := next];
      Record(Advance(t, busy, {}), t);
    }

    method OtherStep(e: Event, t: nat)
      requires Valid() && Enabled(View(), e) && t < |pcs| && !Own(e, t)
      modifies this
      ensures Valid() && old(trace) <= trace && Done(t) == old(Done(t)) && schedule == old(schedule)
      ensures Spared(old(View()), View(), t)
    {
      MutexHolds(trace);
      OthersSpare(View(), e, t);
      var after := Apply(View(), e);
      dbOp, noReader, terminateQueries, holder, pcs := after.op, after.readers, after.term, after.holder, after.pcs;
      Record(e, t);
    }

    /** The next burst of the others. */
    method Yield(t: nat)
      requires Valid() && t < |pcs|
      modifies this
      ensures Valid() && old(trace) <= trace && Done(t) == old(Done(t))
      ensures Spared(old(View()), View(), t)
      ensures |schedule| == if old(schedule) == [] then 0 else old(|schedule|) - 1
    {
      if schedule == [] {
        return;
      }
      var burst := schedule[0];
      schedule := schedule[1..];
      for i := 0 to |burst|
        invariant Valid() && old(trace) <= trace && Done(t) == old(Done(t)) && schedule == old(schedule)[1..]
        invariant Spared(old(View()), View(), t)
      {
        if !Own(burst[i], t) && Enabled(View(), burst[i]) {
          ghost var before := View();
          OtherStep(burst[i], t);
          SparedTwice(old(View()), before, View(), t);
        }
      }
    }

    /** Blocks until the mutex is free. */
    method AwaitMutex(t: nat) returns (ok: bool)
      requires Valid() && t < |pcs| && NeedsMutex(pcs[t])
      modifies this
      ensures Valid() && old(trace) <= trace && Done(t) == old(Done(t)) && t < |pcs| && pcs[t] == old(pcs[t])
      ensures |schedule| <= old(|schedule|) && (if ok then holder == None else schedule == [])
    {
      while holder != None
        invariant Valid() && old(trace) <= trace && Done(t) == old(Done(t)) && t < |pcs| && pcs[t] == old(pcs[t])
        invariant |schedule| <= old(|schedule|)
        decreases |schedule|
      {
        if schedule == [] {
          return false;
        }
        Yield(t);
      }
      return true;
    }

    /** The call begins; the others may act before it gets to its lock. */
    method Call(t: nat, k: Request)
      requires Valid() && t < |pcs| && pcs[t] == Out && (k.Write? ==> !k.retried)
      modifies this
      ensures Valid() && old(trace) <= trace && Done(t) == old(Done(t)) && t < |pcs| && pcs[t] == AtLock(k)
    {
      pcs := pcs[t := AtLock(k)];
      Record(Begin(t, k), t);
      Yield(t);
    }

    method LockMutex(t: nat, k: Request) returns (ok: bool)
      requires Valid() && t < |pcs| && (pcs[t] == AtLock(k) || pcs[t] == Woken(k))
      modifies this
      ensures Valid() && old(trace) <= trace && Done(t) == old(Done(t)) && t < |pcs| && |schedule| <= old(|schedule|)
      ensures if ok then pcs[t] == Testing(k) && holder == Some(t) else schedule == []
    {
      ok := AwaitMutex(t);
      if ok {
        TakeMutex(t, k);
      }
    }

    method TakeMutex(t: nat, k: Request)
      requires Valid() && t < |pcs| && (pcs[t] == AtLock(k) || pcs[t] == Woken(k)) && holder == None
      modifies this`holder, this`pcs, this`trace
      ensures Valid() && old(trace) <= trace && Done(t) == old(Done(t)) && t < |pcs|
      ensures pcs[t] == Testing(k) && holder == Some(t)
    {
      holder := Some(t);
      pcs := pcs[t := Testing(k)];
      Record(Advance(t, false, {}), t);
    }

    /** The condition of the wait loop: the flag, then the gate. */
    method EvaluateCondition(t: nat, k: Request) returns (mustWait: bool)
      requires Valid() && t < |pcs| && pcs[t] == Testing(k) && holder == Some(t)
      modifies this
      ensures Valid() && old(trace) <= trace && Done(t) == old(Done(t)) && t < |pcs| && |schedule| <= old(|schedule|)
      ensures holder == Some(t) && pcs[t] == if mustWait then ToWait(k) else Rechecking(k)
    {
      Yield(t);
      mustWait := !terminateQueries && if k.Read? then dbOp == Writing else dbOp != Noop;
      GoTo(t, if mustWait then ToWait(k) else Rechecking(k), false);
    }

    /** Releases the mutex, sleeps until woken, takes the mutex again. */
    method CondWait(t: nat, k: Request) returns (ok: bool)
      requires Valid() && t < |pcs| && pcs[t] == ToWait(k) && holder == Some(t)
      modifies this
      ensures Valid() && old(trace) <= trace && Done(t) == old(Done(t)) && t < |pcs|
      ensures if ok then pcs[t] == Testing(k) && holder == Some(t) && |schedule| < old(|schedule|) else schedule == []
    {
      holder := None;
      pcs := pcs[t := Waiting(k)];
      Record(Advance(t, false, {}), t);
      while pcs[t].Waiting?
        invariant Valid() && old(trace) <= trace && Done(t) == old(Done(t))
        invariant t < |pcs| && |schedule| <= old(|schedule|)
        invariant pcs[t] == Waiting(k) || pcs[t] == Woken(k)
        invariant pcs[t].Woken? ==> |schedule| < old(|schedule|)
        decreases |schedule|
      {
        if schedule == [] {
          return false;
        }
        Yield(t);
      }
      ok := LockMutex(t, k);
    }

    /** The flag again: if it is set now, the sleepers are told and the call gives up. */
    method SecondLook(t: nat, k: Request) returns (terminated: bool)
      requires Valid() && t < |pcs| && pcs[t] == Rechecking(k) && holder == Some(t)
      modifies this
      ensures Valid() && old(trace) <= trace && Done(t) == old(Done(t)) && t < |pcs| && |schedule| <= old(|schedule|)
      ensures if terminated then pcs[t] == Out && terminateQueries else pcs[t] == Entering(k) && holder == Some(t)
    {
      Yield(t);
      if terminateQueries {
        GoTo(t, Bailing(k), false);
        Bail(t, k);
        return true;
      }
      GoTo(t, Entering(k), false);
      return false;
    }

    method Bail(t: nat, k: Request)
      requires Valid() && t < |pcs| && pcs[t] == Bailing(k) && holder == Some(t) && terminateQueries
      modifies this
      ensures Valid() && old(trace) <= trace && Done(t) == old(Done(t)) && t < |pcs| && |schedule| <= old(|schedule|)
      ensures pcs[t] == Out && terminateQueries
    {
      Yield(t);
      GiveUp(t, k);
    }

    method GiveUp(t: nat, k: Request)
      requires Valid() && t < |pcs| && pcs[t] == Bailing(k)
      requires holder == Some(t)
      modifies this`holder, this`pcs, this`trace
      ensures Valid() && old(trace) <= trace && Done(t) == old(Done(t)) && t < |pcs| && pcs[t] == Out
    {
      holder := None;
      pcs := WakeAll(pcs)[t := Out];
      Record(Advance(t, false, {}), t);
    }

    /** The head of both branches: lock, wait loop, second look at the flag. */
    method EnterGate(t: nat, k: Request) returns (r: Outcome)
      requires Valid() && t < |pcs| && pcs[t] == AtLock(k)
      modifies this
      ensures Valid() && old(trace) <= trace && Done(t) == old(Done(t)) && t < |pcs| && |schedule| <= old(|schedule|)
      ensures match r
              case Executed(_) => pcs[t] == Entering(k) && holder == Some(t)
              case Terminated => pcs[t] == Out && terminateQueries
              case Stuck => schedule == []
    {
      var ok := LockMutex(t, k);
      if !ok {
        return Stuck;
      }
      var mustWait := EvaluateCondition(t, k);
      while mustWait
        invariant Valid() && old(trace) <= trace && Done(t) == old(Done(t))
        invariant t < |pcs| && |schedule| <= old(|schedule|)
        invariant holder == Some(t) && pcs[t] == if mustWait then ToWait(k) else Rechecking(k)
        decreases |schedule|, mustWait
      {
        ok := CondWait(t, k);
        if !ok {
          return Stuck;
        }
        mustWait := EvaluateCondition(t, k);
      }
      var terminated := SecondLook(t, k);
      return if terminated then Terminated else Executed(false);
    }

    /** A signal wakes one waiter, if there is one. */
    method PickWaiter() returns (chosen: set<nat>)
      ensures SignalChoice(pcs, chosen)
    {
      chosen := {};
      var waiters := WaitSet(pcs);
      if waiters != {} {
        var w :| w in waiters;
        chosen := {w};
      }
    }

    /** The statement itself, while the mutex is free; the others may do anything meanwhile. */
    method RunStatement(t: nat, k: Request, busy: bool) returns (ok: bool)
      requires Valid() && t < |pcs| && pcs[t] == InDb(k)
      modifies this
      ensures Valid() && old(trace) <= trace && Done(t) == old(Done(t)) && t < |pcs| && pcs[t] == AtRelock(k, busy)
      ensures |schedule| <= old(|schedule|) && (if ok then holder == None else schedule == [])
    {
      Yield(t);
      GoTo(t, AtRelock(k, busy), busy);
      ok := AwaitMutex(t);
    }

    /** The branch for SELECT. */
    method ExecRead(t: nat, busy: bool) returns (r: Outcome)
      requires Valid() && t < |pcs| && pcs[t] == Out
      modifies this
      ensures Valid() && old(trace) <= trace && t < |pcs|
      ensures match r
              case Executed(b) => pcs[t] == Out && b == busy && Done(t) == OneMore(old(Done(t)), Read)
              case Terminated => pcs[t] == Out && terminateQueries && Done(t) == old(Done(t))
              case Stuck => schedule == []
    {
      Call(t, Read);
      r := EnterGate(t, Read);
      if !r.Executed? {
        return;
      }
      r := ReadOnce(t, busy);
    }

    /** One of the two tests of the gate always succeeds, so the mutex is always released. */
    method ReadOnce(t: nat, busy: bool) returns (r: Outcome)
      requires Valid() && t < |pcs| && pcs[t] == Entering(Read) && holder == Some(t)
      modifies this
      ensures Valid() && old(trace) <= trace && t < |pcs|
      ensures match r
              case Executed(b) => pcs[t] == Out && b == busy && Done(t) == OneMore(old(Done(t)), Read)
              case Terminated => false
              case Stuck => schedule == []
    {
      var entered := StartRead(t);
      if entered {
        var ok := RunStatement(t, Read, busy);
        if !ok {
          return Stuck;
        }
        LeaveRead(t, busy);
      }
      return Executed(busy);
    }

    method StartRead(t: nat) returns (entered: bool)
      requires Valid() && t < |pcs| && pcs[t] == Entering(Read) && holder == Some(t)
      modifies this
      ensures Valid() && old(trace) < trace && t < |pcs|
      ensures entered && pcs[t] == InDb(Read) && Done(t) == OneMore(old(Done(t)), Read)
    {
      Yield(t);
      assert dbOp != Writing by { OpenToReader(trace, t); }
      entered := EnterAsReader(t);
    }

    method EnterAsReader(t: nat) returns (entered: bool)
      requires Valid() && t < |pcs| && pcs[t] == Entering(Read) && holder == Some(t) && dbOp != Writing
      modifies this
      ensures Valid() && old(trace) < trace && t < |pcs|
      ensures entered && pcs[t] == InDb(Read) && Done(t) == OneMore(old(Done(t)), Read)
    {
      entered := false;
      if dbOp == Noop {
        dbOp := Reading;
      }
      if dbOp == Reading {
        noReader := noReader + 1;
        holder := None;
        pcs := pcs[t := InDb(Read)];
        RecordEntry(Advance(t, false, {}), t, Read);
        entered := true;
      }
    }

    method LeaveRead(t: nat, busy: bool)
      requires Valid() && t < |pcs| && pcs[t] == AtRelock(Read, busy) && holder == None
      modifies this
      ensures Valid() && old(trace) <= trace && Done(t) == old(Done(t)) && t < |pcs| && pcs[t] == Out
    {
      noReader := noReader - 1;
      var chosen := {};
      if noReader == 0 {
        dbOp := Noop;
        chosen := PickWaiter();
        pcs := Wake(pcs, chosen);
      }
      pcs := pcs[t := Out];
      Record(Advance(t, false, chosen), t);
    }

    /** The branch for statements that write: a busy database is tried once more. `busy` says how
        the first and the second attempt end. */
    method ExecWrite(t: nat, busy: (bool, bool)) returns (r: Outcome)
      requires Valid() && t < |pcs| && pcs[t] == Out
      modifies this
      ensures Valid() && old(trace) <= trace && t < |pcs|
      ensures match r
              case Executed(b) =>
                && pcs[t] == Out && b == (busy.0 && busy.1)
                && Done(t) == Attempts(old(Done(t)), if busy.0 then 2 else 1)
              case Terminated =>
                && pcs[t] == Out && terminateQueries
                && (Done(t) == old(Done(t)) || (busy.0 && Done(t) == Attempts(old(Done(t)), 1)))
              case Stuck => schedule == []
    {
      Call(t, Write(false));
      var secondChance := false;
      while true
        invariant Valid() && old(trace) <= trace && t < |pcs| && pcs[t] == AtLock(Write(secondChance))
        invariant Done(t) == Attempts(old(Done(t)), if secondChance then 1 else 0) && (secondChance ==> busy.0)
        decreases !secondChance
      {
        r := AttemptWrite(t, secondChance, if secondChance then busy.1 else busy.0);
        if !r.Executed? {
          return;
        }
        if secondChance || !busy.0 {
          return;
        }
        secondChance := true;
      }
    }

    /** One round of the loop. After a busy first attempt the thread is back at the lock. */
    method AttemptWrite(t: nat, secondChance: bool, busy: bool) returns (r: Outcome)
      requires Valid() && t < |pcs| && pcs[t] == AtLock(Write(secondChance))
      modifies this
      ensures Valid() && old(trace) <= trace && t < |pcs|
      ensures match r
              case Executed(b) =>
                && b == busy && Done(t) == OneMore(old(Done(t)), Write(secondChance))
                && pcs[t] == if !secondChance && busy then AtLock(Write(true)) else Out
              case Terminated => pcs[t] == Out && terminateQueries && Done(t) == old(Done(t))
              case Stuck => schedule == []
    {
      r := EnterGate(t, Write(secondChance));
      if !r.Executed? {
        return;
      }
      StartWrite(t, secondChance);
      var ok := RunStatement(t, Write(secondChance), busy);
      if !ok {
        return Stuck;
      }
      LeaveWrite(t, secondChance, busy);
      return Executed(busy);
    }

    method StartWrite(t: nat, secondChance: bool)
      requires Valid() && t < |pcs| && pcs[t] == Entering(Write(secondChance)) && holder == Some(t)
      modifies this
      ensures Valid() && old(trace) < trace && t < |pcs| && pcs[t] == InDb(Write(secondChance))
      ensures Done(t) == OneMore(old(Done(t)), Write(secondChance))
    {
      Yield(t);
      EnterAsWriter(t, secondChance);
    }

    method EnterAsWriter(t: nat, secondChance: bool)
      requires Valid() && t < |pcs| && pcs[t] == Entering(Write(secondChance)) && holder == Some(t)
      modifies this`dbOp, this`holder, this`pcs, this`trace
      ensures Valid() && old(trace) < trace && t < |pcs| && pcs[t] == InDb(Write(secondChance))
      ensures Done(t) == OneMore(old(Done(t)), Write(secondChance))
    {
      dbOp := Writing;
      holder := None;
      pcs := pcs[t := InDb(Write(secondChance))];
      RecordEntry(Advance(t, false, {}), t, Write(secondChance));
    }

    method LeaveWrite(t: nat, secondChance: bool, busy: bool)
      requires Valid() && t < |pcs| && pcs[t] == AtRelock(Write(secondChance), busy) && holder == None
      modifies this
      ensures Valid() && old(trace) <= trace && Done(t) == old(Done(t)) && t < |pcs|
      ensures pcs[t] == if !secondChance && busy then AtLock(Write(true)) else Out
    {
      dbOp := Noop;
      pcs := WakeAll(pcs)[t := if !secondChance && busy then AtLock(Write(true)) else Out];
      Record(Advance(t, false, {}), t);
    }

    /** `terminate_db`, by a thread that is not in a statement: the flag, and later the broadcast,
        neither under the mutex. */
    method TerminateDb(t: nat)
      requires Valid() && t < |pcs| && pcs[t] == Out
      modifies this
      ensures Valid() && old(trace) <= trace && Done(t) == old(Done(t)) && t < |pcs| && pcs[t] == Out
      ensures terminateQueries && forall u :: 0 <= u < |pcs| ==> !pcs[u].Waiting?
    {
      terminateQueries := true;
      Record(SetTerm, t);
      Yield(t);
      WakeEverybody(t);
    }

    method WakeEverybody(t: nat)
      requires Valid() && t < |pcs| && pcs[t] == Out
      modifies this`pcs, this`trace
      ensures Valid() && old(trace) <= trace && Done(t) == old(Done(t)) && t < |pcs| && pcs[t] == Out
      ensures forall u :: 0 <= u < |pcs| ==> !pcs[u].Waiting?
    {
      assert forall u :: 0 <= u < |pcs| && pcs[u].Waiting? ==> u in WaitSet(pcs);
      pcs := WakeAll(pcs);
      Record(Broadcast, t);
    }
  }
}
