/**
 `queue_push`, `queue_pop` and `queue_free` as they stand in the source, over the shared queue.

 As in ExecQuery, the other threads act at every point where the code can be interrupted, as an
 arbitrary `schedule` says. Whatever the schedule, the queue only ever goes through a run of
 JobQueue.
 */
module BlockingQueue {
  import opened Prelude
  import opened Jobs
  import opened JobQueue

  /** Who is running: one of the popping threads, a pusher, or the thread in `queue_free`. */
  datatype Who = Popper(t: nat) | Pusher | Freer

  datatype Result = Popped(job: Job) | Termination | Stuck

  predicate Own(e: Event, who: Who) {
    match e
    case Push(_, _) => false
    case Free => who == Freer
    case _ => who == Popper(e.t)
  }

  /** What the others leave alone while `who` is interrupted. */
  predicate Spared(s: Queue, s': Queue, who: Who) {
    && |s'.pcs| == |s.pcs| && (s.term ==> s'.term)
    && match who
       case Pusher => true
       case Freer => s'.freer == s.freer && s'.isFree == s.isFree && s'.returned == s.returned
       case Popper(t) =>
         && t < |s.pcs| && (s'.pcs[t] == s.pcs[t] || (s.pcs[t].Waiting? && s'.pcs[t].Woken?))
         && (s.holder == Some(t) ==> s'.holder == s.holder && s'.jobs == s.jobs && s'.removed == s.removed)
  }

  predicate Exists(s: Queue, who: Who) {
    who.Popper? ==> who.t < |s.pcs|
  }

  lemma OthersSpare(s: Queue, e: Event, who: Who)
    requires MutexInv(s) && Enabled(s, e) && Exists(s, who) && !Own(e, who)
    ensures Spared(s, Apply(s, e), who)
  {
  }

  lemma SparedTwice(a: Queue, b: Queue, c: Queue, who: Who)
    requires Spared(a, b, who) && Spared(b, c, who)
    ensures Spared(a, c, who)
  {
  }

  lemma Extends(run: seq<Queue>, e: Event, s: Queue)
    requires IsRun(run) && Enabled(run[|run| - 1], e) && s == Apply(run[|run| - 1], e)
    ensures IsRun(run + [s])
  {
    assert Next(run[|run| - 1], s);
  }

  lemma MutexHolds(run: seq<Queue>)
    requires IsRun(run)
    ensures MutexInv(run[|run| - 1])
  {
    RunInv(run, |run| - 1);
  }

  lemma SomethingToTake(run: seq<Queue>, t: nat)
    requires IsRun(run) && t < |run[|run| - 1].pcs| && run[|run| - 1].pcs[t].Taking?
    ensures run[|run| - 1].jobs != []
  {
    RunInv(run, |run| - 1);
  }

  lemma NobodySleeps(run: seq<Queue>)
    requires IsRun(run) && run[|run| - 1].returned
    ensures var last := run[|run| - 1];
      forall t :: 0 <= t < |last.pcs| ==> !last.pcs[t].Waiting? && !last.pcs[t].ToWait? && !last.pcs[t].Taking?
  {
    RunInv(run, |run| - 1);
  }

  class SharedQueue {
    var jobs: seq<Job>
    var mustTerminate: bool
    var isFree: bool
    var holder: Option<nat>
    var pcs: seq<Pc>
    var freer: FreePc
    var returned: bool
    var pushed: seq<Job>
    var removed: seq<Job>
    var schedule: seq<seq<Event>>
    ghost var trace: seq<Queue>

    function View(): Queue
      reads this
    {
      Queue(jobs, mustTerminate, isFree, holder, pcs, freer, returned, pushed, removed)
    }

    ghost predicate Valid()
      reads this
    {
      IsRun(trace) && trace[|trace| - 1] == View()
    }

    constructor (poppers: nat, schedule: seq<seq<Event>>)
      ensures Valid() && Init(View()) && |pcs| == poppers && this.schedule == schedule
    {
      jobs, mustTerminate, isFree, holder := [], false, false, None;
      freer, returned, pushed, removed := FIdle, false, [], [];
      pcs := seq(poppers, _ => Idle);
      this.schedule := schedule;
      new;
      trace := [View()];
    }

    ghost method Record(e: Event)
      requires IsRun(trace) && Enabled(trace[|trace| - 1], e) && View() == Apply(trace[|trace| - 1], e)
      modifies this`trace
      ensures Valid() && trace == old(trace) + [View()]
    {
      Extends(trace, e, View());
      trace := trace + [View()];
    }

    method OtherStep(e: Event, who: Who)
      requires Valid() && Enabled(View(), e) && Exists(View(), who) && !Own(e, who)
      modifies this
      ensures Valid() && old(trace) <= trace && schedule == old(schedule)
      ensures Spared(old(View()), View(), who)
    {
      MutexHolds(trace);
      OthersSpare(View(), e, who);
      Become(Apply(View(), e));
      Record(e);
    }

    method Become(after: Queue)
      modifies this
      ensures View() == after && schedule == old(schedule) && trace == old(trace)
    {
      jobs, mustTerminate, isFree, holder, pcs := after.jobs, after.term, after.isFree, after.holder, after.pcs;
      freer, returned, pushed, removed := after.freer, after.returned, after.pushed, after.removed;
    }

    method Yield(who: Who)
      requires Valid() && Exists(View(), who)
      modifies this
      ensures Valid() && old(trace) <= trace
      ensures Spared(old(View()), View(), who)
      ensures |schedule| == if old(schedule) == [] then 0 else old(|schedule|) - 1
    {
      if schedule == [] {
        return;
      }
      var burst := schedule[0];
      schedule := schedule[1..];
      for i := 0 to |burst|
        invariant Valid() && old(trace) <= trace && schedule == old(schedule)[1..]
        invariant Spared(old(View()), View(), who)
      {
        if !Own(burst[i], who) && Enabled(View(), burst[i]) {
          ghost var before := View();
          OtherStep(burst[i], who);
          SparedTwice(old(View()), before, View(), who);
        }
      }
    }

    method AwaitMutex(who: Who) returns (ok: bool)
      requires Valid() && Exists(View(), who)
      requires who.Popper? ==> !pcs[who.t].Waiting? && holder != Some(who.t)
      modifies this
      ensures Valid() && old(trace) <= trace && |pcs| == old(|pcs|) && |schedule| <= old(|schedule|)
      ensures Spared(old(View()), View(), who) && (if ok then holder == None else schedule == [])
    {
      while holder != None
        invariant Valid() && old(trace) <= trace && |schedule| <= old(|schedule|)
        invariant Spared(old(View()), View(), who)
        decreases |schedule|
      {
        if schedule == [] {
          return false;
        }
        ghost var before := View();
        Yield(who);
        SparedTwice(old(View()), before, View(), who);
      }
      return true;
    }

    // -------------------------------------------------------------- push

    method PickWaiter() returns (chosen: set<nat>)
      ensures SignalChoice(pcs, chosen)
    {
      chosen := {};
      var waiters := WaitSet(pcs);
      if waiters != {} {
        var w :| w in waiters;
        chosen := {w};
      }
    }

    method QueuePush(job: Job) returns (ok: bool)
      requires Valid()
      modifies this
      ensures Valid() && old(trace) <= trace
      ensures if ok then
                && jobs != [] && jobs[|jobs| - 1] == job
                && pushed != [] && pushed[|pushed| - 1] == job
              else schedule == []
    {
      ok := AwaitMutex(Pusher);
      if !ok {
        return;
      }
      jobs := jobs + [job];
      pushed := pushed + [job];
      var chosen := PickWaiter();
      pcs := Wake(pcs, chosen);
      Record(Push(job, chosen));
    }

    // -------------------------------------------------------------- pop

    method LockMutex(t: nat) returns (ok: bool)
      requires Valid() && t < |pcs| && (pcs[t].AtLock? || pcs[t].Woken?) && holder != Some(t)
      modifies this
      ensures Valid() && old(trace) <= trace && t < |pcs| && |schedule| <= old(|schedule|)
      ensures if ok then pcs[t].Testing? && holder == Some(t) else schedule == []
    {
      ok := AwaitMutex(Popper(t));
      if ok {
        holder := Some(t);
        pcs := pcs[t := Testing];
        Record(Advance(t));
      }
    }

    method EvaluateCondition(t: nat) returns (mustWait: bool)
      requires Valid() && t < |pcs| && pcs[t].Testing? && holder == Some(t)
      modifies this
      ensures Valid() && old(trace) <= trace && t < |pcs| && |schedule| <= old(|schedule|)
      ensures holder == Some(t) && pcs[t] == if mustWait then ToWait else Rechecking
    {
      Yield(Popper(t));
      mustWait := jobs == [] && !mustTerminate;
      pcs := pcs[t := if mustWait then ToWait else Rechecking];
      Record(Advance(t));
    }

    method CondWait(t: nat) returns (ok: bool)
      requires Valid() && t < |pcs| && pcs[t].ToWait? && holder == Some(t)
      modifies this
      ensures Valid() && old(trace) <= trace && t < |pcs|
      ensures if ok then pcs[t].Testing? && holder == Some(t) && |schedule| < old(|schedule|) else schedule == []
    {
      holder := None;
      pcs := pcs[t := Waiting];
      Record(Advance(t));
      while pcs[t].Waiting?
        invariant Valid() && old(trace) <= trace && t < |pcs| && |schedule| <= old(|schedule|)
        invariant pcs[t].Waiting? || (pcs[t].Woken? && |schedule| < old(|schedule|))
        decreases |schedule|
      {
        if schedule == [] {
          return false;
        }
        Yield(Popper(t));
      }
      NotHolding(trace, t);
      ok := LockMutex(t);
    }

    /** Lock, wait loop, flag, head of the queue. */
    method QueuePop(t: nat) returns (r: Result)
      requires Valid() && t < |pcs| && pcs[t].Idle?
      modifies this
      ensures Valid() && old(trace) <= trace && t < |pcs|
      ensures match r
              case Popped(job) => pcs[t] == Returned(job)
              case Termination => pcs[t].Terminated? && mustTerminate
              case Stuck => schedule == []
    {
      pcs := pcs[t := CheckFlag];
      Record(StartPop(t));
      Yield(Popper(t));
      if mustTerminate {
        pcs := pcs[t := Terminated];
        Record(Advance(t));
        return Termination;
      }
      pcs := pcs[t := AtLock];
      Record(Advance(t));
      NotHolding(trace, t);
      r := PopLocked(t);
    }

    method PopLocked(t: nat) returns (r: Result)
      requires Valid() && t < |pcs| && pcs[t].AtLock? && holder != Some(t)
      modifies this
      ensures Valid() && old(trace) <= trace && t < |pcs|
      ensures match r
              case Popped(job) => pcs[t] == Returned(job)
              case Termination => pcs[t].Terminated? && mustTerminate
              case Stuck => schedule == []
    {
      var ok := LockMutex(t);
      if !ok {
        return Stuck;
      }
      var mustWait := EvaluateCondition(t);
      while mustWait
        invariant Valid() && old(trace) <= trace && t < |pcs|
        invariant holder == Some(t) && pcs[t] == if mustWait then ToWait else Rechecking
        decreases |schedule|, mustWait
      {
        ok := CondWait(t);
        if !ok {
          return Stuck;
        }
        mustWait := EvaluateCondition(t);
      }
      r := TakeOrTerminate(t);
    }

    method TakeOrTerminate(t: nat) returns (r: Result)
      requires Valid() && t < |pcs| && pcs[t].Rechecking? && holder == Some(t)
      modifies this
      ensures Valid() && old(trace) <= trace && t < |pcs|
      ensures match r
              case Popped(job) => pcs[t] == Returned(job)
              case Termination => pcs[t].Terminated? && mustTerminate
              case Stuck => false
    {
      Yield(Popper(t));
      if mustTerminate {
        holder := None;
        pcs := pcs[t := Terminated];
        Record(Advance(t));
        return Termination;
      }
      pcs := pcs[t := Taking];
      Record(Advance(t));
      var job := TakeHead(t);
      return Popped(job);
    }

    method TakeHead(t: nat) returns (job: Job)
      requires Valid() && t < |pcs| && pcs[t].Taking? && holder == Some(t)
      modifies this
      ensures Valid() && old(trace) <= trace && t < |pcs| && pcs[t] == Returned(job)
      ensures old(jobs) != [] && job == old(jobs)[0]
    {
      Yield(Popper(t));
      SomethingToTake(trace, t);
      job := jobs[0];
      jobs := jobs[1..];
      removed := removed + [job];
      holder := None;
      pcs := pcs[t := Returned(job)];
      Record(Advance(t));
    }

    // -------------------------------------------------------------- shutdown

    /** The flag and the broadcasts are outside the mutex, the drain is inside. */
    method QueueFree() returns (ok: bool)
      requires Valid() && freer == FIdle
      modifies this
      ensures Valid() && old(trace) <= trace
      ensures if ok then
                && returned && mustTerminate && freer == FIdle
                && forall t :: 0 <= t < |pcs| ==> !pcs[t].Waiting? && !pcs[t].ToWait? && !pcs[t].Taking?
              else schedule == []
    {
      RaiseFlag();
      ok := DrainUnlessFree();
      if ok {
        LastBroadcast();
      }
    }

    method RaiseFlag()
      requires Valid() && freer == FIdle
      modifies this
      ensures Valid() && old(trace) <= trace && freer == FTest && mustTerminate
    {
      mustTerminate := true;
      freer := FFlagged;
      Record(Free);
      Yield(Freer);
      pcs := Wake(pcs, WaitSet(pcs));
      freer := FTest;
      Record(Free);
    }

    method LastBroadcast()
      requires Valid() && freer == FLast && mustTerminate
      modifies this
      ensures Valid() && old(trace) <= trace && returned && mustTerminate && freer == FIdle
      ensures forall t :: 0 <= t < |pcs| ==> !pcs[t].Waiting? && !pcs[t].ToWait? && !pcs[t].Taking?
    {
      Yield(Freer);
      pcs := Wake(pcs, WaitSet(pcs));
      freer := FIdle;
      returned := true;
      Record(Free);
      NobodySleeps(trace);
    }

    method DrainUnlessFree() returns (ok: bool)
      requires Valid() && freer == FTest && mustTerminate
      modifies this
      ensures Valid() && old(trace) <= trace
      ensures if ok then freer == FLast && mustTerminate else schedule == []
    {
      Yield(Freer);
      if isFree {
        freer := FLast;
        Record(Free);
        return true;
      }
      freer := FDrain;
      Record(Free);
      ok := AwaitMutex(Freer);
      if ok {
        Drain();
        MarkFree();
      }
    }

    method MarkFree()
      requires Valid() && freer == FMark && mustTerminate
      modifies this
      ensures Valid() && old(trace) <= trace && freer == FLast && mustTerminate
    {
      Yield(Freer);
      isFree := true;
      freer := FLast;
      Record(Free);
    }

    /** The drain loop: every message left in the queue is released, in queue order. */
    method Drain()
      requires Valid() && freer == FDrain && holder == None
      modifies this
      ensures Valid() && old(trace) <= trace && freer == FMark && mustTerminate == old(mustTerminate)
      ensures jobs == [] && removed == old(removed) + old(jobs)
    {
      while jobs != []
        invariant removed + jobs == old(removed) + old(jobs)
        invariant View() == old(View()).(jobs := jobs, removed := removed)
        invariant trace == old(trace)
      {
        var job := jobs[0];
        jobs := jobs[1..];
        removed := removed + [job];
      }
      assert removed + [] == removed;
      freer := FMark;
      Record(Free);
    }
  }

  lemma NotHolding(run: seq<Queue>, t: nat)
    requires IsRun(run) && t < |run[|run| - 1].pcs| && !Holding(run[|run| - 1].pcs[t])
    ensures run[|run| - 1].holder != Some(t)
  {
    RunInv(run, |run| - 1);
  }
}
