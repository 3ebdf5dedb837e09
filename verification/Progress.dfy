/**
 The running server never gets stuck: in every state of every run in which some slave has something to
 do, some slave can take a step. Nothing is taken for granted of the shutdown here.
 */
module Progress {
  import opened Prelude
  import opened Jobs
  import opened Server
  import opened ServerSafety
  import opened ServerShutdown
  import opened ServerTheorems
  import Q = JobQueue

  /** Slave w is serving a request or on its way to one: it has not exited, and it does not sleep on an
      empty queue, nor on one that is being shut down. */
  predicate HasSomethingToDo(s: State, w: nat)
    requires SameSize(s)
  {
    && w < |s.slaves| && !s.slaves[w].Done?
    && (s.q.pcs[w].Waiting? ==> s.q.jobs != [] && !s.q.term)
  }

  /** The thread that holds the queue's mutex is a slave inside its pop. */
  lemma HolderCanStep(s: State)
    requires SameSize(s) && Q.MutexInv(s.q) && Q.TestInv(s.q) && Stages(s) && s.q.holder.Some?
    ensures s.q.holder.value < |s.slaves| && SlaveEnabled(s, s.q.holder.value, false, {})
  {
    var t := s.q.holder.value;
    assert StageOk(s.slaves[t], s.q.pcs[t], s.g.pcs[t], s.w.modes[t]);
  }

  lemma AwakePopperCanStep(s: State, w: nat) returns (t: nat)
    requires SameSize(s) && Q.Inv(s.q) && Stages(s) && w < |s.slaves| && s.slaves[w].Popping?
    requires !s.q.pcs[w].Waiting? && !s.q.pcs[w].Crashed?
    ensures SlaveEnabled(s, t, false, {})
  {
    if s.q.holder.Some? {
      HolderCanStep(s);
      t := s.q.holder.value;
    } else {
      t := w;
    }
  }

  /** While a message is queued, some popper is awake on its way to it. */
  lemma SleeperHasHelp(s: State, w: nat) returns (t: nat)
    requires SameSize(s) && Q.Inv(s.q) && Stages(s) && w < |s.slaves|
    requires s.q.pcs[w].Waiting? && s.q.jobs != [] && !s.q.term
    ensures SlaveEnabled(s, t, false, {})
  {
    assert w in Q.WaitSet(s.q.pcs);
    var u :| u in Q.DueSet(s.q.pcs);
    assert StageOk(s.slaves[u], s.q.pcs[u], s.g.pcs[u], s.w.modes[u]);
    t := AwakePopperCanStep(s, u);
  }

  /** A refused request can be put back as soon as the mutex is free. */
  lemma RefusedCanStep(s: State, w: nat) returns (t: nat, chosen: set<nat>)
    requires SameSize(s) && Q.Inv(s.q) && Stages(s) && w < |s.slaves| && s.slaves[w].Requeueing?
    ensures SlaveEnabled(s, t, false, chosen)
  {
    t, chosen := w, Q.WaitSet(s.q.pcs);
    if s.q.holder.Some? {
      HolderCanStep(s);
      t, chosen := s.q.holder.value, {};
    }
  }

  lemma NeverCrashed(s: State, w: nat)
    requires Q.Inv(s.q) && w < |s.q.pcs|
    ensures !s.q.pcs[w].Crashed?
  {
  }

  lemma PopperCanGoOn(s: State, w: nat) returns (t: nat)
    requires SameSize(s) && Q.Inv(s.q) && Stages(s) && HasSomethingToDo(s, w) && s.slaves[w].Popping?
    ensures SlaveEnabled(s, t, false, {})
  {
    NeverCrashed(s, w);
    if s.q.pcs[w].Waiting? {
      t := SleeperHasHelp(s, w);
    } else {
      t := AwakePopperCanStep(s, w);
    }
  }

  lemma SomebodyCanStep(s: State, w: nat) returns (t: nat, chosen: set<nat>)
    requires Inv(s) && HasSomethingToDo(s, w)
    ensures SlaveEnabled(s, t, false, chosen)
  {
    t, chosen := w, {};
    if s.slaves[w].Popping? {
      t := PopperCanGoOn(s, w);
    } else if s.slaves[w].Got? {
      assert ItemOk(Hand(s.slaves[w], s.q.pcs[w]));
    } else if s.slaves[w].Requeueing? {
      t, chosen := RefusedCanStep(s, w);
    } else if AtQuery(s, w) {
      t, chosen := QuerierCanStep(s, w);
    } else if AtSend(s, w) {
      t := SenderCanStep(s, w);
    }
  }

  /** No deadlock: in every state of every run, as long as some slave has something to do, some slave
      can take a step of its own, with no wakeup without cause. */
  lemma NoDeadlock(run: seq<State>, i: nat, w: nat) returns (t: nat, chosen: set<nat>)
    requires IsRun(run) && i < |run| && SameSize(run[i]) && HasSomethingToDo(run[i], w)
    ensures SlaveEnabled(run[i], t, false, chosen)
  {
    RunInv(run, i);
    t, chosen := SomebodyCanStep(run[i], w);
  }
}
