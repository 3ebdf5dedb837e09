/**
 Shutdown makes progress. Once `stop_core` has freed the queue and terminated the database, as
 long as some slave has not exited some slave can step, and every step of a slave lowers a
 natural measure; a wakeup without cause raises it by at most one. Statements and socket calls
 are assumed to return.
 */
module ServerShutdown {
  import opened Prelude
  import opened Jobs
  import opened Tokens
  import opened Server
  import opened ServerSafety
  import opened ServerTheorems
  import Q = JobQueue
  import G = DbGate
  import W = WriteLock

  /** The core has run `queue_free` and `terminate_db` and is joining the slaves. */
  predicate ShutDown(s: State) {
    s.core.Joining?
  }

  /** What an act costs before it is begun, in a pool of n slaves. */
  function ActCost(a: Act, n: nat): nat {
    match a
    case Query(_) => 20
    case Send(_) => n + 5
    case Close => 1
  }

  function PlanCost(rest: seq<Act>, n: nat): nat {
    if rest == [] then 0 else ActCost(rest[0], n) + PlanCost(rest[1..], n)
  }

  /** What the current act still costs, begun or not. */
  function CurrentCost(a: Act, g: G.Pc, w: W.Mode, n: nat): nat {
    if a.Query? && !g.Out? then G.Rank(g)
    else if a.Send? && !w.Free? then W.Rank(w, n)
    else ActCost(a, n)
  }

  function PopCost(q: Q.Pc, n: nat): nat {
    match q
    case Idle => 8
    case Returned(job) => 13 + PlanCost(job.plan, n)
    case Terminated => 1
    case _ => 2 + Q.Rank(q)
  }

  function Cost(slave: Slave, q: Q.Pc, g: G.Pc, w: W.Mode, n: nat): nat {
    match slave
    case Popping => PopCost(q, n)
    case Got(job) => 12 + PlanCost(job.plan, n)
    case Requeueing(_) => 9
    case Serving(_, rest) =>
      10 + if rest == [] then 0 else CurrentCost(rest[0], g, w, n) + PlanCost(rest[1..], n)
    case Freeing(_) => 9
    case Done => 0
  }

  function Costs(s: State): (r: seq<nat>)
    requires SameSize(s)
    ensures |r| == |s.slaves|
    ensures forall t :: 0 <= t < |r| ==>
      r[t] == Cost(s.slaves[t], s.q.pcs[t], s.g.pcs[t], s.w.modes[t], |s.slaves|)
  {
    seq(|s.slaves|, t requires 0 <= t < |s.slaves| =>
      Cost(s.slaves[t], s.q.pcs[t], s.g.pcs[t], s.w.modes[t], |s.slaves|))
  }

  /** The work left in the whole server. */
  function Work(s: State): nat
    requires SameSize(s)
  {
    Sum(Costs(s))
  }

  /** Slave t's cost falls by more than `slack` per slave, the others' rises by at most `slack`. */
  predicate Pays(s: State, s': State, t: nat, slack: nat)
    requires SameSize(s) && SameSize(s') && |s'.slaves| == |s.slaves| && t < |s.slaves|
  {
    && Costs(s')[t] + slack * |s.slaves| < Costs(s)[t]
    && forall u :: 0 <= u < |s.slaves| && u != t ==> Costs(s')[u] <= Costs(s)[u] + slack
  }

  lemma PaysLowersWork(s: State, s': State, t: nat, slack: nat)
    requires SameSize(s) && SameSize(s') && |s'.slaves| == |s.slaves| && t < |s.slaves|
    requires Pays(s, s', t, slack)
    ensures Work(s') < Work(s)
  {
    SumFalls(Costs(s), Costs(s'), t, slack);
  }

  lemma PopPays(s: State, t: nat)
    requires SameSize(s) && Q.Inv(s.q) && s.q.returned && Stages(s)
    requires t < |s.slaves| && s.slaves[t].Popping? && PopEnabled(s, t)
    ensures SameSize(PopMove(s, t)) && Pays(s, PopMove(s, t), t, 0)
  {
    assert StageOk(s.slaves[t], s.q.pcs[t], s.g.pcs[t], s.w.modes[t]);
    if Q.CanAdvance(s.q, t) {
      Q.RankFalls(s.q, t);
    }
  }

  lemma AdmitPays(s: State, t: nat)
    requires SameSize(s) && Stages(s) && t < |s.slaves| && s.slaves[t].Got? && AdmitEnabled(s, t)
    ensures SameSize(AdmitMove(s, t)) && Pays(s, AdmitMove(s, t), t, 0)
  {
    assert StageOk(s.slaves[t], s.q.pcs[t], s.g.pcs[t], s.w.modes[t]);
  }

  lemma PushBackPays(s: State, t: nat, chosen: set<nat>)
    requires SameSize(s) && Q.Inv(s.q) && s.q.returned && Stages(s) && t < |s.slaves| && s.slaves[t].Requeueing?
    requires Q.Enabled(s.q, Q.Push(s.slaves[t].job, chosen))
    ensures SameSize(PushBackMove(s, t, chosen)) && Pays(s, PushBackMove(s, t, chosen), t, 0)
  {
    assert StageOk(s.slaves[t], s.q.pcs[t], s.g.pcs[t], s.w.modes[t]);
  }

  lemma QueryPays(s: State, t: nat, busy: bool, chosen: set<nat>)
    requires SameSize(s) && s.g.term && Stages(s) && t < |s.slaves| && AtQuery(s, t)
    requires G.Enabled(s.g, QueryEvent(s, t, busy, chosen))
    ensures SameSize(QueryMove(s, t, busy, chosen)) && Pays(s, QueryMove(s, t, busy, chosen), t, 0)
  {
    var s' := QueryMove(s, t, busy, chosen);
    var e := QueryEvent(s, t, busy, chosen);
    assert StageOk(s.slaves[t], s.q.pcs[t], s.g.pcs[t], s.w.modes[t]);
    if e.Advance? {
      G.RankFalls(s.g, e);
    }
    forall u | 0 <= u < |s.slaves| && u != t ensures Costs(s')[u] <= Costs(s)[u] {
      assert StageOk(s.slaves[u], s.q.pcs[u], s.g.pcs[u], s.w.modes[u]);
      GateOthersStay(s.g, e, u);
    }
    QueryOwnCost(s, t, busy, chosen);
  }

  lemma QueryOwnCost(s: State, t: nat, busy: bool, chosen: set<nat>)
    requires SameSize(s) && s.g.term && Stages(s) && t < |s.slaves| && AtQuery(s, t)
    requires G.Enabled(s.g, QueryEvent(s, t, busy, chosen))
    ensures SameSize(QueryMove(s, t, busy, chosen)) && Costs(QueryMove(s, t, busy, chosen))[t] < Costs(s)[t]
  {
    var s' := QueryMove(s, t, busy, chosen);
    var e := QueryEvent(s, t, busy, chosen);
    assert StageOk(s.slaves[t], s.q.pcs[t], s.g.pcs[t], s.w.modes[t]);
    if e.Advance? {
      G.RankFalls(s.g, e);
    }
    if s'.g.pcs[t].Out? {
      NextActUnbegun(s.slaves[t].rest[1..], s.w.modes[t], |s.slaves|);
    }
  }

  /** An act that has not been begun costs its full price, so a finished act leaves exactly the
      price of the rest of the plan. */
  lemma NextActUnbegun(rest: seq<Act>, w: W.Mode, n: nat)
    requires w.Free?
    ensures PlanCost(rest, n) ==
      if rest == [] then 0 else CurrentCost(rest[0], G.Out, w, n) + PlanCost(rest[1..], n)
  {
  }

  lemma SendPays(s: State, t: nat)
    requires SameSize(s) && Stages(s) && t < |s.slaves| && AtSend(s, t) && W.Enabled(s.w, SendEvent(s, t))
    ensures SameSize(SendMove(s, t))
    ensures Pays(s, SendMove(s, t), t, if SendEvent(s, t).Release? then 1 else 0)
  {
    var s' := SendMove(s, t);
    var e := SendEvent(s, t);
    assert StageOk(s.slaves[t], s.q.pcs[t], s.g.pcs[t], s.w.modes[t]);
    if !e.Request? {
      W.RankFalls(s.w, e);
    }
    if e.Release? {
      NextActUnbegun(s.slaves[t].rest[1..], s'.w.modes[t], |s.slaves|);
    }
    forall u | 0 <= u < |s.slaves| && u != t
      ensures Costs(s')[u] <= Costs(s)[u] + if e.Release? then 1 else 0
    {
      assert StageOk(s.slaves[u], s.q.pcs[u], s.g.pcs[u], s.w.modes[u]);
      LockOthersStay(s.w, e, u);
    }
  }

  lemma LocalPays(s: State, t: nat)
    requires SameSize(s) && Stages(s) && ItemsOk(s) && t < |s.slaves|
    requires s.slaves[t].Freeing? || AtClose(s, t) || AtEnd(s, t)
    ensures SameSize(SlaveMove(s, t, false, {})) && Pays(s, SlaveMove(s, t, false, {}), t, 0)
  {
    assert StageOk(s.slaves[t], s.q.pcs[t], s.g.pcs[t], s.w.modes[t]);
    if AtClose(s, t) {
      NextActUnbegun(s.slaves[t].rest[1..], s.w.modes[t], |s.slaves|);
    }
  }

  /** Every step of a slave after shutdown lowers the work left. */
  lemma SlaveStepLowersWork(s: State, t: nat, busy: bool, chosen: set<nat>)
    requires Inv(s) && ShutDown(s) && SlaveEnabled(s, t, busy, chosen)
    ensures SameSize(SlaveMove(s, t, busy, chosen)) && Work(SlaveMove(s, t, busy, chosen)) < Work(s)
  {
    var s' := SlaveMove(s, t, busy, chosen);
    if s.slaves[t].Popping? {
      PopPays(s, t);
      PaysLowersWork(s, s', t, 0);
    } else if s.slaves[t].Got? {
      AdmitPays(s, t);
      PaysLowersWork(s, s', t, 0);
    } else if s.slaves[t].Requeueing? {
      PushBackPays(s, t, chosen);
      PaysLowersWork(s, s', t, 0);
    } else if s.slaves[t].Serving? && AtQuery(s, t) {
      QueryPays(s, t, busy, chosen);
      PaysLowersWork(s, s', t, 0);
    } else if s.slaves[t].Serving? && AtSend(s, t) {
      SendPays(s, t);
      PaysLowersWork(s, s', t, if SendEvent(s, t).Release? then 1 else 0);
    } else {
      LocalPays(s, t);
      PaysLowersWork(s, s', t, 0);
    }
  }

  lemma RaisedByOne(c: seq<nat>, c': seq<nat>, t: nat)
    requires |c| == |c'| && t < |c| && c'[t] <= c[t] + 1
    requires forall u :: 0 <= u < |c| && u != t ==> c'[u] == c[u]
    ensures Sum(c') <= Sum(c) + 1
  {
    SumAt(c, t);
    SumAt(c', t);
    assert c'[t := 0] == c[t := 0];
  }

  lemma SpuriousCosts(s: State, t: nat)
    requires SameSize(s) && W.WellFormed(s.w) && Stages(s) && SpuriousEnabled(s, t) && !s.q.pcs[t].Waiting?
    ensures SameSize(SpuriousMove(s, t))
    ensures Costs(SpuriousMove(s, t))[t] <= Costs(s)[t] + 1
    ensures forall u :: 0 <= u < |s.slaves| && u != t ==> Costs(SpuriousMove(s, t))[u] == Costs(s)[u]
  {
    assert StageOk(s.slaves[t], s.q.pcs[t], s.g.pcs[t], s.w.modes[t]);
  }

  /** A wakeup without cause adds at most one to the work left. */
  lemma SpuriousRaisesByOne(s: State, t: nat)
    requires Inv(s) && ShutDown(s) && SpuriousEnabled(s, t)
    ensures SameSize(SpuriousMove(s, t)) && Work(SpuriousMove(s, t)) <= Work(s) + 1
  {
    SpuriousCosts(s, t);
    RaisedByOne(Costs(s), Costs(SpuriousMove(s, t)), t);
  }

  // ---------------------------------------------------------------- somebody can always step

  /** Slave w waits for the queue's mutex: the thread that holds it is a popping slave. */
  lemma PopperCanStep(s: State, w: nat) returns (t: nat)
    requires SameSize(s) && Q.Inv(s.q) && s.q.returned && Stages(s) && w < |s.slaves|
    requires !s.q.pcs[w].Idle? && !s.q.pcs[w].Returned? && !s.q.pcs[w].Terminated?
    ensures SlaveEnabled(s, t, false, {})
  {
    t := Q.SomePopperCanAdvance(s.q, w);
    assert StageOk(s.slaves[t], s.q.pcs[t], s.g.pcs[t], s.w.modes[t]);
  }

  lemma QuerierCanStep(s: State, w: nat) returns (t: nat, chosen: set<nat>)
    requires SameSize(s) && G.Inv(s.g) && Stages(s) && w < |s.slaves| && AtQuery(s, w)
    ensures SlaveEnabled(s, t, false, chosen)
  {
    chosen := G.WaitSet(s.g.pcs);
    if s.g.pcs[w].Out? {
      t := w;
    } else {
      t := G.SomeThreadCanAdvance(s.g, w);
      assert StageOk(s.slaves[t], s.q.pcs[t], s.g.pcs[t], s.w.modes[t]);
    }
  }

  lemma SenderCanStep(s: State, w: nat) returns (t: nat)
    requires SameSize(s) && W.Inv(s.w) && Stages(s) && ItemsOk(s) && w < |s.slaves| && AtSend(s, w)
    ensures SlaveEnabled(s, t, false, {})
  {
    assert StageOk(s.slaves[w], s.q.pcs[w], s.g.pcs[w], s.w.modes[w]);
    assert ItemOk(Hand(s.slaves[w], s.q.pcs[w]));
    if s.w.modes[w].Waiting? {
      t :| 0 <= t < |s.w.modes| && t != w && s.w.modes[t] == W.Writing(s.w.modes[w].fd);
      assert StageOk(s.slaves[t], s.q.pcs[t], s.g.pcs[t], s.w.modes[t]);
    } else {
      t := w;
    }
  }

  lemma RequeuerCanStep(s: State, w: nat) returns (t: nat)
    requires SameSize(s) && Q.Inv(s.q) && s.q.returned && Stages(s) && w < |s.slaves| && s.slaves[w].Requeueing?
    ensures SlaveEnabled(s, t, false, {})
  {
    if s.q.holder == None {
      assert Q.WaitSet(s.q.pcs) == {};
      t := w;
    } else {
      t := PopperCanStep(s, s.q.holder.value);
    }
  }

  /** After shutdown, as long as some slave has not exited, some slave can take a step. */
  lemma SomeSlaveCanStep(s: State, w: nat) returns (t: nat, chosen: set<nat>)
    requires Inv(s) && ShutDown(s) && w < |s.slaves| && !s.slaves[w].Done?
    ensures SlaveEnabled(s, t, false, chosen)
  {
    t, chosen := w, {};
    if s.slaves[w].Popping? {
      if !s.q.pcs[w].Idle? && !s.q.pcs[w].Returned? && !s.q.pcs[w].Terminated? {
        t := PopperCanStep(s, w);
      }
    } else if s.slaves[w].Got? {
      assert ItemOk(Hand(s.slaves[w], s.q.pcs[w]));
    } else if s.slaves[w].Requeueing? {
      t := RequeuerCanStep(s, w);
    } else if s.slaves[w].Serving? && AtQuery(s, w) {
      t, chosen := QuerierCanStep(s, w);
    } else if s.slaves[w].Serving? && AtSend(s, w) {
      t := SenderCanStep(s, w);
    }
  }

  // ---------------------------------------------------------------- whole executions

  ghost predicate Executes(s: State, events: seq<Event>, end: State)
    decreases |events|
  {
    if events == [] then end == s
    else Enabled(s, events[0]) && Executes(Apply(s, events[0]), events[1..], end)
  }

  function SpuriousCount(events: seq<Event>): nat {
    if events == [] then 0 else (if events[0].Spurious? then 1 else 0) + SpuriousCount(events[1..])
  }

  lemma StaysShutDown(s: State, e: Event)
    requires SameSize(s) && ShutDown(s) && Enabled(s, e)
    ensures ShutDown(Apply(s, e)) && (e.SlaveStep? || e.Spurious?)
  {
  }

  lemma OneEvent(s: State, e: Event)
    requires Inv(s) && ShutDown(s) && Enabled(s, e)
    ensures SameSize(Apply(s, e))
    ensures 1 + Work(Apply(s, e)) <= Work(s) + if e.Spurious? then 2 else 0
  {
    StaysShutDown(s, e);
    match e
    case SlaveStep(t, busy, chosen) => SlaveStepLowersWork(s, t, busy, chosen);
    case Spurious(t) => SpuriousRaisesByOne(s, t);
  }

  /** From any shut-down state on, an execution has at most as many steps as there was work left,
      plus two for every wakeup without cause. */
  lemma {:induction false} ShutdownIsBounded(s: State, events: seq<Event>, end: State)
    requires Inv(s) && ShutDown(s) && Executes(s, events, end)
    ensures Inv(end) && ShutDown(end)
    ensures |events| + Work(end) <= Work(s) + 2 * SpuriousCount(events)
    decreases |events|
  {
    if events != [] {
      StepKeepsInv(s, events[0]);
      StaysShutDown(s, events[0]);
      OneEvent(s, events[0]);
      ShutdownIsBounded(Apply(s, events[0]), events[1..], end);
    }
  }

  /** An execution that cannot be continued by any slave has let every slave exit. */
  lemma ShutdownEndsWithAllDone(run: seq<State>, i: nat, events: seq<Event>, end: State)
    requires IsRun(run) && i < |run| && ShutDown(run[i]) && Executes(run[i], events, end)
    requires SameSize(end) ==> forall t, busy, chosen :: !SlaveEnabled(end, t, busy, chosen)
    ensures SameSize(end) && forall t :: 0 <= t < |end.slaves| ==> end.slaves[t] == Done
    ensures SameSize(run[i]) && |events| <= Work(run[i]) + 2 * SpuriousCount(events)
  {
    RunInv(run, i);
    ShutdownIsBounded(run[i], events, end);
    forall w | 0 <= w < |end.slaves| ensures end.slaves[w] == Done {
      if !end.slaves[w].Done? {
        var t, chosen := SomeSlaveCanStep(end, w);
        assert false;
      }
    }
  }
}
