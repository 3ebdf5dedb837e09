/**
 What slaves do for the requests they take. What a slave has done is read off the components: a
 statement is done when its call leaves the database gate, a send when the slave gives up the write
 lock on a descriptor, a close when the descriptor is counted as closed. A request is released, or
 forgotten by the branch for unknown operations, exactly when all of its plan has been done.
 */
module CarriedOut {
  import opened Prelude
  import opened Jobs
  import opened Tokens
  import opened Server
  import opened ServerSafety
  import opened ServerTheorems
  import Q = JobQueue
  import G = DbGate
  import W = WriteLock

  /** `CutShort`: the call left the gate because it found the termination flag set. */
  datatype Deed = Executed(write: bool) | CutShort(write: bool) | Sent(fd: int) | Closed(fd: int)

  function GateDeed(before: G.Pc, after: G.Pc): seq<Deed> {
    if before.AtRelock? && after.Out? then [Executed(before.k.Write?)]
    else if before.Bailing? && after.Out? then [CutShort(before.k.Write?)]
    else []
  }

  function LockDeed(before: W.Mode, after: W.Mode): seq<Deed> {
    if before.Writing? && after.Free? then [Sent(before.fd)] else []
  }

  function CloseDeed(before: Slave, after: Slave, closes: multiset<int>, closes': multiset<int>): seq<Deed> {
    if before.Serving? && after != before && closes' == closes + multiset{before.job.fd} then [Closed(before.job.fd)]
    else []
  }

  /** What a step shows slave t to have done. */
  function Seen(s: State, s': State, t: nat): seq<Deed> {
    if !(SameSize(s) && SameSize(s') && t < |s.slaves| && t < |s'.slaves|) then [] else
      GateDeed(s.g.pcs[t], s'.g.pcs[t]) + LockDeed(s.w.modes[t], s'.w.modes[t])
      + CloseDeed(s.slaves[t], s'.slaves[t], s.books.closes, s'.books.closes)
  }

  predicate Busy(slave: Slave) {
    slave.Serving? || slave.Freeing?
  }

  /** What slave t has done for the request it is serving or about to release. */
  function DoneBy(run: seq<State>, i: nat, t: nat): seq<Deed>
    requires i < |run|
  {
    if i == 0 || t >= |run[i].slaves| || !Busy(run[i].slaves[t]) then []
    else DoneBy(run, i - 1, t) + Seen(run[i - 1], run[i], t)
  }

  /** The deed that an act of the plan of a job on `fd` calls for. */
  predicate Meets(deed: Deed, act: Act, fd: int) {
    match act
    case Query(write) => deed == Executed(write) || deed == CutShort(write)
    case Send(to) => deed == Sent(to)
    case Close => deed == Closed(fd)
  }

  /** Every act once, in order. */
  predicate Fulfils(done: seq<Deed>, acts: seq<Act>, fd: int) {
    |done| == |acts| && forall k :: 0 <= k < |done| ==> Meets(done[k], acts[k], fd)
  }

  /** What has been done and what is left make up the plan. */
  predicate OnTrack(slave: Slave, done: seq<Deed>) {
    match slave
    case Serving(job, rest) =>
      |done| + |rest| == |job.plan| && rest == job.plan[|done|..] && Fulfils(done, job.plan[..|done|], job.fd)
    case Freeing(job) => Known(job.op) && Fulfils(done, job.plan, job.fd)
    case _ => done == []
  }

  /** A slave in the gate is there for the statement its plan has next. */
  predicate Asks(slave: Slave, pc: G.Pc) {
    !pc.Out? ==> slave.Serving? && slave.rest != [] && slave.rest[0] == Query(pc.k.Write?)
  }

  predicate Cuts(done: seq<Deed>) {
    exists k :: 0 <= k < |done| && done[k].CutShort?
  }

  lemma OneMore(job: Job, rest: seq<Act>, done: seq<Deed>, deed: Deed)
    requires OnTrack(Serving(job, rest), done) && rest != [] && Meets(deed, rest[0], job.fd)
    ensures OnTrack(Serving(job, rest[1..]), done + [deed])
  {
    var plan, n := job.plan, |done|;
    assert plan[n] == rest[0];
    assert plan[..n + 1] == plan[..n] + [plan[n]];
  }

  lemma AllDone(job: Job, done: seq<Deed>)
    requires OnTrack(Serving(job, []), done)
    ensures Fulfils(done, job.plan, job.fd)
  {
    assert job.plan[..|done|] == job.plan;
  }

  lemma NoClose(closes: multiset<int>, fd: int)
    ensures closes != closes + multiset{fd}
  {
    assert (closes + multiset{fd})[fd] == closes[fd] + 1;
  }

  // ---------------------------------------------------------------- the slave's own steps

  predicate At(s: State, t: nat)
    requires SameSize(s)
  {
    t < |s.slaves| && StageOk(s.slaves[t], s.q.pcs[t], s.g.pcs[t], s.w.modes[t]) && Asks(s.slaves[t], s.g.pcs[t])
  }

  /** A move that does nothing to gate, lock and closes shows no deed. */
  lemma QuietShowsNothing(s: State, s': State, t: nat)
    requires SameSize(s) && SameSize(s') && t < |s.slaves| && t < |s'.slaves|
    requires s'.g.pcs[t] == s.g.pcs[t] && s'.w.modes[t] == s.w.modes[t] && s'.books.closes == s.books.closes
    ensures Seen(s, s', t) == []
  {
    if s.slaves[t].Serving? {
      NoClose(s.books.closes, s.slaves[t].job.fd);
    }
  }

  lemma PopTracks(s: State, t: nat)
    requires SameSize(s) && At(s, t) && s.slaves[t].Popping? && PopEnabled(s, t)
    ensures SameSize(PopMove(s, t)) && At(PopMove(s, t), t) && !Busy(PopMove(s, t).slaves[t])
  {
  }

  lemma AdmitTracks(s: State, t: nat)
    requires SameSize(s) && At(s, t) && s.slaves[t].Got? && AdmitEnabled(s, t)
    ensures var s' := AdmitMove(s, t);
      && SameSize(s') && At(s', t) && Seen(s, s', t) == [] && OnTrack(s'.slaves[t], [])
  {
    QuietShowsNothing(s, AdmitMove(s, t), t);
  }

  lemma PushBackTracks(s: State, t: nat, chosen: set<nat>)
    requires SameSize(s) && At(s, t) && s.slaves[t].Requeueing? && Q.Enabled(s.q, Q.Push(s.slaves[t].job, chosen))
    ensures var s' := PushBackMove(s, t, chosen);
      SameSize(s') && At(s', t) && !Busy(s'.slaves[t])
  {
  }

  /** The thread's own step of the gate: it stays in its call for the same kind of statement, or
      leaves it in one of the two ways. */
  lemma OwnGateStep(g: G.Gate, t: nat, busy: bool, chosen: set<nat>)
    requires G.TestInv(g) && G.CanAdvance(g, t)
    ensures var pc, pc' := g.pcs[t], G.Step(g, t, busy, chosen).pcs[t];
      && (pc'.Out? ==> pc.AtRelock? || (pc.Bailing? && g.term))
      && (!pc'.Out? ==> pc'.k.Write? == pc.k.Write? && GateDeed(pc, pc') == [])
  {
  }

  lemma GateStepOf(s: State, t: nat, busy: bool, chosen: set<nat>)
    requires SameSize(s) && At(s, t) && AtQuery(s, t) && G.TestInv(s.g)
    requires G.Enabled(s.g, QueryEvent(s, t, busy, chosen))
    ensures var pc, pc' := s.g.pcs[t], G.Apply(s.g, QueryEvent(s, t, busy, chosen)).pcs[t];
      && (pc'.Out? ==> |GateDeed(pc, pc')| == 1 && Meets(GateDeed(pc, pc')[0], s.slaves[t].rest[0], s.slaves[t].job.fd)
                       && (GateDeed(pc, pc')[0].CutShort? ==> s.g.term))
      && (!pc'.Out? ==> GateDeed(pc, pc') == [] && s.slaves[t].rest[0] == Query(pc'.k.Write?))
  {
    if !s.g.pcs[t].Out? {
      OwnGateStep(s.g, t, busy, chosen);
    }
  }

  lemma QueryTracks(s: State, t: nat, busy: bool, chosen: set<nat>, done: seq<Deed>)
    requires SameSize(s) && At(s, t) && AtQuery(s, t) && G.TestInv(s.g) && OnTrack(s.slaves[t], done)
    requires G.Enabled(s.g, QueryEvent(s, t, busy, chosen))
    ensures var s' := QueryMove(s, t, busy, chosen);
      && SameSize(s') && At(s', t) && OnTrack(s'.slaves[t], done + Seen(s, s', t))
      && (Cuts(Seen(s, s', t)) ==> s.g.term)
  {
    var s' := QueryMove(s, t, busy, chosen);
    var job, rest := s.slaves[t].job, s.slaves[t].rest;
    GateStepOf(s, t, busy, chosen);
    NoClose(s.books.closes, job.fd);
    var seen := GateDeed(s.g.pcs[t], s'.g.pcs[t]);
    assert Seen(s, s', t) == seen;
    if s'.g.pcs[t].Out? {
      assert seen == [seen[0]];
      OneMore(job, rest, done, seen[0]);
    } else {
      assert done + seen == done;
    }
  }

  lemma SendTracks(s: State, t: nat, done: seq<Deed>)
    requires SameSize(s) && At(s, t) && AtSend(s, t) && OnTrack(s.slaves[t], done)
    requires W.Enabled(s.w, SendEvent(s, t))
    ensures var s' := SendMove(s, t);
      && SameSize(s') && At(s', t) && OnTrack(s'.slaves[t], done + Seen(s, s', t)) && !Cuts(Seen(s, s', t))
  {
    var s' := SendMove(s, t);
    var job, rest := s.slaves[t].job, s.slaves[t].rest;
    NoClose(s.books.closes, job.fd);
    var seen := LockDeed(s.w.modes[t], s'.w.modes[t]);
    assert Seen(s, s', t) == seen;
    if SendEvent(s, t).Release? {
      assert seen == [Sent(s.w.modes[t].fd)];
      OneMore(job, rest, done, seen[0]);
    } else {
      assert done + seen == done;
    }
  }

  lemma CloseTracks(s: State, t: nat, done: seq<Deed>)
    requires SameSize(s) && At(s, t) && AtClose(s, t) && OnTrack(s.slaves[t], done)
    ensures var s' := CloseMove(s, t);
      && SameSize(s') && At(s', t) && OnTrack(s'.slaves[t], done + Seen(s, s', t)) && !Cuts(Seen(s, s', t))
  {
    var s' := CloseMove(s, t);
    var job, rest := s.slaves[t].job, s.slaves[t].rest;
    assert |rest[1..]| < |rest|;
    assert Seen(s, s', t) == [Closed(job.fd)];
    OneMore(job, rest, done, Closed(job.fd));
  }

  lemma EndTracks(s: State, t: nat, done: seq<Deed>)
    requires SameSize(s) && At(s, t) && AtEnd(s, t) && OnTrack(s.slaves[t], done)
    ensures var s' := EndMove(s, t);
      && SameSize(s') && At(s', t) && Seen(s, s', t) == []
      && (Busy(s'.slaves[t]) ==> OnTrack(s'.slaves[t], done))
  {
    QuietShowsNothing(s, EndMove(s, t), t);
    AllDone(s.slaves[t].job, done);
  }

  lemma FreeTracks(s: State, t: nat)
    requires SameSize(s) && At(s, t) && s.slaves[t].Freeing?
    ensures SameSize(FreeMove(s, t)) && At(FreeMove(s, t), t) && !Busy(FreeMove(s, t).slaves[t])
  {
  }

  /** What slave t has done once the step s to s' has been taken. */
  function After(s': State, t: nat, done: seq<Deed>, seen: seq<Deed>): seq<Deed>
    requires t < |s'.slaves|
  {
    if Busy(s'.slaves[t]) then done + seen else []
  }

  lemma OwnTracks(s: State, t: nat, busy: bool, chosen: set<nat>, done: seq<Deed>)
    requires SameSize(s) && At(s, t) && G.TestInv(s.g) && OnTrack(s.slaves[t], done)
    requires SlaveEnabled(s, t, busy, chosen)
    ensures var s' := SlaveMove(s, t, busy, chosen);
      && SameSize(s') && At(s', t) && OnTrack(s'.slaves[t], After(s', t, done, Seen(s, s', t)))
      && (Cuts(Seen(s, s', t)) && Busy(s'.slaves[t]) ==> s.g.term)
  {
    match s.slaves[t]
    case Popping => PopTracks(s, t);
    case Got(_) => AdmitTracks(s, t);
    case Requeueing(_) => PushBackTracks(s, t, chosen);
    case Serving(_, _) =>
      if AtQuery(s, t) {
        QueryTracks(s, t, busy, chosen, done);
      } else if AtSend(s, t) {
        SendTracks(s, t, done);
      } else if AtClose(s, t) {
        CloseTracks(s, t, done);
      } else {
        EndTracks(s, t, done);
        assert done + [] == done;
      }
    case Freeing(_) => FreeTracks(s, t);
  }

  // ---------------------------------------------------------------- steps of others

  lemma GateOthersCall(g: G.Gate, e: G.Event, u: nat)
    requires G.Enabled(g, e) && u < |g.pcs| && ((e.Begin? || e.Advance?) ==> e.t != u)
    ensures var pc, pc' := g.pcs[u], G.Apply(g, e).pcs[u];
      && (pc'.Out? <==> pc.Out?) && (!pc.Out? ==> pc'.k.Write? == pc.k.Write?) && GateDeed(pc, pc') == []
  {
  }

  lemma LockOthersHold(w: W.Lock, e: W.Event, u: nat)
    requires W.Enabled(w, e) && u < |w.modes| && (e.t != u || e.Spurious?)
    ensures LockDeed(w.modes[u], W.Apply(w, e).modes[u]) == []
  {
  }

  /** A step in which slave u takes no part. */
  predicate Unmoved(s: State, s': State, u: nat)
    requires SameSize(s)
  {
    && SameSize(s') && |s'.slaves| == |s.slaves| && u < |s.slaves| && s'.slaves[u] == s.slaves[u]
    && (s'.g.pcs[u].Out? <==> s.g.pcs[u].Out?) && (!s.g.pcs[u].Out? ==> s'.g.pcs[u].k.Write? == s.g.pcs[u].k.Write?)
    && Seen(s, s', u) == []
  }

  lemma QueryLeavesOthers(s: State, t: nat, busy: bool, chosen: set<nat>, u: nat)
    requires SameSize(s) && t < |s.slaves| && AtQuery(s, t) && G.Enabled(s.g, QueryEvent(s, t, busy, chosen))
    requires u < |s.slaves| && u != t
    ensures Unmoved(s, QueryMove(s, t, busy, chosen), u)
  {
    GateOthersCall(s.g, QueryEvent(s, t, busy, chosen), u);
  }

  lemma SendLeavesOthers(s: State, t: nat, u: nat)
    requires SameSize(s) && t < |s.slaves| && AtSend(s, t) && W.Enabled(s.w, SendEvent(s, t))
    requires u < |s.slaves| && u != t
    ensures Unmoved(s, SendMove(s, t), u)
  {
    LockOthersHold(s.w, SendEvent(s, t), u);
  }

  lemma PopLeavesOthers(s: State, t: nat, u: nat)
    requires SameSize(s) && t < |s.slaves| && PopEnabled(s, t) && u < |s.slaves| && u != t
    ensures Unmoved(s, PopMove(s, t), u)
  {
  }

  lemma SlaveLeavesOthers(s: State, t: nat, busy: bool, chosen: set<nat>, u: nat)
    requires SameSize(s) && SlaveEnabled(s, t, busy, chosen) && u < |s.slaves| && u != t
    ensures Unmoved(s, SlaveMove(s, t, busy, chosen), u)
  {
    if s.slaves[t].Popping? {
      PopLeavesOthers(s, t, u);
    } else if AtQuery(s, t) {
      QueryLeavesOthers(s, t, busy, chosen, u);
    } else if AtSend(s, t) {
      SendLeavesOthers(s, t, u);
    }
  }

  lemma SpuriousMovesNobody(s: State, t: nat, u: nat)
    requires SameSize(s) && SpuriousEnabled(s, t) && W.WellFormed(s.w) && u < |s.slaves|
    ensures Unmoved(s, SpuriousMove(s, t), u)
  {
  }

  lemma CoreMovesNobody(s: State, e: Event, u: nat)
    requires Enabled(s, e) && !e.SlaveStep? && !e.Spurious? && u < |s.slaves|
    ensures Unmoved(s, Apply(s, e), u)
  {
  }

  lemma FlagStays(s: State, e: Event)
    requires Enabled(s, e)
    ensures s.g.term ==> Apply(s, e).g.term
  {
    if e.SlaveStep? && AtQuery(s, e.t) {
      GateFlagStays(s.g, QueryEvent(s, e.t, e.busy, e.chosen));
    }
  }

  // ---------------------------------------------------------------- over runs

  ghost predicate Tracked(s: State, t: nat, done: seq<Deed>) {
    && SameSize(s) && t < |s.slaves| && Asks(s.slaves[t], s.g.pcs[t])
    && OnTrack(s.slaves[t], done) && (Cuts(done) ==> s.g.term)
  }

  lemma CutsOf(done: seq<Deed>, seen: seq<Deed>)
    ensures Cuts(done + seen) ==> Cuts(done) || Cuts(seen)
  {
    if k :| 0 <= k < |done + seen| && (done + seen)[k].CutShort? {
      assert k >= |done| ==> seen[k - |done|].CutShort?;
    }
  }

  /** The part of the server's invariant that is needed here. */
  ghost predicate Sound(s: State) {
    SameSize(s) && Stages(s) && G.TestInv(s.g) && W.WellFormed(s.w)
  }

  lemma StepTracks(s: State, e: Event, t: nat, done: seq<Deed>)
    requires Sound(s) && Enabled(s, e) && Tracked(s, t, done)
    ensures var s' := Apply(s, e);
      t < |s'.slaves| && Tracked(s', t, After(s', t, done, Seen(s, s', t)))
  {
    var s' := Apply(s, e);
    FlagStays(s, e);
    CutsOf(done, Seen(s, s', t));
    if e.SlaveStep? && e.t == t {
      assert StageOk(s.slaves[t], s.q.pcs[t], s.g.pcs[t], s.w.modes[t]);
      OwnTracks(s, t, e.busy, e.chosen, done);
    } else {
      OthersLeave(s, e, t);
      assert done + [] == done;
    }
  }

  lemma OthersLeave(s: State, e: Event, u: nat)
    requires SameSize(s) && W.WellFormed(s.w) && Enabled(s, e) && u < |s.slaves| && (e.SlaveStep? ==> e.t != u)
    ensures Unmoved(s, Apply(s, e), u)
  {
    match e
    case SlaveStep(t, busy, chosen) => SlaveLeavesOthers(s, t, busy, chosen, u);
    case Spurious(t) => SpuriousMovesNobody(s, t, u);
    case _ => CoreMovesNobody(s, e, u);
  }

  lemma NextTracks(s: State, s': State, t: nat, done: seq<Deed>)
    requires Sound(s) && Next(s, s') && Tracked(s, t, done)
    ensures t < |s'.slaves| && Tracked(s', t, After(s', t, done, Seen(s, s', t)))
  {
    var e: Event :| Enabled(s, e) && s' == Apply(s, e);
    StepTracks(s, e, t, done);
  }

  lemma NextKeepsSlaves(s: State, s': State)
    requires SameSize(s) && Next(s, s')
    ensures |s'.slaves| == |s.slaves|
  {
    var e: Event :| Enabled(s, e) && s' == Apply(s, e);
    if e.SlaveStep? {
      OnlyOwnSlot(s, e.t, e.busy, e.chosen);
    } else {
      OthersKeepSlots(s, e);
    }
  }

  lemma RunSound(run: seq<State>, i: nat)
    requires IsRun(run) && i < |run|
    ensures Sound(run[i])
  {
    RunInv(run, i);
  }

  lemma {:induction false} RunTracked(run: seq<State>, i: nat, t: nat)
    requires IsRun(run) && i < |run| && t < |run[i].slaves|
    ensures Tracked(run[i], t, DoneBy(run, i, t))
  {
    RunSound(run, i);
    if i > 0 {
      RunSound(run, i - 1);
      assert Next(run[i - 1], run[i - 1 + 1]);
      NextKeepsSlaves(run[i - 1], run[i]);
      RunTracked(run, i - 1, t);
      NextTracks(run[i - 1], run[i], t, DoneBy(run, i - 1, t));
    }
  }

  lemma ServingSplits(s: State, t: nat, done: seq<Deed>)
    requires Tracked(s, t, done) && s.slaves[t].Serving?
    ensures var job, rest := s.slaves[t].job, s.slaves[t].rest;
      && |done| + |rest| == |job.plan| && job.plan[..|done|] + rest == job.plan
      && Fulfils(done, job.plan[..|done|], job.fd)
      && (Cuts(done) ==> s.g.term)
  {
  }

  /** In every state of every run, for every slave serving a request: what it has done and what is
      left make up the plan, every act done once and in order, each statement inside the gate and each
      send under the write lock on exactly its descriptor; and no statement has been left undone as long
      as the termination flag is not set. */
  lemma HistoryPlusRest(run: seq<State>, i: nat, t: nat)
    requires IsRun(run) && i < |run| && t < |run[i].slaves| && run[i].slaves[t].Serving?
    ensures var job, rest, done := run[i].slaves[t].job, run[i].slaves[t].rest, DoneBy(run, i, t);
      && |done| + |rest| == |job.plan| && job.plan[..|done|] + rest == job.plan
      && Fulfils(done, job.plan[..|done|], job.fd)
      && (Cuts(done) ==> run[i].g.term)
  {
    RunTracked(run, i, t);
    ServingSplits(run[i], t, DoneBy(run, i, t));
  }

  // ---------------------------------------------------------------- which request it is

  predicate InHand(slave: Slave, pc: Q.Pc, job: Job) {
    || ((slave.Got? || slave.Requeueing? || slave.Serving? || slave.Freeing?) && slave.job == job)
    || pc == Q.Returned(job)
  }

  /** The job is queued or in somebody's hand. */
  predicate Holds(s: State, job: Job)
    requires SameSize(s)
  {
    job in s.q.jobs || exists t :: 0 <= t < |s.slaves| && InHand(s.slaves[t], s.q.pcs[t], job)
  }

  /** The step that creates the message numbered job.id and queues it as this job. */
  predicate Creates(s: State, s': State, job: Job) {
    s.books.nextId == job.id && s'.books.nextId == job.id + 1 && s'.q.pushed == s.q.pushed + [job]
  }

  ghost predicate Born(run: seq<State>, i: nat, job: Job)
    requires i < |run|
  {
    exists j: nat :: j < i && Creates(run[j], run[j + 1], job)
  }

  lemma PopHolds(s: State, t: nat, job: Job)
    requires SameSize(s) && t < |s.slaves| && s.slaves[t].Popping? && PopEnabled(s, t)
    requires SameSize(PopMove(s, t)) && Holds(PopMove(s, t), job)
    ensures Holds(s, job)
  {
    var s' := PopMove(s, t);
    if job !in s'.q.jobs {
      var u :| 0 <= u < |s'.slaves| && InHand(s'.slaves[u], s'.q.pcs[u], job);
      if s.q.pcs[t].Taking? && u == t {
        assert job == s.q.jobs[0];
      } else {
        assert InHand(s.slaves[u], s.q.pcs[u], job);
      }
    }
  }

  lemma WakeKeepsReturned(pcs: seq<Q.Pc>, who: set<nat>, u: nat, job: Job)
    requires u < |pcs|
    ensures Q.Wake(pcs, who)[u] == Q.Returned(job) <==> pcs[u] == Q.Returned(job)
  {
  }

  lemma PushBackHolds(s: State, t: nat, chosen: set<nat>, job: Job)
    requires SameSize(s) && t < |s.slaves| && s.slaves[t].Requeueing? && Q.Enabled(s.q, Q.Push(s.slaves[t].job, chosen))
    requires SameSize(PushBackMove(s, t, chosen)) && Holds(PushBackMove(s, t, chosen), job)
    ensures Holds(s, job)
  {
    var s' := PushBackMove(s, t, chosen);
    if job in s'.q.jobs {
      assert job !in s.q.jobs ==> InHand(s.slaves[t], s.q.pcs[t], job);
    } else {
      var u :| 0 <= u < |s'.slaves| && InHand(s'.slaves[u], s'.q.pcs[u], job);
      WakeKeepsReturned(s.q.pcs, chosen, u, job);
      assert InHand(s.slaves[u], s.q.pcs[u], job);
    }
  }

  /** Any other step of a slave changes neither the queue nor which job is in hand. */
  lemma ServeHolds(s: State, t: nat, busy: bool, chosen: set<nat>, job: Job)
    requires SameSize(s) && SlaveEnabled(s, t, busy, chosen) && !s.slaves[t].Popping? && !s.slaves[t].Requeueing?
    requires SameSize(SlaveMove(s, t, busy, chosen)) && Holds(SlaveMove(s, t, busy, chosen), job)
    ensures Holds(s, job)
  {
    var s' := SlaveMove(s, t, busy, chosen);
    assert s'.q == s.q;
    if job !in s.q.jobs {
      var u :| 0 <= u < |s'.slaves| && InHand(s'.slaves[u], s'.q.pcs[u], job);
      OnlyOwnSlot(s, t, busy, chosen);
      assert InHand(s.slaves[u], s.q.pcs[u], job);
    }
  }

  lemma PushHolds(s: State, created: Job, chosen: set<nat>, s': State, job: Job)
    requires SameSize(s) && Q.Enabled(s.q, Q.Push(created, chosen)) && created.id == s.books.nextId
    requires s'.q == PushMove(s, created, chosen).q && s'.slaves == s.slaves && s'.books.nextId == s.books.nextId + 1
    requires SameSize(s') && Holds(s', job)
    ensures Holds(s, job) || Creates(s, s', job)
  {
    if job in s'.q.jobs {
      assert job in s.q.jobs || job == created;
    } else {
      var u :| 0 <= u < |s'.slaves| && InHand(s'.slaves[u], s'.q.pcs[u], job);
      WakeKeepsReturned(s.q.pcs, chosen, u, job);
      assert InHand(s.slaves[u], s.q.pcs[u], job);
    }
  }

  /** Steps that only take jobs away, or move nobody. */
  lemma FewerHolds(s: State, s': State, job: Job)
    requires SameSize(s) && SameSize(s') && s'.slaves == s.slaves && (s'.q.jobs == s.q.jobs || s'.q.jobs == [])
    requires forall u :: 0 <= u < |s.slaves| ==> (s'.q.pcs[u] == Q.Returned(job) <==> s.q.pcs[u] == Q.Returned(job))
    requires Holds(s', job)
    ensures Holds(s, job)
  {
    if job !in s'.q.jobs {
      var u :| 0 <= u < |s'.slaves| && InHand(s'.slaves[u], s'.q.pcs[u], job);
      assert InHand(s.slaves[u], s.q.pcs[u], job);
    }
  }

  lemma CoreHolds(s: State, e: Event, job: Job)
    requires SameSize(s) && Enabled(s, e) && !e.SlaveStep? && SameSize(Apply(s, e)) && Holds(Apply(s, e), job)
    ensures Holds(s, job) || Creates(s, Apply(s, e), job)
  {
    if e.Receive? || e.HangUp? {
      PushHolds(s, e.job, e.chosen, Apply(s, e), job);
    } else {
      QuietQueue(s, e, job);
      FewerHolds(s, Apply(s, e), job);
    }
  }

  predicate SameReturned(s: State, s': State, job: Job)
    requires SameSize(s) && SameSize(s')
  {
    && s'.slaves == s.slaves && (s'.q.jobs == s.q.jobs || s'.q.jobs == [])
    && forall u :: 0 <= u < |s.slaves| ==> (s'.q.pcs[u] == Q.Returned(job) <==> s.q.pcs[u] == Q.Returned(job))
  }

  lemma StopKeepsReturned(s: State, job: Job)
    requires SameSize(s) && StopEnabled(s) && SameSize(StopMove(s))
    ensures SameReturned(s, StopMove(s), job)
  {
  }

  lemma SpuriousKeepsReturned(s: State, t: nat, job: Job)
    requires SameSize(s) && SpuriousEnabled(s, t) && SameSize(SpuriousMove(s, t))
    ensures SameReturned(s, SpuriousMove(s, t), job)
  {
  }

  lemma QuietQueue(s: State, e: Event, job: Job)
    requires SameSize(s) && Enabled(s, e) && !e.SlaveStep? && !e.Receive? && !e.HangUp? && SameSize(Apply(s, e))
    ensures SameReturned(s, Apply(s, e), job)
  {
    if e.CoreStop? {
      StopKeepsReturned(s, job);
    } else if e.Spurious? {
      SpuriousKeepsReturned(s, e.t, job);
    }
  }

  lemma NextHolds(s: State, s': State, job: Job)
    requires SameSize(s) && Next(s, s') && SameSize(s') && Holds(s', job)
    ensures Holds(s, job) || Creates(s, s', job)
  {
    var e: Event :| Enabled(s, e) && s' == Apply(s, e);
    if !e.SlaveStep? {
      CoreHolds(s, e, job);
    } else if s.slaves[e.t].Popping? {
      PopHolds(s, e.t, job);
    } else if s.slaves[e.t].Requeueing? {
      PushBackHolds(s, e.t, e.chosen, job);
    } else {
      ServeHolds(s, e.t, e.busy, e.chosen, job);
    }
  }

  lemma InitHoldsNothing(s: State, job: Job)
    requires Init(s) && SameSize(s)
    ensures !Holds(s, job)
  {
  }

  lemma HeldBefore(run: seq<State>, i: nat, job: Job)
    requires IsRun(run) && 0 < i < |run| && SameSize(run[i]) && Holds(run[i], job)
    ensures SameSize(run[i - 1]) && (Holds(run[i - 1], job) || Creates(run[i - 1], run[i], job))
  {
    RunSound(run, i - 1);
    assert Next(run[i - 1], run[i - 1 + 1]);
    NextHolds(run[i - 1], run[i], job);
  }

  function HeldIn(run: seq<State>, job: Job): (r: seq<bool>)
    ensures |r| == |run| && forall i :: 0 <= i < |r| ==> r[i] == (SameSize(run[i]) && Holds(run[i], job))
  {
    seq(|run|, i requires 0 <= i < |run| => SameSize(run[i]) && Holds(run[i], job))
  }

  lemma {:induction false} Begins(flags: seq<bool>, i: nat) returns (j: nat)
    requires i < |flags| && !flags[0] && flags[i]
    ensures j < i && !flags[j] && flags[j + 1]
  {
    if flags[i - 1] {
      j := Begins(flags, i - 1);
    } else {
      j := i - 1;
    }
  }

  lemma BornAt(run: seq<State>, i: nat, j: nat, job: Job)
    requires j < i < |run| && Creates(run[j], run[j + 1], job)
    ensures Born(run, i, job)
  {
  }

  /** Whatever is queued or in hand, after any number of refusals, is a request exactly as the core
      created it: its plan is the one that came in. */
  lemma HeldIsBorn(run: seq<State>, i: nat, job: Job)
    requires IsRun(run) && i < |run| && SameSize(run[i]) && Holds(run[i], job)
    ensures Born(run, i, job)
  {
    RunSound(run, 0);
    InitHoldsNothing(run[0], job);
    var held := HeldIn(run, job);
    var j := Begins(held, i);
    HeldBefore(run, j + 1, job);
    BornAt(run, i, j, job);
  }

  lemma NextNumbers(s: State, s': State)
    requires SameSize(s) && Next(s, s')
    ensures s.books.nextId <= s'.books.nextId
  {
  }

  lemma {:induction false} NumbersGrow(run: seq<State>, j: nat, i: nat)
    requires IsRun(run) && j <= i < |run|
    ensures run[j].books.nextId <= run[i].books.nextId
  {
    if j < i {
      NumbersGrow(run, j, i - 1);
      RunSound(run, i - 1);
      assert Next(run[i - 1], run[i - 1 + 1]);
      NextNumbers(run[i - 1], run[i]);
    }
  }

  lemma OneNumberOneStep(run: seq<State>, j: nat, k: nat)
    requires IsRun(run) && j + 1 < |run| && k + 1 < |run| && run[j].books.nextId == run[k].books.nextId
    requires run[j + 1].books.nextId == run[k + 1].books.nextId == run[j].books.nextId + 1
    ensures j == k
  {
    if j < k {
      NumbersGrow(run, j + 1, k);
    } else if k < j {
      NumbersGrow(run, k + 1, j);
    }
  }

  lemma OneBirth(s: State, s': State, a: Job, b: Job)
    requires Creates(s, s', a) && Creates(s, s', b)
    ensures a == b
  {
    var before := s.q.pushed;
    assert (before + [a])[|before|] == a && (before + [b])[|before|] == b;
  }

  lemma StepsOfBirth(run: seq<State>, i: nat, a: Job, b: Job) returns (j: nat, k: nat)
    requires i < |run| && Born(run, i, a) && Born(run, i, b) && a.id == b.id
    ensures j < i && k < i && run[j].books.nextId == run[k].books.nextId
    ensures run[j + 1].books.nextId == run[k + 1].books.nextId == run[j].books.nextId + 1
    ensures j == k ==> a == b
  {
    j :| j < i && Creates(run[j], run[j + 1], a);
    k :| k < i && Creates(run[k], run[k + 1], b);
    if j == k {
      OneBirth(run[j], run[j + 1], a, b);
    }
  }

  /** No number is given to two requests. */
  lemma BornOnce(run: seq<State>, i: nat, a: Job, b: Job)
    requires IsRun(run) && i < |run| && Born(run, i, a) && Born(run, i, b) && a.id == b.id
    ensures a == b
  {
    var j, k := StepsOfBirth(run, i, a, b);
    OneNumberOneStep(run, j, k);
  }

  // ---------------------------------------------------------------- what is released

  function Gone(b: Books, x: int): nat {
    b.freed[x] + b.dropped[x]
  }

  /** Slave t has done everything that the request numbered x asks for. */
  ghost predicate Completes(run: seq<State>, i: nat, t: nat, x: int)
    requires i < |run|
  {
    && t < |run[i].slaves| && Busy(run[i].slaves[t])
    && var job := run[i].slaves[t].job;
       job.id == x && Born(run, i, job) && Fulfils(DoneBy(run, i, t), job.plan, job.fd)
  }

  /** The step of `queue_free` that releases what is still queued. */
  predicate Drains(s: State, s': State, x: int) {
    s.core.FreeingQueue? && s'.q.jobs == [] && exists k :: 0 <= k < |s.q.jobs| && s.q.jobs[k].id == x
  }

  /** The slave's move that lets go of a message: `free_message` for a known code, and the way back to
      the queue for an unknown one. */
  predicate LetsGo(s: State, s': State, t: nat, x: int) {
    && t < |s.slaves| && Busy(s.slaves[t]) && s.slaves[t].job.id == x
    && (s.slaves[t].Serving? ==> s.slaves[t].rest == [] && !Known(s.slaves[t].job.op)
                                 && s'.books.freed == s.books.freed)
    && (s.slaves[t].Freeing? ==> s'.books.dropped == s.books.dropped)
  }

  lemma SlaveReleases(s: State, t: nat, busy: bool, chosen: set<nat>, x: int)
    requires SameSize(s) && SlaveEnabled(s, t, busy, chosen)
    requires Gone(SlaveMove(s, t, busy, chosen).books, x) > Gone(s.books, x)
    ensures LetsGo(s, SlaveMove(s, t, busy, chosen), t, x)
  {
  }

  lemma StopReleases(s: State, x: int)
    requires SameSize(s) && StopEnabled(s) && Gone(StopMove(s).books, x) > Gone(s.books, x)
    ensures Drains(s, StopMove(s), x)
  {
    var k := TotalFrom(Items(s.q.jobs), x, MessageToken);
    assert s.q.jobs[k].id == x;
  }

  lemma CoreReleases(s: State, e: Event, x: int)
    requires SameSize(s) && Enabled(s, e) && !e.SlaveStep? && Gone(Apply(s, e).books, x) > Gone(s.books, x)
    ensures Drains(s, Apply(s, e), x)
  {
    if e.CoreStop? {
      StopReleases(s, x);
    }
  }

  lemma NextReleases(s: State, s': State, x: int) returns (t: nat)
    requires SameSize(s) && Next(s, s') && Gone(s'.books, x) > Gone(s.books, x)
    ensures Drains(s, s', x) || LetsGo(s, s', t, x)
  {
    var e: Event :| Enabled(s, e) && s' == Apply(s, e);
    t := 0;
    if e.SlaveStep? {
      t := e.t;
      SlaveReleases(s, t, e.busy, e.chosen, x);
    } else {
      CoreReleases(s, e, x);
    }
  }

  lemma LetsGoWhenDone(run: seq<State>, i: nat, s': State, t: nat, x: int)
    requires IsRun(run) && i < |run| && LetsGo(run[i], s', t, x)
    ensures Completes(run, i, t, x)
    ensures run[i].slaves[t].Freeing? <==> Known(run[i].slaves[t].job.op)
  {
    var slave := run[i].slaves[t];
    RunTracked(run, i, t);
    assert InHand(slave, run[i].q.pcs[t], slave.job);
    HeldIsBorn(run, i, slave.job);
    if slave.Serving? {
      AllDone(slave.job, DoneBy(run, i, t));
    }
  }

  /** In every step of every run that releases or forgets a message: the shutdown drain releases it, or
      the slave that lets go of it has done all of the plan that came in with it; and a slave releases
      exactly the known operations. */
  lemma ReleasedWhenDone(run: seq<State>, i: nat, x: int) returns (t: nat)
    requires IsRun(run) && i + 1 < |run| && Gone(run[i + 1].books, x) > Gone(run[i].books, x)
    ensures Drains(run[i], run[i + 1], x) || (Completes(run, i, t, x) && LetsGo(run[i], run[i + 1], t, x)
              && (run[i].slaves[t].Freeing? <==> Known(run[i].slaves[t].job.op)))
  {
    RunSound(run, i);
    assert Next(run[i], run[i + 1]);
    t := NextReleases(run[i], run[i + 1], x);
    if LetsGo(run[i], run[i + 1], t, x) {
      LetsGoWhenDone(run, i, run[i + 1], t, x);
    }
  }

  function GoneIn(run: seq<State>, x: int): (r: seq<nat>)
    ensures |r| == |run| && forall i :: 0 <= i < |r| ==> r[i] == Gone(run[i].books, x)
  {
    seq(|run|, i requires 0 <= i < |run| => Gone(run[i].books, x))
  }

  lemma {:induction false} Rises(counts: seq<nat>, i: nat) returns (j: nat)
    requires i < |counts| && counts[0] == 0 && counts[i] > 0
    ensures j < i && counts[j + 1] > counts[j]
  {
    if counts[i - 1] < counts[i] {
      j := i - 1;
    } else {
      j := Rises(counts, i - 1);
    }
  }

  /** So every message that is gone has been drained at shutdown, or a slave has done everything its
      request asked for. */
  lemma GoneWasServed(run: seq<State>, i: nat, x: int) returns (j: nat, t: nat)
    requires IsRun(run) && i < |run| && Gone(run[i].books, x) > 0
    ensures j < i && (Drains(run[j], run[j + 1], x) || Completes(run, j, t, x))
  {
    assert Gone(run[0].books, x) == 0;
    j := Rises(GoneIn(run, x), i);
    t := ReleasedWhenDone(run, j, x);
  }
}
