/**
 What the admission table shows of the slaves. The branch for unknown operations goes back to the
 queue without cleaning its slot, so a slot can name a descriptor that nobody is serving; this
 module says exactly when it does, and exactly whom it keeps out.
 */
module StaleSlots {
  import opened Prelude
  import opened Jobs
  import opened Server
  import opened ServerTheorems
  import Q = JobQueue
  import G = DbGate
  import W = WriteLock
  import Z = Admission

  /** The slave is serving a job that went through admission. */
  predicate Admitted(slave: Slave) {
    slave.Serving? && NeedsAdmission(slave.job.op)
  }

  predicate Serves(slave: Slave, fd: int) {
    Admitted(slave) && slave.job.fd == fd
  }

  /** Slave u has answered an unknown operation on fd and has nothing left to do for it. */
  predicate AtUnknownEnd(s: State, u: nat, fd: int) {
    u < |s.slaves| && Serves(s.slaves[u], fd) && s.slaves[u].rest == [] && !Known(s.slaves[u].job.op)
  }

  /** The last admitted job that slave u served was an unknown operation on fd. */
  ghost predicate LeftBehind(run: seq<State>, i: nat, u: nat, fd: int)
    requires i < |run|
  {
    exists j: nat :: j < i && AtUnknownEnd(run[j], u, fd)
                     && forall k :: j < k <= i ==> u < |run[k].slaves| && !Admitted(run[k].slaves[u])
  }

  /** What one step does to what slot u shows. */
  predicate SlotStep(s: State, s': State, u: nat, fd: int) {
    && u < |s.slaves| == |s.z.slots| && u < |s'.slaves| == |s'.z.slots|
    && (s'.z.slots[u].fd == fd <==>
        if Admitted(s'.slaves[u]) then s'.slaves[u].job.fd == fd
        else AtUnknownEnd(s, u, fd) || (!Admitted(s.slaves[u]) && s.z.slots[u].fd == fd))
  }

  lemma OwnSlotStep(s: State, t: nat, busy: bool, chosen: set<nat>, fd: int)
    requires SameSize(s) && SlaveEnabled(s, t, busy, chosen) && SlotOk(s.slaves[t], s.z.slots[t]) && fd != VOID_FD
    ensures SlotStep(s, SlaveMove(s, t, busy, chosen), t, fd)
  {
    OwnSlotOk(s, t, busy, chosen);
  }

  lemma NextSlotStep(s: State, s': State, u: nat, fd: int)
    requires SameSize(s) && SlotsOk(s) && Next(s, s') && u < |s.slaves| && fd != VOID_FD
    ensures SlotStep(s, s', u, fd)
  {
    var e: Event :| Enabled(s, e) && s' == Apply(s, e);
    assert SlotOk(s.slaves[u], s.z.slots[u]);
    if e.SlaveStep? {
      OnlyOwnSlot(s, e.t, e.busy, e.chosen);
      if e.t == u {
        OwnSlotStep(s, u, e.busy, e.chosen, fd);
      }
    } else {
      OthersKeepSlots(s, e);
    }
  }

  lemma LeftBehindStep(run: seq<State>, i: nat, u: nat, fd: int)
    requires 0 < i < |run| && u < |run[i].slaves|
    ensures LeftBehind(run, i, u, fd) <==>
            !Admitted(run[i].slaves[u]) && (AtUnknownEnd(run[i - 1], u, fd) || LeftBehind(run, i - 1, u, fd))
  {
    if LeftBehind(run, i, u, fd) {
      var j: nat :| j < i && AtUnknownEnd(run[j], u, fd)
                    && forall k :: j < k <= i ==> u < |run[k].slaves| && !Admitted(run[k].slaves[u]);
      assert j < i - 1 ==> LeftBehind(run, i - 1, u, fd);
    }
    if !Admitted(run[i].slaves[u]) && AtUnknownEnd(run[i - 1], u, fd) {
      assert LeftBehind(run, i, u, fd);
    }
    if !Admitted(run[i].slaves[u]) && LeftBehind(run, i - 1, u, fd) {
      var j: nat :| j < i - 1 && AtUnknownEnd(run[j], u, fd)
                    && forall k :: j < k <= i - 1 ==> u < |run[k].slaves| && !Admitted(run[k].slaves[u]);
      assert LeftBehind(run, i, u, fd);
    }
  }

  lemma NextKeepsSize(s: State, s': State)
    requires SameSize(s) && SlotsOk(s) && Next(s, s')
    ensures SameSize(s') && |s'.slaves| == |s.slaves|
  {
    var e: Event :| Enabled(s, e) && s' == Apply(s, e);
    if e.SlaveStep? {
      OnlyOwnSlot(s, e.t, e.busy, e.chosen);
    } else {
      OthersKeepSlots(s, e);
    }
  }

  /** In every state of every run a slot names a descriptor exactly if its slave is serving it, or
      last served an unknown operation on it. */
  lemma {:induction false} SlotNamesIff(run: seq<State>, i: nat, u: nat, fd: int)
    requires IsRun(run) && i < |run| && u < |run[i].slaves| && fd != VOID_FD
    ensures SameSize(run[i])
    ensures run[i].z.slots[u].fd == fd <==> Serves(run[i].slaves[u], fd) || LeftBehind(run, i, u, fd)
  {
    RunSlots(run, i);
    if i > 0 {
      RunSlots(run, i - 1);
      assert Next(run[i - 1], run[i - 1 + 1]);
      NextKeepsSize(run[i - 1], run[i]);
      SlotNamesIff(run, i - 1, u, fd);
      NextSlotStep(run[i - 1], run[i], u, fd);
      LeftBehindStep(run, i, u, fd);
    }
  }

  // ---------------------------------------------------------------- whom it keeps out

  /** A slot without an admitted job behind it never shows a signup or an ending: those codes are
      known. */
  predicate StaleIsGeneric(slave: Slave, slot: Z.Slot) {
    slot.fd != VOID_FD && !Admitted(slave) ==> slot.wop == Generic
  }

  lemma NextKeepsGeneric(s: State, s': State, u: nat)
    requires SameSize(s) && SlotsOk(s) && Next(s, s') && u < |s.slaves|
    requires StaleIsGeneric(s.slaves[u], s.z.slots[u])
    ensures SameSize(s') && u < |s'.slaves| && StaleIsGeneric(s'.slaves[u], s'.z.slots[u])
  {
    var e: Event :| Enabled(s, e) && s' == Apply(s, e);
    assert SlotOk(s.slaves[u], s.z.slots[u]);
    if e.SlaveStep? {
      OnlyOwnSlot(s, e.t, e.busy, e.chosen);
      if e.t == u {
        OwnSlotOk(s, u, e.busy, e.chosen);
      }
    } else {
      OthersKeepSlots(s, e);
    }
  }

  lemma {:induction false} RunGeneric(run: seq<State>, i: nat, u: nat)
    requires IsRun(run) && i < |run| && u < |run[i].slaves|
    ensures SameSize(run[i]) && StaleIsGeneric(run[i].slaves[u], run[i].z.slots[u])
  {
    RunSlots(run, i);
    if i > 0 {
      RunSlots(run, i - 1);
      assert Next(run[i - 1], run[i - 1 + 1]);
      NextKeepsSize(run[i - 1], run[i]);
      RunGeneric(run, i - 1, u);
      NextKeepsGeneric(run[i - 1], run[i], u);
    }
  }

  /** What slave u, in state i, keeps an operation on fd from. */
  ghost predicate StandsInTheWay(run: seq<State>, i: nat, u: nat, wop: WorkOp, fd: int)
    requires i < |run| && u < |run[i].slaves|
  {
    || (Serves(run[i].slaves[u], fd)
        && (wop == Ending || (wop == Generic && run[i].slaves[u].job.op == REGISTER_OP)))
    || (wop == Ending && LeftBehind(run, i, u, fd))
  }

  lemma ConflictIff(run: seq<State>, i: nat, u: nat, wop: WorkOp, fd: int)
    requires IsRun(run) && i < |run| && u < |run[i].slaves| && fd != VOID_FD
    ensures SameSize(run[i])
    ensures Z.Conflict(run[i].z.slots[u], wop, fd) <==> StandsInTheWay(run, i, u, wop, fd)
  {
    SlotNamesIff(run, i, u, fd);
    RunSlots(run, i);
    RunGeneric(run, i, u);
    assert SlotOk(run[i].slaves[u], run[i].z.slots[u]);
  }

  /** In every state of every run, for every kind of operation: it is admitted exactly if no other
      slave is serving a job on its descriptor that excludes it and, for an ending, none has last
      served an unknown operation on that descriptor. */
  lemma AdmittedIff(run: seq<State>, i: nat, t: nat, wop: WorkOp, fd: int)
    requires IsRun(run) && i < |run| && t < |run[i].slaves| && fd != VOID_FD
    ensures SameSize(run[i])
    ensures Z.Admissible(run[i].z.slots, t, wop, fd) <==>
            forall u :: 0 <= u < |run[i].slaves| && u != t ==> !StandsInTheWay(run, i, u, wop, fd)
  {
    RunSlots(run, i);
    forall u | 0 <= u < |run[i].slaves|
      ensures Z.Conflict(run[i].z.slots[u], wop, fd) <==> StandsInTheWay(run, i, u, wop, fd)
    {
      ConflictIff(run, i, u, wop, fd);
    }
  }

  /** An ending is refused exactly while another slave is serving an admitted job on its descriptor,
      or was last serving an unknown operation there. */
  lemma EndingRefusedIff(run: seq<State>, i: nat, t: nat, fd: int)
    requires IsRun(run) && i < |run| && t < |run[i].slaves| && fd != VOID_FD
    ensures !Z.Admissible(run[i].z.slots, t, Ending, fd) <==>
            exists u :: 0 <= u < |run[i].slaves| && u != t
                        && (Serves(run[i].slaves[u], fd) || LeftBehind(run, i, u, fd))
  {
    AdmittedIff(run, i, t, Ending, fd);
    if u :| 0 <= u < |run[i].slaves| && u != t && StandsInTheWay(run, i, u, Ending, fd) {
      assert Serves(run[i].slaves[u], fd) || LeftBehind(run, i, u, fd);
    }
    if u :| 0 <= u < |run[i].slaves| && u != t && (Serves(run[i].slaves[u], fd) || LeftBehind(run, i, u, fd)) {
      assert StandsInTheWay(run, i, u, Ending, fd);
    }
  }

  // ---------------------------------------------------------------- before the first unknown operation

  lemma NextKeepsDropped(s: State, s': State)
    requires SameSize(s) && Next(s, s')
    ensures s.books.dropped <= s'.books.dropped
  {
  }

  lemma DroppedGrows(run: seq<State>, i: nat)
    requires IsRun(run) && i + 1 < |run|
    ensures run[i].books.dropped <= run[i + 1].books.dropped
  {
    RunSlots(run, i);
    assert Next(run[i], run[i + 1]);
    NextKeepsDropped(run[i], run[i + 1]);
  }

  function DroppedIn(run: seq<State>): (r: seq<multiset<int>>)
    ensures |r| == |run| && forall i :: 0 <= i < |r| ==> r[i] == run[i].books.dropped
  {
    seq(|run|, i requires 0 <= i < |run| => run[i].books.dropped)
  }

  lemma {:induction false} Ascending(bags: seq<multiset<int>>, j: nat, i: nat)
    requires j <= i < |bags| && forall k :: 0 < k < |bags| ==> bags[k - 1] <= bags[k]
    ensures bags[j] <= bags[i]
  {
    if j < i {
      Ascending(bags, j, i - 1);
      assert bags[i - 1] <= bags[i];
    }
  }

  lemma DroppedStays(run: seq<State>, j: nat, i: nat)
    requires IsRun(run) && j <= i < |run|
    ensures run[j].books.dropped <= run[i].books.dropped
  {
    var bags := DroppedIn(run);
    forall k | 0 < k < |bags| ensures bags[k - 1] <= bags[k] {
      DroppedGrows(run, k - 1);
    }
    Ascending(bags, j, i);
  }

  lemma UnknownEndDrops(s: State, s': State, u: nat, fd: int)
    requires SameSize(s) && SlotsOk(s) && Next(s, s') && AtUnknownEnd(s, u, fd)
    requires u < |s'.slaves| && !Admitted(s'.slaves[u])
    ensures s'.books.dropped != multiset{}
  {
    var e: Event :| Enabled(s, e) && s' == Apply(s, e);
    if e.SlaveStep? {
      OnlyOwnSlot(s, e.t, e.busy, e.chosen);
      if e.t == u {
        assert AtEnd(s, u);
        assert s.slaves[u].job.id in s'.books.dropped;
      }
    } else {
      OthersKeepSlots(s, e);
    }
  }

  lemma LeftBehindDropped(run: seq<State>, i: nat, u: nat, fd: int)
    requires IsRun(run) && i < |run| && LeftBehind(run, i, u, fd)
    ensures run[i].books.dropped != multiset{}
  {
    var j: nat :| j < i && AtUnknownEnd(run[j], u, fd)
                  && forall k :: j < k <= i ==> u < |run[k].slaves| && !Admitted(run[k].slaves[u]);
    DropsAt(run, j, u, fd);
    DroppedStays(run, j + 1, i);
    if run[i].books.dropped == multiset{} {
      NothingBefore(run[j + 1].books.dropped, run[i].books.dropped);
    }
  }

  lemma DropsAt(run: seq<State>, j: nat, u: nat, fd: int)
    requires IsRun(run) && j + 1 < |run| && AtUnknownEnd(run[j], u, fd)
    requires u < |run[j + 1].slaves| && !Admitted(run[j + 1].slaves[u])
    ensures run[j + 1].books.dropped != multiset{}
  {
    RunSlots(run, j);
    assert Next(run[j], run[j + 1]);
    UnknownEndDrops(run[j], run[j + 1], u, fd);
  }

  lemma NothingBefore(a: multiset<int>, b: multiset<int>)
    requires a <= b && b == multiset{}
    ensures a == multiset{}
  {
  }

  /** As long as no unknown operation has been served, an ending is refused exactly while another
      slave is serving an admitted job on its descriptor. */
  lemma RefusedWhileServed(run: seq<State>, i: nat, t: nat, fd: int)
    requires IsRun(run) && i < |run| && t < |run[i].slaves| && fd != VOID_FD
    requires run[i].books.dropped == multiset{}
    ensures !Z.Admissible(run[i].z.slots, t, Ending, fd) <==>
            exists u :: 0 <= u < |run[i].slaves| && u != t && Serves(run[i].slaves[u], fd)
  {
    EndingRefusedIff(run, i, t, fd);
    forall u | 0 <= u < |run[i].slaves| ensures !LeftBehind(run, i, u, fd) {
      if LeftBehind(run, i, u, fd) {
        LeftBehindDropped(run, i, u, fd);
      }
    }
  }

  // ---------------------------------------------------------------- an ending refused for nobody's sake

  const CLIENT: int := 7

  /** An unknown operation; serving it sends the error reply. */
  const STRANGE: Job := Job(0, 15, CLIENT, [Send(CLIENT)])
  const GOODBYE: Job := Job(1, DISCONNECT_OP, CLIENT, [Close])

  lemma Takes(run: seq<State>, e: Event, s: State) returns (longer: seq<State>)
    requires IsRun(run) && Enabled(run[|run| - 1], e) && s == Apply(run[|run| - 1], e)
    ensures IsRun(longer) && longer[|longer| - 1] == s
  {
    assert Next(run[|run| - 1], s);
    longer := run + [s];
  }

  predicate ReadyToPop(s: State, t: nat) {
    && SameSize(s) && t < |s.slaves| && s.slaves[t] == Popping && s.q.pcs[t] == Q.Idle
    && s.q.holder.None? && !s.q.term && s.q.jobs != []
  }

  /** The state s while slave t is at pc inside the pop. */
  function At(s: State, t: nat, holds: bool, pc: Q.Pc): State
    requires ReadyToPop(s, t)
  {
    s.(q := s.q.(holder := if holds then Some(t) else None, pcs := s.q.pcs[t := pc]))
  }

  /** Slave t takes the head of the queue. */
  function HasPopped(s: State, t: nat): State
    requires ReadyToPop(s, t)
  {
    s.(q := s.q.(jobs := s.q.jobs[1..], removed := s.q.removed + [s.q.jobs[0]]),
       slaves := s.slaves[t := Got(s.q.jobs[0])])
  }

  lemma PopStep(run: seq<State>, s: State, t: nat, holds: bool, pc: Q.Pc, holds': bool, pc': Q.Pc)
    returns (longer: seq<State>)
    requires IsRun(run) && ReadyToPop(s, t) && run[|run| - 1] == At(s, t, holds, pc)
    requires PopEnabled(At(s, t, holds, pc), t) && PopMove(At(s, t, holds, pc), t) == At(s, t, holds', pc')
    ensures IsRun(longer) && longer[|longer| - 1] == At(s, t, holds', pc')
  {
    longer := Takes(run, SlaveStep(t, false, {}), At(s, t, holds', pc'));
  }

  lemma Pops(run: seq<State>, t: nat) returns (longer: seq<State>)
    requires IsRun(run) && ReadyToPop(run[|run| - 1], t)
    ensures IsRun(longer) && longer[|longer| - 1] == HasPopped(run[|run| - 1], t)
  {
    var s := run[|run| - 1];
    assert At(s, t, false, Q.Idle) == s;
    longer := PopStep(run, s, t, false, Q.Idle, false, Q.CheckFlag);
    longer := PopStep(longer, s, t, false, Q.CheckFlag, false, Q.AtLock);
    longer := PopStep(longer, s, t, false, Q.AtLock, true, Q.Testing);
    longer := PopStep(longer, s, t, true, Q.Testing, true, Q.Rechecking);
    longer := PopStep(longer, s, t, true, Q.Rechecking, true, Q.Taking);
    longer := TakesHead(longer, s, t);
  }

  lemma TakesHead(run: seq<State>, s: State, t: nat) returns (longer: seq<State>)
    requires IsRun(run) && ReadyToPop(s, t) && run[|run| - 1] == At(s, t, true, Q.Taking)
    ensures IsRun(longer) && longer[|longer| - 1] == HasPopped(s, t)
  {
    var job := s.q.jobs[0];
    var a := s.(q := s.q.(jobs := s.q.jobs[1..], removed := s.q.removed + [job], pcs := s.q.pcs[t := Q.Returned(job)]));
    longer := Takes(run, SlaveStep(t, false, {}), a);
    assert a.q.pcs[t := Q.Idle] == s.q.pcs;
    longer := Takes(longer, SlaveStep(t, false, {}), HasPopped(s, t));
  }

  /** Two slaves. Slave 0 is served the unknown operation from the client and goes back to the queue;
      the client hangs up, and slave 1 must put its disconnection back, although nobody serves the
      client. */
  lemma RefusedForNobody() returns (run: seq<State>)
    ensures IsRun(run)
    ensures var last := run[|run| - 1];
      && SameSize(last) && last.slaves == [Popping, Requeueing(GOODBYE)]
      && !Z.Admissible(last.z.slots, 1, Ending, CLIENT)
  {
    run := StrangeArrives();
    run := Pops(run, 0);
    run := AnswersStrange(run);
    run := HangsUp(run);
    run := Pops(run, 1);
    run := IsRefused(run);
  }

  /** The queue after the first `removed` of these jobs have been taken. */
  function QueueOf(pushed: seq<Job>, removed: nat): Q.Queue
    requires removed <= |pushed|
  {
    Q.Queue(pushed[removed..], false, false, None, [Q.Idle, Q.Idle], Q.FIdle, false, pushed, pushed[..removed])
  }

  function Scene(q: Q.Queue, slot: Z.Slot, clock: nat, slaves: seq<Slave>, books: Books): State {
    State(q, Z.Zone([slot, Z.Slot(Generic, VOID_FD, 0)], clock),
          G.Gate(G.Noop, 0, false, None, [G.Out, G.Out]),
          W.Lock(W.INTENDED, [VOID_FD, VOID_FD], [W.Free, W.Free]), slaves, Running, books)
  }

  const EMPTY_SLOT: Z.Slot := Z.Slot(Generic, VOID_FD, 0)
  const STALE_SLOT: Z.Slot := Z.Slot(Generic, CLIENT, 0)

  function BooksOf(created: nat, dropped: multiset<int>, active: set<int>): Books {
    Books(created, multiset{}, dropped, active, {CLIENT}, multiset{}, multiset{CLIENT}, multiset{})
  }

  lemma StrangeArrives() returns (run: seq<State>)
    ensures IsRun(run)
    ensures run[|run| - 1] ==
            Scene(QueueOf([STRANGE], 0), EMPTY_SLOT, 0, [Popping, Popping], BooksOf(1, multiset{}, {CLIENT}))
  {
    var none := Books(0, multiset{}, multiset{}, {}, {}, multiset{}, multiset{}, multiset{});
    var a := Scene(QueueOf([], 0), EMPTY_SLOT, 0, [Popping, Popping], none);
    assert Init(a);
    run := [a];
    var b := Scene(QueueOf([], 0), EMPTY_SLOT, 0, [Popping, Popping], BooksOf(0, multiset{}, {CLIENT}));
    run := Takes(run, Accept(CLIENT), b);
    assert Q.WaitSet(b.q.pcs) == {} && Q.Wake(b.q.pcs, {}) == b.q.pcs;
    var c := Scene(QueueOf([STRANGE], 0), EMPTY_SLOT, 0, [Popping, Popping], BooksOf(1, multiset{}, {CLIENT}));
    run := Takes(run, Receive(STRANGE, {}), c);
  }

  lemma AnswersStrange(run: seq<State>) returns (longer: seq<State>)
    requires IsRun(run)
    requires run[|run| - 1] ==
             Scene(QueueOf([STRANGE], 1), EMPTY_SLOT, 0, [Got(STRANGE), Popping], BooksOf(1, multiset{}, {CLIENT}))
    ensures IsRun(longer)
    ensures longer[|longer| - 1] ==
            Scene(QueueOf([STRANGE], 1), STALE_SLOT, 1, [Popping, Popping], BooksOf(1, multiset{0}, {CLIENT}))
  {
    var books := BooksOf(1, multiset{}, {CLIENT});
    var a := Scene(QueueOf([STRANGE], 1), STALE_SLOT, 1, [Serving(STRANGE, [Send(CLIENT)]), Popping], books);
    longer := Takes(run, SlaveStep(0, false, {}), a);
    longer := SendsReply(longer);
    var b := Scene(QueueOf([STRANGE], 1), STALE_SLOT, 1, [Popping, Popping], BooksOf(1, multiset{0}, {CLIENT}));
    longer := Takes(longer, SlaveStep(0, false, {}), b);
  }

  lemma SendsReply(run: seq<State>) returns (longer: seq<State>)
    requires IsRun(run)
    requires run[|run| - 1] == Scene(QueueOf([STRANGE], 1), STALE_SLOT, 1, [Serving(STRANGE, [Send(CLIENT)]), Popping],
                                     BooksOf(1, multiset{}, {CLIENT}))
    ensures IsRun(longer)
    ensures longer[|longer| - 1] == Scene(QueueOf([STRANGE], 1), STALE_SLOT, 1, [Serving(STRANGE, []), Popping],
                                          BooksOf(1, multiset{}, {CLIENT}))
  {
    var s := run[|run| - 1];
    var a := s.(w := W.Lock(W.INTENDED, [VOID_FD, VOID_FD], [W.Requesting(CLIENT), W.Free]));
    longer := Takes(run, SlaveStep(0, false, {}), a);
    var b := s.(w := W.Lock(W.INTENDED, [CLIENT, VOID_FD], [W.Writing(CLIENT), W.Free]));
    longer := Takes(longer, SlaveStep(0, false, {}), b);
    longer := ReleasesReply(longer, s);
  }

  lemma ReleasesReply(run: seq<State>, s: State) returns (longer: seq<State>)
    requires IsRun(run)
    requires s == Scene(QueueOf([STRANGE], 1), STALE_SLOT, 1, [Serving(STRANGE, [Send(CLIENT)]), Popping],
                        BooksOf(1, multiset{}, {CLIENT}))
    requires run[|run| - 1] == s.(w := W.Lock(W.INTENDED, [CLIENT, VOID_FD], [W.Writing(CLIENT), W.Free]))
    ensures IsRun(longer)
    ensures longer[|longer| - 1] == Scene(QueueOf([STRANGE], 1), STALE_SLOT, 1, [Serving(STRANGE, []), Popping],
                                          BooksOf(1, multiset{}, {CLIENT}))
  {
    var w := run[|run| - 1].w;
    assert W.WakeAll(w.modes)[0 := W.Free] == s.w.modes && w.table[0 := VOID_FD] == s.w.table;
    assert [Send(CLIENT)][1..] == [];
    longer := Takes(run, SlaveStep(0, false, {}), s.(slaves := [Serving(STRANGE, []), Popping]));
  }

  lemma HangsUp(run: seq<State>) returns (longer: seq<State>)
    requires IsRun(run)
    requires run[|run| - 1] ==
             Scene(QueueOf([STRANGE], 1), STALE_SLOT, 1, [Popping, Popping], BooksOf(1, multiset{0}, {CLIENT}))
    ensures IsRun(longer)
    ensures longer[|longer| - 1] ==
            Scene(QueueOf([STRANGE, GOODBYE], 1), STALE_SLOT, 1, [Popping, Popping], BooksOf(2, multiset{0}, {}))
  {
    var q := run[|run| - 1].q;
    assert Q.WaitSet(q.pcs) == {} && Q.Wake(q.pcs, {}) == q.pcs;
    var a := Scene(QueueOf([STRANGE, GOODBYE], 1), STALE_SLOT, 1, [Popping, Popping], BooksOf(2, multiset{0}, {}));
    longer := Takes(run, HangUp(GOODBYE, {}), a);
  }

  lemma IsRefused(run: seq<State>) returns (longer: seq<State>)
    requires IsRun(run)
    requires run[|run| - 1] ==
             Scene(QueueOf([STRANGE, GOODBYE], 2), STALE_SLOT, 1, [Popping, Got(GOODBYE)], BooksOf(2, multiset{0}, {}))
    ensures IsRun(longer)
    ensures longer[|longer| - 1] == run[|run| - 1].(slaves := [Popping, Requeueing(GOODBYE)])
    ensures !Z.Admissible(longer[|longer| - 1].z.slots, 1, Ending, CLIENT)
  {
    var s := run[|run| - 1];
    assert Z.Conflict(s.z.slots[0], Ending, CLIENT);
    longer := Takes(run, SlaveStep(1, false, {}), s.(slaves := [Popping, Requeueing(GOODBYE)]));
  }
}
