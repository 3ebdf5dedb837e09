/** What the conservation laws mean, over all runs of the server. */
module ServerTheorems {
  import opened Prelude
  import opened Jobs
  import opened Tokens
  import opened Server
  import opened ServerSafety
  import Q = JobQueue
  import Z = Admission

  ghost predicate Next(s: State, s': State) {
    exists e: Event :: Enabled(s, e) && s' == Apply(s, e)
  }

  ghost predicate IsRun(run: seq<State>) {
    && |run| > 0 && Init(run[0])
    && forall i :: 0 <= i < |run| - 1 ==> Next(run[i], run[i + 1])
  }

  lemma EventAt(run: seq<State>, i: nat) returns (e: Event)
    requires IsRun(run) && i + 1 < |run|
    ensures Enabled(run[i], e) && run[i + 1] == Apply(run[i], e)
  {
    assert Next(run[i], run[i + 1]);
    e :| Enabled(run[i], e) && run[i + 1] == Apply(run[i], e);
  }

  lemma NextKeepsInv(s: State, s': State)
    requires Inv(s) && Next(s, s')
    ensures Inv(s')
  {
    var e: Event :| Enabled(s, e) && s' == Apply(s, e);
    StepKeepsInv(s, e);
  }

  lemma {:induction false} RunInv(run: seq<State>, i: nat)
    requires IsRun(run) && i < |run|
    ensures Inv(run[i])
  {
    if i == 0 {
      InitInv(run[0]);
    } else {
      RunInv(run, i - 1);
      assert Next(run[i - 1], run[i - 1 + 1]);
      NextKeepsInv(run[i - 1], run[i]);
    }
  }

  // ---------------------------------------------------------------- messages

  /** Where a message can be. */
  datatype Place = QueueSlot(k: nat) | HandOf(t: nat) | Released | Lost

  predicate IsAt(s: State, x: nat, p: Place)
    requires SameSize(s)
  {
    match p
    case QueueSlot(k) => k < |s.q.jobs| && s.q.jobs[k].id == x
    case HandOf(t) => t < |s.slaves| && Hands(s)[t].Item? && Hands(s)[t].job.id == x
    case Released => x in s.books.freed
    case Lost => x in s.books.dropped
  }

  lemma Count(s: State, x: nat)
    requires SameSize(s) && Laws(s) && x < s.books.nextId
    ensures Total(Items(s.q.jobs), MessageToken)[x] + Total(Hands(s), MessageToken)[x]
            + s.books.freed[x] + s.books.dropped[x] == 1
  {
    CreatedOnce(s.books.nextId, x);
    assert Created(s.books.nextId)[x] == (Owned(s, MessageToken) + s.books.freed + s.books.dropped)[x];
  }

  lemma SomewhereAt(s: State, x: nat) returns (p: Place)
    requires SameSize(s) && Laws(s) && x < s.books.nextId
    ensures IsAt(s, x, p)
  {
    Count(s, x);
    if x in s.books.freed {
      p := Released;
    } else if x in s.books.dropped {
      p := Lost;
    } else if x in Total(Hands(s), MessageToken) {
      var t := TotalFrom(Hands(s), x, MessageToken);
      p := HandOf(t);
    } else {
      var k := TotalFrom(Items(s.q.jobs), x, MessageToken);
      p := QueueSlot(k);
    }
  }

  /** Being at a place shows in the count of that place. */
  lemma PlaceCounts(s: State, x: nat, p: Place)
    requires SameSize(s) && IsAt(s, x, p)
    ensures p.QueueSlot? ==> Total(Items(s.q.jobs), MessageToken)[x] >= 1
    ensures p.HandOf? ==> Total(Hands(s), MessageToken)[x] >= 1
    ensures p.Released? ==> s.books.freed[x] >= 1
    ensures p.Lost? ==> s.books.dropped[x] >= 1
  {
    if p.QueueSlot? {
      TotalHas(Items(s.q.jobs), p.k, MessageToken);
      assert MessageToken(Items(s.q.jobs)[p.k])[x] == 1;
    } else if p.HandOf? {
      TotalHas(Hands(s), p.t, MessageToken);
      assert MessageToken(Hands(s)[p.t])[x] == 1;
    }
  }

  lemma TwoSpotsCountTwice(items: seq<Item>, j: nat, k: nat, x: int, f: Item -> multiset<int>)
    requires j < |items| && k < |items| && j != k && x in f(items[j]) && x in f(items[k])
    ensures Total(items, f)[x] >= 2
  {
    TotalHasTwo(items, if j < k then j else k, if j < k then k else j, f);
    assert (f(items[j]) + f(items[k]))[x] >= 2;
  }

  lemma OnlyOnePlace(s: State, x: nat, p: Place, p': Place)
    requires SameSize(s) && Laws(s) && x < s.books.nextId && IsAt(s, x, p) && IsAt(s, x, p')
    ensures p == p'
  {
    Count(s, x);
    PlaceCounts(s, x, p);
    PlaceCounts(s, x, p');
    if p.QueueSlot? && p'.QueueSlot? && p.k != p'.k {
      TwoSpotsCountTwice(Items(s.q.jobs), p.k, p'.k, x, MessageToken);
    }
    if p.HandOf? && p'.HandOf? && p.t != p'.t {
      TwoSpotsCountTwice(Hands(s), p.t, p'.t, x, MessageToken);
    }
  }

  /** In every state of every run, across pushes, pops, requeues and the shutdown drain, each
      message ever created is in exactly one place: one position of the queue, one slave's
      hand, released, or lost to the unknown-operation branch. */
  lemma MessageConservation(run: seq<State>, i: nat, x: nat)
    requires IsRun(run) && i < |run| && x < run[i].books.nextId
    ensures SameSize(run[i])
    ensures exists p :: IsAt(run[i], x, p)
    ensures forall p, p' :: IsAt(run[i], x, p) && IsAt(run[i], x, p') ==> p == p'
  {
    RunInv(run, i);
    var s := run[i];
    var p := SomewhereAt(s, x);
    forall p, p' | IsAt(s, x, p) && IsAt(s, x, p') ensures p == p' {
      OnlyOnePlace(s, x, p, p');
    }
  }

  // ---------------------------------------------------------------- connections

  /** A disconnection for fd whose close has not been executed yet. */
  predicate PendingIn(i: Item, fd: int) {
    i.Item? && Close in i.rest && i.job.fd == fd
  }

  lemma DutyIsUnique(s: State, fd: int)
    requires SameSize(s) && Laws(s)
    ensures Total(Items(s.q.jobs), CloseToken)[fd] + Total(Hands(s), CloseToken)[fd]
            + (if fd in s.books.active then 1 else 0) + s.books.leaked[fd] == if fd in s.books.open then 1 else 0
  {
    var b := s.books;
    assert multiset(b.open)[fd] == (Owned(s, CloseToken) + multiset(b.active) + b.leaked)[fd];
  }

  lemma DutyExcludesOthers(s: State, t: nat, fd: int)
    requires SameSize(s) && Laws(s) && t < |s.slaves| && PendingIn(Hands(s)[t], fd)
    ensures fd in s.books.open && fd !in s.books.active
    ensures Total(Items(s.q.jobs), CloseToken)[fd] == 0 && Total(Hands(s), CloseToken)[fd] == 1
  {
    DutyIsUnique(s, fd);
    TotalHas(Hands(s), t, CloseToken);
    assert CloseToken(Hands(s)[t])[fd] == 1;
  }

  lemma PendingCounts(i: Item, fd: int)
    ensures PendingIn(i, fd) <==> CloseToken(i)[fd] == 1
  {
  }

  lemma NotInQueue(s: State, k: nat, fd: int)
    requires SameSize(s) && k < |s.q.jobs| && Total(Items(s.q.jobs), CloseToken)[fd] == 0
    ensures !PendingIn(Items(s.q.jobs)[k], fd)
  {
    TotalHas(Items(s.q.jobs), k, CloseToken);
    PendingCounts(Items(s.q.jobs)[k], fd);
  }

  lemma OnePendingHand(s: State, t: nat, u: nat, fd: int)
    requires SameSize(s) && t < |s.slaves| && u < |s.slaves| && Total(Hands(s), CloseToken)[fd] == 1
    requires PendingIn(Hands(s)[t], fd) && PendingIn(Hands(s)[u], fd)
    ensures u == t
  {
    if u != t {
      TwoSpotsCountTwice(Hands(s), t, u, fd, CloseToken);
    }
  }

  lemma OneDuty(s: State, t: nat, fd: int)
    requires SameSize(s) && Laws(s) && t < |s.slaves| && PendingIn(Hands(s)[t], fd)
    ensures fd in s.books.open && fd !in s.books.active
    ensures forall u :: 0 <= u < |s.slaves| && PendingIn(Hands(s)[u], fd) ==> u == t
    ensures forall k :: 0 <= k < |s.q.jobs| ==> !PendingIn(Items(s.q.jobs)[k], fd)
  {
    DutyExcludesOthers(s, t, fd);
    forall u | 0 <= u < |s.slaves| && PendingIn(Hands(s)[u], fd) ensures u == t {
      OnePendingHand(s, t, u, fd);
    }
    forall k | 0 <= k < |s.q.jobs| ensures !PendingIn(Items(s.q.jobs)[k], fd) {
      NotInQueue(s, k, fd);
    }
  }

  lemma LetGo(s: State, fd: int)
    requires fd !in s.books.active
    ensures forall job: Job, chosen: set<nat> :: job.fd == fd ==>
      !Enabled(s, Receive(job, chosen)) && !Enabled(s, HangUp(job, chosen))
  {
  }

  lemma RunLaws(run: seq<State>, i: nat)
    requires IsRun(run) && i < |run|
    ensures SameSize(run[i]) && Laws(run[i])
  {
    RunInv(run, i);
  }

  /** Queue and slaves together hold at most one disconnection per descriptor that is still to be
      executed; while there is one, the core has let go of the descriptor and enqueues nothing
      more for it. */
  lemma AtMostOneDisconnect(run: seq<State>, i: nat, fd: int)
    requires IsRun(run) && i < |run|
    ensures SameSize(run[i])
    ensures var pending := Total(Items(run[i].q.jobs), CloseToken)[fd] + Total(Hands(run[i]), CloseToken)[fd];
      && pending <= 1
      && (pending == 1 ==> fd in run[i].books.open && forall job: Job, chosen: set<nat> :: job.fd == fd ==>
            !Enabled(run[i], Receive(job, chosen)) && !Enabled(run[i], HangUp(job, chosen)))
  {
    RunLaws(run, i);
    DutyIsUnique(run[i], fd);
    if fd !in run[i].books.active {
      LetGo(run[i], fd);
    }
  }

  /** While a slave holds a disconnection for a descriptor that it has not closed yet, the core
      enqueues nothing for that descriptor, no other disconnection for it exists anywhere, and the
      descriptor is still open. */
  lemma OneDisconnectPerAccept(run: seq<State>, i: nat, t: nat, fd: int)
    requires IsRun(run) && i < |run| && SameSize(run[i]) && t < |run[i].slaves|
    requires PendingIn(Hands(run[i])[t], fd)
    ensures fd in run[i].books.open
    ensures forall job: Job, chosen: set<nat> :: job.fd == fd ==>
      !Enabled(run[i], Receive(job, chosen)) && !Enabled(run[i], HangUp(job, chosen))
    ensures forall u :: 0 <= u < |run[i].slaves| && PendingIn(Hands(run[i])[u], fd) ==> u == t
    ensures forall k :: 0 <= k < |run[i].q.jobs| ==> !PendingIn(Items(run[i].q.jobs)[k], fd)
  {
    RunLaws(run, i);
    OneDuty(run[i], t, fd);
    LetGo(run[i], fd);
  }

  /** The slave that executes `close` closes an open connection that the core has let go of, so
      no connection is closed twice: per descriptor, accepts exceed closes by one exactly while
      the descriptor is open. */
  lemma ClosedAtMostOncePerAccept(run: seq<State>, i: nat, fd: int)
    requires IsRun(run) && i < |run|
    ensures run[i].books.accepts[fd] == run[i].books.closes[fd] + if fd in run[i].books.open then 1 else 0
    ensures SameSize(run[i])
    ensures forall t :: 0 <= t < |run[i].slaves| && AtClose(run[i], t) ==>
      run[i].slaves[t].job.fd in run[i].books.open && run[i].slaves[t].job.fd !in run[i].books.active
  {
    RunInv(run, i);
    var b := run[i].books;
    assert (b.closes + multiset(b.open))[fd] == b.closes[fd] + if fd in b.open then 1 else 0;
    forall t | 0 <= t < |run[i].slaves| && AtClose(run[i], t)
      ensures run[i].slaves[t].job.fd in b.open && run[i].slaves[t].job.fd !in b.active
    {
      CloseIsEarned(run[i], t);
    }
  }

  // ---------------------------------------------------------------- one component at a time

  /** No slave is ever inside two of queue, gate and write lock at once. */
  lemma NeverTwoLocks(run: seq<State>, i: nat, t: nat)
    requires IsRun(run) && i < |run| && SameSize(run[i]) && t < |run[i].slaves|
    ensures run[i].g.pcs[t].Out? || run[i].w.modes[t].Free?
    ensures run[i].q.pcs[t].Idle? || (run[i].g.pcs[t].Out? && run[i].w.modes[t].Free?)
  {
    RunInv(run, i);
    var s := run[i];
    assert StageOk(s.slaves[t], s.q.pcs[t], s.g.pcs[t], s.w.modes[t]);
  }

  // ---------------------------------------------------------------- admission

  /** The slot of a slave serving an admitted job shows that job. */
  predicate SlotOk(slave: Slave, slot: Z.Slot) {
    slave.Serving? && NeedsAdmission(slave.job.op) ==>
      slot.fd == slave.job.fd && slot.wop == WorkOpOf(slave.job.op)
  }

  predicate SlotsOk(s: State)
    requires SameSize(s)
  {
    forall t :: 0 <= t < |s.slaves| ==> SlotOk(s.slaves[t], s.z.slots[t])
  }

  /** A slave changes its own slot only. */
  lemma OnlyOwnSlot(s: State, t: nat, busy: bool, chosen: set<nat>)
    requires SameSize(s) && SlaveEnabled(s, t, busy, chosen)
    ensures var s' := SlaveMove(s, t, busy, chosen);
      && SameSize(s') && |s'.slaves| == |s.slaves|
      && forall u :: 0 <= u < |s.slaves| && u != t ==> s'.slaves[u] == s.slaves[u] && s'.z.slots[u] == s.z.slots[u]
  {
  }

  lemma OwnSlotOk(s: State, t: nat, busy: bool, chosen: set<nat>)
    requires SameSize(s) && SlaveEnabled(s, t, busy, chosen) && SlotOk(s.slaves[t], s.z.slots[t])
    ensures var s' := SlaveMove(s, t, busy, chosen);
      SameSize(s') && |s'.slaves| == |s.slaves| && SlotOk(s'.slaves[t], s'.z.slots[t])
  {
  }

  lemma OthersKeepSlots(s: State, e: Event)
    requires Enabled(s, e) && !e.SlaveStep?
    ensures SameSize(Apply(s, e)) && Apply(s, e).z == s.z && Apply(s, e).slaves == s.slaves
  {
  }

  lemma StepKeepsSlots(s: State, e: Event)
    requires SameSize(s) && SlotsOk(s) && Enabled(s, e)
    ensures SameSize(Apply(s, e)) && SlotsOk(Apply(s, e))
  {
    if e.SlaveStep? {
      OnlyOwnSlot(s, e.t, e.busy, e.chosen);
      OwnSlotOk(s, e.t, e.busy, e.chosen);
    } else {
      OthersKeepSlots(s, e);
    }
  }

  lemma NextKeepsSlots(s: State, s': State)
    requires SameSize(s) && SlotsOk(s) && Next(s, s')
    ensures SameSize(s') && SlotsOk(s')
  {
    var e: Event :| Enabled(s, e) && s' == Apply(s, e);
    StepKeepsSlots(s, e);
  }

  lemma {:induction false} RunSlots(run: seq<State>, i: nat)
    requires IsRun(run) && i < |run|
    ensures SameSize(run[i]) && SlotsOk(run[i])
  {
    if i > 0 {
      RunSlots(run, i - 1);
      assert Next(run[i - 1], run[i - 1 + 1]);
      NextKeepsSlots(run[i - 1], run[i]);
    }
  }

  lemma TwoEndings(z: Z.Zone, t: nat, u: nat)
    requires Z.Inv(z) && t < |z.slots| && u < |z.slots|
    requires z.slots[t].fd == z.slots[u].fd != VOID_FD && z.slots[t].wop == z.slots[u].wop == Ending
    ensures t == u
  {
  }

  predicate EndsSession(op: int) {
    op == UNREGISTER_OP || op == DISCONNECT_OP
  }

  lemma EndingShows(run: seq<State>, i: nat, t: nat)
    requires IsRun(run) && i < |run| && t < |run[i].slaves|
    requires run[i].slaves[t].Serving? && EndsSession(run[i].slaves[t].job.op)
    ensures SameSize(run[i]) && Z.Inv(run[i].z)
    ensures run[i].z.slots[t].fd == run[i].slaves[t].job.fd >= 0 && run[i].z.slots[t].wop == Ending
  {
    RunInv(run, i);
    RunSlots(run, i);
    var s := run[i];
    assert SlotOk(s.slaves[t], s.z.slots[t]);
    assert ItemOk(Hand(s.slaves[t], s.q.pcs[t]));
  }

  /** At most one slave at a time serves a disconnection or an unregistration on a descriptor. */
  lemma OneEndingServed(run: seq<State>, i: nat, t: nat, u: nat)
    requires IsRun(run) && i < |run| && t < |run[i].slaves| && u < |run[i].slaves|
    requires run[i].slaves[t].Serving? && run[i].slaves[u].Serving?
    requires EndsSession(run[i].slaves[t].job.op) && EndsSession(run[i].slaves[u].job.op)
    requires run[i].slaves[t].job.fd == run[i].slaves[u].job.fd
    ensures t == u
  {
    EndingShows(run, i, t);
    EndingShows(run, i, u);
    TwoEndings(run[i].z, t, u);
  }
}
