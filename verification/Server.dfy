/**
 The running server: one core and any number of slaves over the queue, the admission table,
 the database gate and the write lock. A slave pops a job, is admitted or puts it back, serves
 it one statement or one send at a time, and releases it; the core accepts connections, queues
 requests and disconnections, and at the end shuts everything down in the order of `stop_core`.

 A step of the server is a step of one component taken by one thread, or a move of the slave's
 own code between two components.
 */
module Server {
  import opened Prelude
  import opened Jobs
  import opened Tokens
  import Q = JobQueue
  import G = DbGate
  import W = WriteLock
  import Z = Admission

  datatype Slave =
    | Popping                              // inside queue_pop, or about to call it
    | Got(job: Job)                        // popped, not yet admitted
    | Requeueing(job: Job)                 // refused, about to push it back
    | Serving(job: Job, rest: seq<Act>)    // what is left of the plan
    | Freeing(job: Job)                    // slot cleaned, about to free the message
    | Done

  /** Where the core is: serving, inside `queue_free`, at the two statements of `terminate_db`,
      or joining the slaves. */
  datatype Core = Running | FreeingQueue | SettingFlag | Broadcasting | Joining

  /** What has been created, opened, closed and released so far. */
  datatype Books = Books(
    nextId: nat,                 // messages created
    freed: multiset<int>,        // messages released
    dropped: multiset<int>,      // messages forgotten by the unknown-operation branch
    active: set<int>,            // descriptors the core selects on
    open: set<int>,              // accepted and not closed
    leaked: multiset<int>,       // descriptors whose disconnection was drained unserved
    accepts: multiset<int>, closes: multiset<int>)   // per descriptor

  datatype State = State(
    q: Q.Queue, z: Z.Zone, g: G.Gate, w: W.Lock,
    slaves: seq<Slave>, core: Core, books: Books)

  datatype Event =
    | Accept(fd: int)
    | Receive(job: Job, chosen: set<nat>)
    | HangUp(job: Job, chosen: set<nat>)
    | CloseAll
    | CoreStop
    | SlaveStep(t: nat, busy: bool, chosen: set<nat>)
    | Spurious(t: nat)

  ghost predicate Init(s: State) {
    && Q.Init(s.q) && Z.Init(s.z) && G.Init(s.g) && W.Init(s.w)
    && |s.q.pcs| == |s.z.slots| == |s.g.pcs| == |s.w.modes| == |s.slaves|
    && (forall t :: 0 <= t < |s.slaves| ==> s.slaves[t] == Popping)
    && s.core == Running
    && s.books == Books(0, multiset{}, multiset{}, {}, {}, multiset{}, multiset{}, multiset{})
  }

  predicate SameSize(s: State) {
    |s.q.pcs| == |s.z.slots| == |s.g.pcs| == |s.w.modes| == |s.w.table| == |s.slaves|
  }

  // ---------------------------------------------------------------- the slave's moves

  function NextRequest(a: Act): G.Request
    requires a.Query?
  {
    if a.write then G.Write(false) else G.Read
  }

  predicate PopEnabled(s: State, t: nat)
    requires SameSize(s) && t < |s.slaves|
  {
    s.q.pcs[t].Idle? || s.q.pcs[t].Returned? || s.q.pcs[t].Terminated? || Q.CanAdvance(s.q, t)
  }

  function PopMove(s: State, t: nat): State
    requires SameSize(s) && t < |s.slaves| && PopEnabled(s, t)
  {
    var pc := s.q.pcs[t];
    if pc.Idle? then s.(q := Q.Apply(s.q, Q.StartPop(t)))
    else if pc.Returned? then s.(q := Q.Apply(s.q, Q.Collect(t)), slaves := s.slaves[t := Got(pc.job)])
    else if pc.Terminated? then s.(q := Q.Apply(s.q, Q.Collect(t)), slaves := s.slaves[t := Done])
    else s.(q := Q.Apply(s.q, Q.Advance(t)))
  }

  predicate AdmitEnabled(s: State, t: nat)
    requires SameSize(s) && t < |s.slaves| && s.slaves[t].Got?
  {
    NeedsAdmission(s.slaves[t].job.op) ==> s.slaves[t].job.fd != VOID_FD
  }

  function AdmitMove(s: State, t: nat): State
    requires SameSize(s) && t < |s.slaves| && s.slaves[t].Got? && AdmitEnabled(s, t)
  {
    var job := s.slaves[t].job;
    if !NeedsAdmission(job.op) then
      s.(slaves := s.slaves[t := Serving(job, job.plan)])
    else
      var admitted := Z.Admissible(s.z.slots, t, WorkOpOf(job.op), job.fd);
      s.(z := Z.Apply(s.z, Z.Check(t, WorkOpOf(job.op), job.fd)),
         slaves := s.slaves[t := if admitted then Serving(job, job.plan) else Requeueing(job)])
  }

  function PushBackMove(s: State, t: nat, chosen: set<nat>): State
    requires SameSize(s) && t < |s.slaves| && s.slaves[t].Requeueing?
    requires Q.Enabled(s.q, Q.Push(s.slaves[t].job, chosen))
  {
    s.(q := Q.Apply(s.q, Q.Push(s.slaves[t].job, chosen)), slaves := s.slaves[t := Popping])
  }

  predicate AtQuery(s: State, t: nat)
    requires t < |s.slaves|
  {
    s.slaves[t].Serving? && s.slaves[t].rest != [] && s.slaves[t].rest[0].Query?
  }

  predicate AtSend(s: State, t: nat)
    requires t < |s.slaves|
  {
    s.slaves[t].Serving? && s.slaves[t].rest != [] && s.slaves[t].rest[0].Send?
  }

  predicate AtClose(s: State, t: nat)
    requires t < |s.slaves|
  {
    s.slaves[t].Serving? && s.slaves[t].rest != [] && s.slaves[t].rest[0].Close?
  }

  predicate AtEnd(s: State, t: nat)
    requires t < |s.slaves|
  {
    s.slaves[t].Serving? && s.slaves[t].rest == []
  }

  function ActDone(s: Slave): Slave
    requires s.Serving? && s.rest != []
  {
    Serving(s.job, s.rest[1..])
  }

  function QueryEvent(s: State, t: nat, busy: bool, chosen: set<nat>): G.Event
    requires SameSize(s) && t < |s.slaves| && AtQuery(s, t)
  {
    if s.g.pcs[t].Out? then G.Begin(t, NextRequest(s.slaves[t].rest[0])) else G.Advance(t, busy, chosen)
  }

  function QueryMove(s: State, t: nat, busy: bool, chosen: set<nat>): State
    requires SameSize(s) && t < |s.slaves| && AtQuery(s, t)
    requires G.Enabled(s.g, QueryEvent(s, t, busy, chosen))
  {
    var g' := G.Apply(s.g, QueryEvent(s, t, busy, chosen));
    s.(g := g', slaves := s.slaves[t := if g'.pcs[t].Out? then ActDone(s.slaves[t]) else s.slaves[t]])
  }

  function SendEvent(s: State, t: nat): W.Event
    requires SameSize(s) && t < |s.slaves| && AtSend(s, t)
  {
    match s.w.modes[t]
    case Free => W.Request(t, s.slaves[t].rest[0].to)
    case Writing(_) => W.Release(t)
    case _ => W.Scan(t)
  }

  /** The writes themselves lie between the scan that succeeds and the release. */
  function SendMove(s: State, t: nat): State
    requires SameSize(s) && t < |s.slaves| && AtSend(s, t) && W.Enabled(s.w, SendEvent(s, t))
  {
    s.(w := W.Apply(s.w, SendEvent(s, t)),
       slaves := s.slaves[t := if SendEvent(s, t).Release? then ActDone(s.slaves[t]) else s.slaves[t]])
  }

  function Closed(b: Books, fd: int): Books {
    b.(open := b.open - {fd}, closes := b.closes + multiset{fd})
  }

  function Released(b: Books, id: int): Books {
    b.(freed := b.freed + multiset{id})
  }

  function Forgotten(b: Books, id: int): Books {
    b.(dropped := b.dropped + multiset{id})
  }

  /** `close` on the descriptor number of the job, whoever owns it now. */
  function CloseMove(s: State, t: nat): State
    requires SameSize(s) && t < |s.slaves| && AtClose(s, t)
  {
    var fd := s.slaves[t].job.fd;
    s.(books := Closed(s.books, fd), slaves := s.slaves[t := ActDone(s.slaves[t])])
  }

  /** End of the dispatch: the unknown-operation branch goes back to the queue at once, leaving
      its slot and its message behind. */
  function EndMove(s: State, t: nat): State
    requires SameSize(s) && t < |s.slaves| && AtEnd(s, t)
  {
    var job := s.slaves[t].job;
    if !Known(job.op) then
      s.(slaves := s.slaves[t := Popping], books := Forgotten(s.books, job.id))
    else if NeedsAdmission(job.op) then
      s.(z := Z.Apply(s.z, Z.Clean(t)), slaves := s.slaves[t := Freeing(job)])
    else
      s.(slaves := s.slaves[t := Freeing(job)])
  }

  function FreeMove(s: State, t: nat): State
    requires t < |s.slaves| && s.slaves[t].Freeing?
  {
    s.(slaves := s.slaves[t := Popping], books := Released(s.books, s.slaves[t].job.id))
  }

  predicate SlaveEnabled(s: State, t: nat, busy: bool, chosen: set<nat>)
    requires SameSize(s)
  {
    && t < |s.slaves|
    && match s.slaves[t]
       case Popping => PopEnabled(s, t)
       case Got(_) => AdmitEnabled(s, t)
       case Requeueing(job) => Q.Enabled(s.q, Q.Push(job, chosen))
       case Serving(_, rest) =>
         (AtQuery(s, t) ==> G.Enabled(s.g, QueryEvent(s, t, busy, chosen)))
         && (AtSend(s, t) ==> W.Enabled(s.w, SendEvent(s, t)))
       case Freeing(_) => true
       case Done => false
  }

  function SlaveMove(s: State, t: nat, busy: bool, chosen: set<nat>): State
    requires SameSize(s) && SlaveEnabled(s, t, busy, chosen)
  {
    match s.slaves[t]
    case Popping => PopMove(s, t)
    case Got(_) => AdmitMove(s, t)
    case Requeueing(_) => PushBackMove(s, t, chosen)
    case Serving(_, _) =>
      if AtQuery(s, t) then QueryMove(s, t, busy, chosen)
      else if AtSend(s, t) then SendMove(s, t)
      else if AtClose(s, t) then CloseMove(s, t)
      else EndMove(s, t)
    case Freeing(_) => FreeMove(s, t)
  }

  // ---------------------------------------------------------------- the core's moves

  /** A job the core may create: a fresh message on a descriptor it selects on. The core alone
      creates disconnections: clients are assumed never to send that operation themselves. */
  predicate Fresh(s: State, job: Job) {
    s.core.Running? && job.id == s.books.nextId && GoodPlan(job) && job.fd in s.books.active
  }

  function PushMove(s: State, job: Job, chosen: set<nat>): State
    requires Q.Enabled(s.q, Q.Push(job, chosen))
  {
    s.(q := Q.Apply(s.q, Q.Push(job, chosen)), books := s.books.(nextId := s.books.nextId + 1))
  }

  function Items(jobs: seq<Job>): (r: seq<Item>)
    ensures |r| == |jobs|
    ensures forall i :: 0 <= i < |jobs| ==> r[i] == Item(jobs[i], jobs[i].plan)
  {
    seq(|jobs|, i requires 0 <= i < |jobs| => Item(jobs[i], jobs[i].plan))
  }

  function Drained(b: Books, ids: multiset<int>, fds: multiset<int>): Books {
    b.(freed := b.freed + ids, leaked := b.leaked + fds)
  }

  function Accepted(b: Books, fd: int): Books {
    b.(active := b.active + {fd}, open := b.open + {fd}, accepts := b.accepts + multiset{fd})
  }

  function ClosedAll(b: Books): Books {
    b.(active := {}, open := b.open - b.active, closes := b.closes + multiset(b.active))
  }

  /** One statement of `stop_core`. The drain releases the queued messages; a disconnection
      among them is never served. */
  predicate StopEnabled(s: State) {
    match s.core
    case Running => false
    case FreeingQueue => Q.Enabled(s.q, Q.Free)
    case SettingFlag => true
    case Broadcasting => true
    case Joining => false
  }

  function StopMove(s: State): State
    requires StopEnabled(s)
  {
    match s.core
    case FreeingQueue =>
      var q' := Q.Apply(s.q, Q.Free);
      var drained := if s.q.freer == Q.FDrain then Items(s.q.jobs) else [];
      s.(q := q', core := if q'.returned then SettingFlag else FreeingQueue,
         books := Drained(s.books, Total(drained, MessageToken), Total(drained, CloseToken)))
    case SettingFlag => s.(g := G.Apply(s.g, G.SetTerm), core := Broadcasting)
    case Broadcasting => s.(g := G.Apply(s.g, G.Broadcast), core := Joining)
  }

  predicate CoreEnabled(s: State, e: Event) {
    match e
    case Accept(fd) => s.core.Running? && fd >= 0 && fd !in s.books.open
    case Receive(job, chosen) =>
      Fresh(s, job) && job.op != DISCONNECT_OP && Q.Enabled(s.q, Q.Push(job, chosen))
    case HangUp(job, chosen) =>
      Fresh(s, job) && job.op == DISCONNECT_OP && Q.Enabled(s.q, Q.Push(job, chosen))
    case CloseAll => s.core.Running?
    case CoreStop => StopEnabled(s)
    case _ => false
  }

  function CoreMove(s: State, e: Event): State
    requires CoreEnabled(s, e)
  {
    match e
    case Accept(fd) =>
      s.(books := Accepted(s.books, fd))
    case Receive(job, chosen) => PushMove(s, job, chosen)
    case HangUp(job, chosen) =>
      var s' := PushMove(s, job, chosen);
      s'.(books := s'.books.(active := s'.books.active - {job.fd}))
    case CloseAll =>
      s.(books := ClosedAll(s.books), core := FreeingQueue)
    case CoreStop => StopMove(s)
  }

  /** A wakeup without cause, in whichever wait set slave t sleeps. */
  predicate SpuriousEnabled(s: State, t: nat)
    requires SameSize(s)
  {
    t < |s.slaves| && (s.q.pcs[t].Waiting? || s.g.pcs[t].Waiting? || s.w.modes[t].Waiting?)
  }

  function SpuriousMove(s: State, t: nat): State
    requires SameSize(s) && SpuriousEnabled(s, t)
  {
    if s.q.pcs[t].Waiting? then s.(q := Q.Apply(s.q, Q.Spurious(t)))
    else if s.g.pcs[t].Waiting? then s.(g := G.Apply(s.g, G.Spurious(t)))
    else s.(w := W.Apply(s.w, W.Spurious(t)))
  }

  predicate Enabled(s: State, e: Event) {
    && SameSize(s)
    && match e
       case SlaveStep(t, busy, chosen) => SlaveEnabled(s, t, busy, chosen)
       case Spurious(t) => SpuriousEnabled(s, t)
       case _ => CoreEnabled(s, e)
  }

  function Apply(s: State, e: Event): State
    requires Enabled(s, e)
  {
    match e
    case SlaveStep(t, busy, chosen) => SlaveMove(s, t, busy, chosen)
    case Spurious(t) => SpuriousMove(s, t)
    case _ => CoreMove(s, e)
  }
}
