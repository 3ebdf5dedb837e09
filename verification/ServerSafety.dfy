/**
 What every run of the server keeps: the invariants of the four components, agreement between
 a slave's place in its own code and its place inside the components, and three conservation
 laws, for messages, for the duty to close a connection, and for open descriptors.
 */
module ServerSafety {
  import opened Prelude
  import opened Jobs
  import opened Tokens
  import opened Server
  import Q = JobQueue
  import G = DbGate
  import W = WriteLock
  import Z = Admission

  /** What slave t owns: the job it is working on, and what is left of the plan. */
  function Hand(slave: Slave, pc: Q.Pc): Item {
    match slave
    case Popping => if pc.Returned? then Item(pc.job, pc.job.plan) else Nothing
    case Got(job) => Item(job, job.plan)
    case Requeueing(job) => Item(job, job.plan)
    case Serving(job, rest) => Item(job, rest)
    case Freeing(job) => Item(job, [])
    case Done => Nothing
  }

  function Hands(s: State): (r: seq<Item>)
    requires SameSize(s)
    ensures |r| == |s.slaves|
    ensures forall t :: 0 <= t < |r| ==> r[t] == Hand(s.slaves[t], s.q.pcs[t])
  {
    seq(|s.slaves|, t requires 0 <= t < |s.slaves| => Hand(s.slaves[t], s.q.pcs[t]))
  }

  function Created(n: nat): multiset<int> {
    if n == 0 then multiset{} else Created(n - 1) + multiset{n - 1}
  }

  lemma CreatedOnce(n: nat, x: int)
    ensures Created(n)[x] == if 0 <= x < n then 1 else 0
  {
  }

  /** A slave is inside at most one component, and inside the one its own code calls for. */
  predicate StageOk(slave: Slave, q: Q.Pc, g: G.Pc, w: W.Mode) {
    && (!q.Idle? ==> slave.Popping?)
    && (!g.Out? ==> slave.Serving? && slave.rest != [] && slave.rest[0].Query?)
    && (!w.Free? ==> slave.Serving? && slave.rest != [] && slave.rest[0] == Send(w.fd))
  }

  predicate Stages(s: State)
    requires SameSize(s)
  {
    forall t :: 0 <= t < |s.slaves| ==> StageOk(s.slaves[t], s.q.pcs[t], s.g.pcs[t], s.w.modes[t])
  }

  predicate JobOk(job: Job) {
    GoodPlan(job) && job.fd >= 0
  }

  predicate ItemOk(i: Item) {
    i.Item? ==> JobOk(i.job) && CloseLast(i.rest) && SendsTo(i.rest) && (Close in i.rest ==> i.job.op == DISCONNECT_OP)
  }

  predicate ItemsOk(s: State)
    requires SameSize(s)
  {
    && (forall i :: 0 <= i < |s.q.jobs| ==> JobOk(s.q.jobs[i]))
    && (forall t :: 0 <= t < |s.slaves| ==> ItemOk(Hand(s.slaves[t], s.q.pcs[t])))
  }

  function Owned(s: State, f: Item -> multiset<int>): multiset<int>
    requires SameSize(s)
  {
    Total(Items(s.q.jobs), f) + Total(Hands(s), f)
  }

  /** The three laws, for the messages and closing duties owned by queue and slaves together.
      Every message created is owned, freed, or forgotten: once. Every open descriptor is either
      selected on by the core, or one queued or half-served disconnection is on its way to close
      it, or its disconnection was drained: once. Accepts less closes is what is open. */
  predicate Lawful(messages: multiset<int>, closings: multiset<int>, b: Books) {
    && Balance(messages, b.freed, b.dropped, Created(b.nextId))
    && Balance(closings, multiset(b.active), b.leaked, multiset(b.open))
    && b.accepts == b.closes + multiset(b.open)
  }

  predicate Laws(s: State)
    requires SameSize(s)
  {
    Lawful(Owned(s, MessageToken), Owned(s, CloseToken), s.books)
  }

  ghost predicate Components(s: State) {
    SameSize(s) && Q.Inv(s.q) && Z.Inv(s.z) && G.Inv(s.g) && W.Inv(s.w)
  }

  predicate CoreOk(s: State) {
    && (s.core.Running? || s.core.FreeingQueue? <==> !s.q.returned)
    && (s.core.Broadcasting? || s.core.Joining? ==> s.g.term)
    && (forall fd :: fd in s.books.open ==> fd >= 0)
    && s.books.active <= s.books.open
    && (s.core.Running? ==> s.q.freer == Q.FIdle)
    && (!s.core.Running? && !s.core.FreeingQueue? ==> s.q.freer == Q.FIdle)
  }

  ghost predicate Inv(s: State) {
    Components(s) && Stages(s) && ItemsOk(s) && Laws(s) && CoreOk(s)
  }

  // ---------------------------------------------------------------- components

  lemma InitComponents(s: State)
    requires Init(s)
    ensures Components(s)
  {
    Q.InitInv(s.q);
    Z.InitInv(s.z);
    G.InitInv(s.g);
    W.InitInv(s.w);
  }

  lemma InitInv(s: State)
    requires Init(s)
    ensures Inv(s)
  {
    InitComponents(s);
    InitStages(s);
    InitLaws(s);
  }

  lemma InitStages(s: State)
    requires Init(s) && SameSize(s)
    ensures Stages(s) && ItemsOk(s) && CoreOk(s)
  {
  }

  lemma InitLaws(s: State)
    requires Init(s) && SameSize(s)
    ensures Laws(s)
  {
    assert Items(s.q.jobs) == [];
    NothingOwned(Hands(s), MessageToken);
    NothingOwned(Hands(s), CloseToken);
  }

  lemma {:induction false} NothingOwned(items: seq<Item>, f: Item -> multiset<int>)
    requires forall i :: 0 <= i < |items| ==> items[i] == Nothing
    requires f(Nothing) == multiset{}
    ensures Total(items, f) == multiset{}
  {
    if items != [] {
      NothingOwned(items[1..], f);
    }
  }

  // ---------------------------------------------------------------- tokens under the moves

  /** Only slave t's possession changes. */
  lemma OneHandChanges(s: State, s': State, t: nat, f: Item -> multiset<int>)
    requires SameSize(s) && SameSize(s') && |s.slaves| == |s'.slaves| && t < |s.slaves|
    requires forall u :: 0 <= u < |s.slaves| && u != t ==>
      Hand(s'.slaves[u], s'.q.pcs[u]) == Hand(s.slaves[u], s.q.pcs[u])
    ensures Total(Hands(s'), f) + f(Hand(s.slaves[t], s.q.pcs[t]))
         == Total(Hands(s), f) + f(Hand(s'.slaves[t], s'.q.pcs[t]))
  {
    assert Hands(s') == Hands(s)[t := Hand(s'.slaves[t], s'.q.pcs[t])];
    TotalUpdate(Hands(s), t, Hand(s'.slaves[t], s'.q.pcs[t]), f);
  }

  lemma ItemsAppend(jobs: seq<Job>, job: Job, f: Item -> multiset<int>)
    ensures Total(Items(jobs + [job]), f) == Total(Items(jobs), f) + f(Item(job, job.plan))
  {
    assert Items(jobs + [job]) == Items(jobs) + [Item(job, job.plan)];
    TotalAppend(Items(jobs), Item(job, job.plan), f);
  }

  lemma ItemsHead(jobs: seq<Job>, f: Item -> multiset<int>)
    requires jobs != []
    ensures Total(Items(jobs), f) == f(Item(jobs[0], jobs[0].plan)) + Total(Items(jobs[1..]), f)
  {
    assert Items(jobs)[1..] == Items(jobs[1..]);
  }

  /** Taking the head of the queue moves its tokens from the queue to the taker. */
  lemma TakeMovesTokens(s: State, t: nat, f: Item -> multiset<int>)
    requires SameSize(s) && Q.TestInv(s.q) && t < |s.slaves| && s.slaves[t].Popping? && s.q.pcs[t].Taking?
    requires f(Nothing) == multiset{}
    ensures SameSize(PopMove(s, t)) && Owned(PopMove(s, t), f) == Owned(s, f)
  {
    var s' := PopMove(s, t);
    var head := Item(s.q.jobs[0], s.q.jobs[0].plan);
    OneHandChanges(s, s', t, f);
    ItemsHead(s.q.jobs, f);
    assert Total(Hands(s'), f) == Total(Hands(s), f) + f(head);
    assert Total(Items(s.q.jobs), f) == f(head) + Total(Items(s'.q.jobs), f);
  }

  lemma PopMovesTokens(s: State, t: nat, f: Item -> multiset<int>)
    requires SameSize(s) && Q.TestInv(s.q) && t < |s.slaves| && s.slaves[t].Popping? && PopEnabled(s, t)
    requires f(Nothing) == multiset{}
    ensures SameSize(PopMove(s, t)) && Owned(PopMove(s, t), f) == Owned(s, f)
  {
    if s.q.pcs[t].Taking? {
      TakeMovesTokens(s, t, f);
    } else {
      var s' := PopMove(s, t);
      assert Hand(s'.slaves[t], s'.q.pcs[t]) == Hand(s.slaves[t], s.q.pcs[t]);
      assert Hands(s') == Hands(s) && s'.q.jobs == s.q.jobs;
    }
  }

  lemma PushBackMovesTokens(s: State, t: nat, chosen: set<nat>, f: Item -> multiset<int>)
    requires SameSize(s) && t < |s.slaves| && s.slaves[t].Requeueing? && s.q.pcs[t].Idle?
    requires Q.Enabled(s.q, Q.Push(s.slaves[t].job, chosen)) && f(Nothing) == multiset{}
    ensures SameSize(PushBackMove(s, t, chosen)) && Owned(PushBackMove(s, t, chosen), f) == Owned(s, f)
  {
    var s' := PushBackMove(s, t, chosen);
    var job := s.slaves[t].job;
    forall u | 0 <= u < |s.slaves| && u != t
      ensures Hand(s'.slaves[u], s'.q.pcs[u]) == Hand(s.slaves[u], s.q.pcs[u])
    {
      assert s'.q.pcs[u] == s.q.pcs[u] || (s.q.pcs[u].Waiting? && s'.q.pcs[u] == Q.Woken);
    }
    OneHandChanges(s, s', t, f);
    ItemsAppend(s.q.jobs, job, f);
    assert Hand(s.slaves[t], s.q.pcs[t]) == Item(job, job.plan);
    assert Total(Hands(s'), f) + f(Item(job, job.plan)) == Total(Hands(s), f);
  }

  /** Slave t moves on without gaining or losing tokens. */
  lemma TokensStay(s: State, s': State, t: nat, f: Item -> multiset<int>)
    requires SameSize(s) && SameSize(s') && s'.q == s.q && t < |s.slaves| && |s'.slaves| == |s.slaves|
    requires s'.slaves == s.slaves[t := s'.slaves[t]]
    requires f(Hand(s'.slaves[t], s.q.pcs[t])) == f(Hand(s.slaves[t], s.q.pcs[t]))
    ensures Owned(s', f) == Owned(s, f)
  {
    OneHandChanges(s, s', t, f);
    Cancel(Total(Hands(s'), f), Total(Hands(s), f), f(Hand(s.slaves[t], s.q.pcs[t])));
  }

  /** Slave t gives up its one token. */
  lemma TokenLeaves(s: State, s': State, t: nat, f: Item -> multiset<int>)
    requires SameSize(s) && SameSize(s') && s'.q == s.q && t < |s.slaves| && |s'.slaves| == |s.slaves|
    requires s'.slaves == s.slaves[t := s'.slaves[t]]
    requires f(Hand(s'.slaves[t], s.q.pcs[t])) == multiset{}
    ensures Owned(s', f) + f(Hand(s.slaves[t], s.q.pcs[t])) == Owned(s, f)
  {
    OneHandChanges(s, s', t, f);
    var x := f(Hand(s.slaves[t], s.q.pcs[t]));
    assert Total(Hands(s'), f) + x == Total(Hands(s), f);
    assert Owned(s', f) + x == Total(Items(s.q.jobs), f) + (Total(Hands(s'), f) + x);
  }

  // ---------------------------------------------------------------- each move keeps the invariant

  lemma ReleaseLawful(m: multiset<int>, m': multiset<int>, c: multiset<int>, b: Books, id: int)
    requires Lawful(m, c, b) && m' + multiset{id} == m
    ensures Lawful(m', c, Released(b, id))
  {
    MoveToSecond(m, m', b.freed, b.dropped, Created(b.nextId), multiset{id});
  }

  lemma ForgetLawful(m: multiset<int>, m': multiset<int>, c: multiset<int>, b: Books, id: int)
    requires Lawful(m, c, b) && m' + multiset{id} == m
    ensures Lawful(m', c, Forgotten(b, id))
  {
    MoveToThird(m, m', b.freed, b.dropped, Created(b.nextId), multiset{id});
  }

  lemma CloseLawful(m: multiset<int>, c: multiset<int>, c': multiset<int>, b: Books, fd: int)
    requires Lawful(m, c, b) && c' + multiset{fd} == c && fd in b.open
    ensures Lawful(m, c', Closed(b, fd))
  {
    var open' := b.open - {fd};
    assert multiset(b.open) == multiset(open') + multiset{fd};
    Spend(c, c', multiset(b.active), b.leaked, multiset(b.open), multiset(open'), multiset{fd});
  }

  lemma AcceptLawful(m: multiset<int>, c: multiset<int>, b: Books, fd: int)
    requires Lawful(m, c, b) && fd !in b.open && fd !in b.active
    ensures Lawful(m, c, Accepted(b, fd))
  {
    assert multiset(b.open + {fd}) == multiset(b.open) + multiset{fd};
    assert multiset(b.active + {fd}) == multiset(b.active) + multiset{fd};
    assert c + (multiset(b.active) + multiset{fd}) + b.leaked == c + multiset(b.active) + b.leaked + multiset{fd};
  }

  lemma CreateLawful(m: multiset<int>, m': multiset<int>, c: multiset<int>, b: Books)
    requires Lawful(m, c, b) && m' == m + multiset{b.nextId}
    ensures Lawful(m', c, b.(nextId := b.nextId + 1))
  {
    Earn(m, m', b.freed, b.dropped, Created(b.nextId), Created(b.nextId + 1), multiset{b.nextId});
  }

  /** The core gives up a descriptor, and the disconnection it queues takes over the duty. */
  lemma HandOverLawful(m: multiset<int>, c: multiset<int>, c': multiset<int>, b: Books, fd: int)
    requires Lawful(m, c, b) && c' == c + multiset{fd} && fd in b.active
    ensures Lawful(m, c', b.(active := b.active - {fd}))
  {
    var active' := b.active - {fd};
    assert multiset(b.active) == multiset(active') + multiset{fd};
    assert c + (multiset(active') + multiset{fd}) + b.leaked == (c + multiset{fd}) + multiset(active') + b.leaked;
  }

  lemma CloseAllLawful(m: multiset<int>, c: multiset<int>, b: Books)
    requires Lawful(m, c, b) && b.active <= b.open
    ensures Lawful(m, c, ClosedAll(b))
  {
    var rest := b.open - b.active;
    assert multiset(b.open) == multiset(rest) + multiset(b.active);
    assert c + b.leaked + multiset(b.active) == multiset(rest) + multiset(b.active);
    Cancel(c + b.leaked, multiset(rest), multiset(b.active));
    assert c + multiset{} + b.leaked == c + b.leaked;
  }

  lemma DrainLawful(m: multiset<int>, m': multiset<int>, c: multiset<int>, c': multiset<int>, b: Books,
                    ids: multiset<int>, fds: multiset<int>)
    requires Lawful(m, c, b) && m' + ids == m && c' + fds == c
    ensures Lawful(m', c', Drained(b, ids, fds))
  {
    MoveToSecond(m, m', b.freed, b.dropped, Created(b.nextId), ids);
    MoveToThird(c, c', multiset(b.active), b.leaked, multiset(b.open), fds);
  }

  lemma LawsTransfer(s: State, s': State)
    requires SameSize(s) && SameSize(s') && Laws(s)
    requires s'.books == s.books
    requires Owned(s', MessageToken) == Owned(s, MessageToken)
    requires Owned(s', CloseToken) == Owned(s, CloseToken)
    ensures Laws(s')
  {
  }

  /** Slave t stays the owner of its job and neither gains nor loses the duty to close. */
  lemma LocalMoveKeepsLaws(s: State, s': State, t: nat)
    requires SameSize(s) && Laws(s) && SameSize(s') && s'.books == s.books && s'.q == s.q
    requires t < |s.slaves| && |s'.slaves| == |s.slaves| && s'.slaves == s.slaves[t := s'.slaves[t]]
    requires MessageToken(Hand(s'.slaves[t], s.q.pcs[t])) == MessageToken(Hand(s.slaves[t], s.q.pcs[t]))
    requires CloseToken(Hand(s'.slaves[t], s.q.pcs[t])) == CloseToken(Hand(s.slaves[t], s.q.pcs[t]))
    ensures Laws(s')
  {
    TokensStay(s, s', t, MessageToken);
    TokensStay(s, s', t, CloseToken);
    LawsTransfer(s, s');
  }

  lemma LocalMoveKeepsItems(s: State, s': State, t: nat)
    requires SameSize(s) && SameSize(s') && ItemsOk(s) && s'.q == s.q && t < |s.slaves| && |s'.slaves| == |s.slaves|
    requires s'.slaves == s.slaves[t := s'.slaves[t]]
    requires ItemOk(Hand(s'.slaves[t], s.q.pcs[t]))
    ensures ItemsOk(s')
  {
  }

  function PopEvent(s: State, t: nat): Q.Event
    requires SameSize(s) && t < |s.slaves|
  {
    if s.q.pcs[t].Idle? then Q.StartPop(t)
    else if s.q.pcs[t].Returned? || s.q.pcs[t].Terminated? then Q.Collect(t)
    else Q.Advance(t)
  }

  lemma PopKeepsComponents(s: State, t: nat)
    requires Components(s) && t < |s.slaves| && s.slaves[t].Popping? && PopEnabled(s, t)
    ensures Components(PopMove(s, t))
  {
    Q.StepKeepsInv(s.q, PopEvent(s, t));
  }

  lemma PopKeepsStages(s: State, t: nat)
    requires SameSize(s) && Q.Inv(s.q) && Stages(s) && ItemsOk(s)
    requires t < |s.slaves| && s.slaves[t].Popping? && PopEnabled(s, t)
    ensures SameSize(PopMove(s, t)) && Stages(PopMove(s, t)) && ItemsOk(PopMove(s, t))
  {
    var s' := PopMove(s, t);
    assert ItemOk(Hand(s.slaves[t], s.q.pcs[t]));
    assert StageOk(s.slaves[t], s.q.pcs[t], s.g.pcs[t], s.w.modes[t]);
    if s.q.pcs[t].Taking? {
      assert JobOk(s.q.jobs[0]);
    }
  }

  lemma PopKeepsLaws(s: State, t: nat)
    requires SameSize(s) && Q.TestInv(s.q) && Laws(s) && t < |s.slaves| && s.slaves[t].Popping? && PopEnabled(s, t)
    ensures SameSize(PopMove(s, t)) && Laws(PopMove(s, t))
  {
    PopMovesTokens(s, t, MessageToken);
    PopMovesTokens(s, t, CloseToken);
    LawsTransfer(s, PopMove(s, t));
  }

  lemma PopKeepsCore(s: State, t: nat)
    requires SameSize(s) && CoreOk(s) && t < |s.slaves| && PopEnabled(s, t)
    ensures CoreOk(PopMove(s, t))
  {
  }

  lemma PopKeepsInv(s: State, t: nat)
    requires Inv(s) && t < |s.slaves| && s.slaves[t].Popping? && PopEnabled(s, t)
    ensures Inv(PopMove(s, t))
  {
    PopKeepsLaws(s, t);
    PopKeepsCore(s, t);
    PopKeepsComponents(s, t);
    PopKeepsStages(s, t);
  }

  lemma AdmitKeepsInv(s: State, t: nat)
    requires Inv(s) && t < |s.slaves| && s.slaves[t].Got? && AdmitEnabled(s, t)
    ensures Inv(AdmitMove(s, t))
  {
    var s' := AdmitMove(s, t);
    var job := s.slaves[t].job;
    if NeedsAdmission(job.op) {
      Z.StepKeepsInv(s.z, Z.Check(t, WorkOpOf(job.op), job.fd));
    }
    assert StageOk(s.slaves[t], s.q.pcs[t], s.g.pcs[t], s.w.modes[t]);
    assert ItemOk(Hand(s.slaves[t], s.q.pcs[t]));
    assert Hands(s') == Hands(s);
  }

  lemma PushBackKeepsComponents(s: State, t: nat, chosen: set<nat>)
    requires Components(s) && t < |s.slaves| && s.slaves[t].Requeueing?
    requires Q.Enabled(s.q, Q.Push(s.slaves[t].job, chosen))
    ensures Components(PushBackMove(s, t, chosen))
  {
    Q.StepKeepsInv(s.q, Q.Push(s.slaves[t].job, chosen));
  }

  lemma PushBackKeepsStages(s: State, t: nat, chosen: set<nat>)
    requires SameSize(s) && Stages(s) && ItemsOk(s) && t < |s.slaves| && s.slaves[t].Requeueing?
    requires Q.Enabled(s.q, Q.Push(s.slaves[t].job, chosen))
    ensures Stages(PushBackMove(s, t, chosen)) && ItemsOk(PushBackMove(s, t, chosen))
  {
    assert StageOk(s.slaves[t], s.q.pcs[t], s.g.pcs[t], s.w.modes[t]);
    assert ItemOk(Hand(s.slaves[t], s.q.pcs[t]));
    var s' := PushBackMove(s, t, chosen);
    forall u | 0 <= u < |s.slaves|
      ensures StageOk(s'.slaves[u], s'.q.pcs[u], s'.g.pcs[u], s'.w.modes[u])
      ensures ItemOk(Hand(s'.slaves[u], s'.q.pcs[u]))
    {
      assert StageOk(s.slaves[u], s.q.pcs[u], s.g.pcs[u], s.w.modes[u]);
      assert ItemOk(Hand(s.slaves[u], s.q.pcs[u]));
    }
  }

  lemma PushBackKeepsInv(s: State, t: nat, chosen: set<nat>)
    requires Inv(s) && t < |s.slaves| && s.slaves[t].Requeueing?
    requires Q.Enabled(s.q, Q.Push(s.slaves[t].job, chosen))
    ensures Inv(PushBackMove(s, t, chosen))
  {
    assert StageOk(s.slaves[t], s.q.pcs[t], s.g.pcs[t], s.w.modes[t]);
    PushBackMovesTokens(s, t, chosen, MessageToken);
    PushBackMovesTokens(s, t, chosen, CloseToken);
    PushBackKeepsComponents(s, t, chosen);
    PushBackKeepsStages(s, t, chosen);
  }

  /** Dropping the head of a plan keeps it well-formed. */
  lemma TailOk(job: Job, rest: seq<Act>)
    requires ItemOk(Item(job, rest)) && rest != []
    ensures ItemOk(Item(job, rest[1..]))
    ensures rest[0] == Close ==> rest[1..] == []
    ensures rest[0] != Close ==> CloseToken(Item(job, rest[1..])) == CloseToken(Item(job, rest))
  {
    forall i | 0 <= i < |rest[1..]| - 1 ensures rest[1..][i] != Close {
      assert rest[1..][i] == rest[i + 1];
    }
    if Close in rest && rest[0] != Close {
      var i :| 0 <= i < |rest| && rest[i] == Close;
      assert rest[1..][i - 1] == Close;
    }
  }

  /** Whether slave t finishes its current act or stays at it, possession is unaffected. */
  lemma ServingKeepsLaws(s: State, s': State, t: nat)
    requires SameSize(s) && Laws(s) && t < |s.slaves| && ItemOk(Hand(s.slaves[t], s.q.pcs[t])) && s.slaves[t].Serving?
    requires s.slaves[t].rest != [] && s.slaves[t].rest[0] != Close
    requires SameSize(s') && s'.books == s.books && s'.q == s.q
    requires s'.slaves == s.slaves || s'.slaves == s.slaves[t := ActDone(s.slaves[t])]
    ensures Laws(s')
  {
    if s'.slaves == s.slaves {
      assert Hands(s') == Hands(s);
      LawsTransfer(s, s');
    } else {
      FinishedActKeepsLaws(s, s', t);
    }
  }

  lemma FinishedActKeepsLaws(s: State, s': State, t: nat)
    requires SameSize(s) && Laws(s) && t < |s.slaves| && ItemOk(Hand(s.slaves[t], s.q.pcs[t])) && s.slaves[t].Serving?
    requires s.slaves[t].rest != [] && s.slaves[t].rest[0] != Close
    requires SameSize(s') && s'.books == s.books && s'.q == s.q
    requires s'.slaves == s.slaves[t := ActDone(s.slaves[t])]
    ensures Laws(s')
  {
    TailOk(s.slaves[t].job, s.slaves[t].rest);
    LocalMoveKeepsLaws(s, s', t);
  }

  lemma ServingKeepsItems(s: State, s': State, t: nat)
    requires SameSize(s) && ItemsOk(s) && t < |s.slaves| && s.slaves[t].Serving? && s.slaves[t].rest != []
    requires SameSize(s') && s'.q == s.q
    requires s'.slaves == s.slaves || s'.slaves == s.slaves[t := ActDone(s.slaves[t])]
    ensures ItemsOk(s')
  {
    assert ItemOk(Hand(s.slaves[t], s.q.pcs[t]));
    TailOk(s.slaves[t].job, s.slaves[t].rest);
  }

  lemma ServingKeepsBooks(s: State, s': State, t: nat)
    requires SameSize(s) && Laws(s) && ItemsOk(s) && t < |s.slaves| && s.slaves[t].Serving?
    requires s.slaves[t].rest != [] && s.slaves[t].rest[0] != Close
    requires SameSize(s') && s'.books == s.books && s'.q == s.q
    requires s'.slaves == s.slaves || s'.slaves == s.slaves[t := ActDone(s.slaves[t])]
    ensures Laws(s') && ItemsOk(s')
  {
    assert ItemOk(Hand(s.slaves[t], s.q.pcs[t]));
    ServingKeepsLaws(s, s', t);
    ServingKeepsItems(s, s', t);
  }

  /** A gate step of one thread does not carry another thread into or out of its call. */
  lemma GateOthersStay(g: G.Gate, e: G.Event, u: nat)
    requires G.Enabled(g, e) && u < |g.pcs| && (e.Begin? || e.Advance? || e.Spurious?)
    ensures u != e.t ==> (G.Apply(g, e).pcs[u].Out? <==> g.pcs[u].Out?)
  {
  }

  lemma LockOthersStay(w: W.Lock, e: W.Event, u: nat)
    requires W.Enabled(w, e) && u < |w.modes|
    ensures u != e.t ==> (W.Apply(w, e).modes[u].Free? <==> w.modes[u].Free?)
    ensures u != e.t && !w.modes[u].Free? ==> W.Apply(w, e).modes[u].fd == w.modes[u].fd
  {
  }

  lemma QueryKeepsStages(s: State, t: nat, busy: bool, chosen: set<nat>)
    requires SameSize(s) && Stages(s) && t < |s.slaves| && AtQuery(s, t)
    requires G.Enabled(s.g, QueryEvent(s, t, busy, chosen))
    ensures SameSize(QueryMove(s, t, busy, chosen)) && Stages(QueryMove(s, t, busy, chosen))
  {
    var s' := QueryMove(s, t, busy, chosen);
    forall u | 0 <= u < |s.slaves|
      ensures StageOk(s'.slaves[u], s'.q.pcs[u], s'.g.pcs[u], s'.w.modes[u])
    {
      assert StageOk(s.slaves[u], s.q.pcs[u], s.g.pcs[u], s.w.modes[u]);
      GateOthersStay(s.g, QueryEvent(s, t, busy, chosen), u);
    }
  }

  lemma GateFlagStays(g: G.Gate, e: G.Event)
    requires G.Enabled(g, e)
    ensures g.term ==> G.Apply(g, e).term
  {
  }

  lemma QueryKeepsComponents(s: State, t: nat, busy: bool, chosen: set<nat>)
    requires Components(s) && t < |s.slaves| && AtQuery(s, t)
    requires G.Enabled(s.g, QueryEvent(s, t, busy, chosen))
    ensures Components(QueryMove(s, t, busy, chosen))
  {
    G.StepKeepsInv(s.g, QueryEvent(s, t, busy, chosen));
  }

  lemma QueryKeepsInv(s: State, t: nat, busy: bool, chosen: set<nat>)
    requires Inv(s) && t < |s.slaves| && AtQuery(s, t)
    requires G.Enabled(s.g, QueryEvent(s, t, busy, chosen))
    ensures Inv(QueryMove(s, t, busy, chosen))
  {
    QueryKeepsComponents(s, t, busy, chosen);
    QueryKeepsStages(s, t, busy, chosen);
    ServingKeepsBooks(s, QueryMove(s, t, busy, chosen), t);
    GateFlagStays(s.g, QueryEvent(s, t, busy, chosen));
  }

  lemma SendKeepsStages(s: State, t: nat)
    requires SameSize(s) && Stages(s) && t < |s.slaves| && AtSend(s, t) && W.Enabled(s.w, SendEvent(s, t))
    ensures SameSize(SendMove(s, t)) && Stages(SendMove(s, t))
  {
    var s' := SendMove(s, t);
    forall u | 0 <= u < |s.slaves|
      ensures StageOk(s'.slaves[u], s'.q.pcs[u], s'.g.pcs[u], s'.w.modes[u])
    {
      assert StageOk(s.slaves[u], s.q.pcs[u], s.g.pcs[u], s.w.modes[u]);
      LockOthersStay(s.w, SendEvent(s, t), u);
    }
  }

  lemma SendKeepsComponents(s: State, t: nat)
    requires Components(s) && t < |s.slaves| && AtSend(s, t) && W.Enabled(s.w, SendEvent(s, t))
    ensures Components(SendMove(s, t))
  {
    W.StepKeepsInv(s.w, SendEvent(s, t));
  }

  lemma SendKeepsInv(s: State, t: nat)
    requires Inv(s) && t < |s.slaves| && AtSend(s, t) && W.Enabled(s.w, SendEvent(s, t))
    ensures Inv(SendMove(s, t))
  {
    SendKeepsComponents(s, t);
    SendKeepsStages(s, t);
    ServingKeepsBooks(s, SendMove(s, t), t);
  }

  lemma OnlyDuty(queued: multiset<int>, held: multiset<int>, b: Books, fd: int)
    requires Balance(queued + held, multiset(b.active), b.leaked, multiset(b.open)) && held[fd] >= 1
    ensures fd in b.open && fd !in b.active && fd !in b.leaked && fd !in queued && held[fd] == 1
  {
    assert multiset(b.open)[fd] == queued[fd] + held[fd] + multiset(b.active)[fd] + b.leaked[fd];
  }

  /** A slave about to close owns the only token for its descriptor: the descriptor is open, the
      core no longer selects on it, and no other disconnection for it is under way. */
  lemma CloseIsEarned(s: State, t: nat)
    requires SameSize(s) && Laws(s) && t < |s.slaves| && AtClose(s, t)
    ensures var fd := s.slaves[t].job.fd;
      && fd in s.books.open && fd !in s.books.active && fd !in s.books.leaked
      && fd !in Total(Items(s.q.jobs), CloseToken)
      && Total(Hands(s), CloseToken)[fd] == 1
  {
    var fd := s.slaves[t].job.fd;
    TotalHas(Hands(s), t, CloseToken);
    assert CloseToken(Hands(s)[t]) == multiset{fd};
    OnlyDuty(Total(Items(s.q.jobs), CloseToken), Total(Hands(s), CloseToken), s.books, fd);
  }

  lemma CloseMovesTokens(s: State, t: nat)
    requires SameSize(s) && ItemsOk(s) && t < |s.slaves| && AtClose(s, t) && s.q.pcs[t].Idle?
    ensures Owned(CloseMove(s, t), MessageToken) == Owned(s, MessageToken)
    ensures Owned(CloseMove(s, t), CloseToken) + multiset{s.slaves[t].job.fd} == Owned(s, CloseToken)
  {
    var s' := CloseMove(s, t);
    assert ItemOk(Hand(s.slaves[t], s.q.pcs[t]));
    TailOk(s.slaves[t].job, s.slaves[t].rest);
    TokensStay(s, s', t, MessageToken);
    TokenLeaves(s, s', t, CloseToken);
  }

  lemma CloseKeepsLaws(s: State, t: nat)
    requires SameSize(s) && Laws(s) && ItemsOk(s) && t < |s.slaves| && AtClose(s, t) && s.q.pcs[t].Idle?
    ensures Laws(CloseMove(s, t))
  {
    var s' := CloseMove(s, t);
    CloseMovesTokens(s, t);
    CloseIsEarned(s, t);
    CloseLawful(Owned(s, MessageToken), Owned(s, CloseToken), Owned(s', CloseToken), s.books, s.slaves[t].job.fd);
  }

  lemma CloseKeepsItems(s: State, t: nat)
    requires SameSize(s) && ItemsOk(s) && t < |s.slaves| && AtClose(s, t) && s.q.pcs[t].Idle?
    ensures ItemsOk(CloseMove(s, t))
  {
    assert ItemOk(Hand(s.slaves[t], s.q.pcs[t]));
    TailOk(s.slaves[t].job, s.slaves[t].rest);
    LocalMoveKeepsItems(s, CloseMove(s, t), t);
  }

  lemma CloseKeepsStages(s: State, t: nat)
    requires SameSize(s) && Stages(s) && CoreOk(s) && t < |s.slaves| && AtClose(s, t)
    requires s.slaves[t].job.fd !in s.books.active
    ensures Stages(CloseMove(s, t)) && CoreOk(CloseMove(s, t)) && s.q.pcs[t].Idle?
  {
    assert StageOk(s.slaves[t], s.q.pcs[t], s.g.pcs[t], s.w.modes[t]);
  }

  lemma CloseKeepsInv(s: State, t: nat)
    requires Inv(s) && t < |s.slaves| && AtClose(s, t)
    ensures Inv(CloseMove(s, t))
  {
    CloseIsEarned(s, t);
    CloseKeepsStages(s, t);
    CloseKeepsLaws(s, t);
    CloseKeepsItems(s, t);
  }

  lemma FreeMovesTokens(s: State, t: nat)
    requires SameSize(s) && t < |s.slaves| && s.slaves[t].Freeing? && s.q.pcs[t].Idle?
    ensures Owned(FreeMove(s, t), MessageToken) + multiset{s.slaves[t].job.id} == Owned(s, MessageToken)
    ensures Owned(FreeMove(s, t), CloseToken) == Owned(s, CloseToken)
  {
    var s' := FreeMove(s, t);
    TokenLeaves(s, s', t, MessageToken);
    TokensStay(s, s', t, CloseToken);
  }

  lemma FreeKeepsLaws(s: State, t: nat)
    requires SameSize(s) && Laws(s) && t < |s.slaves| && s.slaves[t].Freeing? && s.q.pcs[t].Idle?
    ensures Laws(FreeMove(s, t))
  {
    FreeMovesTokens(s, t);
    ReleaseLawful(Owned(s, MessageToken), Owned(FreeMove(s, t), MessageToken), Owned(s, CloseToken), s.books,
                  s.slaves[t].job.id);
  }

  lemma DropMovesTokens(s: State, t: nat)
    requires SameSize(s) && t < |s.slaves| && AtEnd(s, t) && s.q.pcs[t].Idle? && !Known(s.slaves[t].job.op)
    ensures Owned(EndMove(s, t), MessageToken) + multiset{s.slaves[t].job.id} == Owned(s, MessageToken)
    ensures Owned(EndMove(s, t), CloseToken) == Owned(s, CloseToken)
  {
    TokenLeaves(s, EndMove(s, t), t, MessageToken);
    TokensStay(s, EndMove(s, t), t, CloseToken);
  }

  lemma DropKeepsLaws(s: State, t: nat)
    requires SameSize(s) && Laws(s) && t < |s.slaves| && AtEnd(s, t) && s.q.pcs[t].Idle? && !Known(s.slaves[t].job.op)
    ensures Laws(EndMove(s, t))
  {
    var s' := EndMove(s, t);
    DropMovesTokens(s, t);
    ForgetLawful(Owned(s, MessageToken), Owned(s', MessageToken), Owned(s, CloseToken), s.books, s.slaves[t].job.id);
  }

  lemma KnownEndKeepsLaws(s: State, t: nat)
    requires SameSize(s) && Laws(s) && t < |s.slaves| && AtEnd(s, t) && s.q.pcs[t].Idle? && Known(s.slaves[t].job.op)
    ensures Laws(EndMove(s, t))
  {
    var s' := EndMove(s, t);
    assert Hand(s'.slaves[t], s.q.pcs[t]) == Hand(s.slaves[t], s.q.pcs[t]);
    assert Hands(s') == Hands(s);
    LawsTransfer(s, s');
  }

  lemma EndKeepsItems(s: State, t: nat)
    requires SameSize(s) && ItemsOk(s) && t < |s.slaves| && AtEnd(s, t) && s.q.pcs[t].Idle?
    ensures ItemsOk(EndMove(s, t))
  {
    assert ItemOk(Hand(s.slaves[t], s.q.pcs[t]));
    LocalMoveKeepsItems(s, EndMove(s, t), t);
  }

  lemma EndKeepsStages(s: State, t: nat)
    requires SameSize(s) && Stages(s) && t < |s.slaves| && AtEnd(s, t)
    ensures Stages(EndMove(s, t)) && s.q.pcs[t].Idle?
  {
    assert StageOk(s.slaves[t], s.q.pcs[t], s.g.pcs[t], s.w.modes[t]);
  }

  lemma EndKeepsInv(s: State, t: nat)
    requires Inv(s) && t < |s.slaves| && AtEnd(s, t)
    ensures Inv(EndMove(s, t))
  {
    EndKeepsStages(s, t);
    Z.StepKeepsInv(s.z, Z.Clean(t));
    if Known(s.slaves[t].job.op) {
      KnownEndKeepsLaws(s, t);
    } else {
      DropKeepsLaws(s, t);
    }
    EndKeepsItems(s, t);
  }

  lemma FreeKeepsInv(s: State, t: nat)
    requires Inv(s) && t < |s.slaves| && s.slaves[t].Freeing?
    ensures Inv(FreeMove(s, t))
  {
    assert StageOk(s.slaves[t], s.q.pcs[t], s.g.pcs[t], s.w.modes[t]);
    FreeKeepsLaws(s, t);
    LocalMoveKeepsItems(s, FreeMove(s, t), t);
  }

  lemma SlaveKeepsInv(s: State, t: nat, busy: bool, chosen: set<nat>)
    requires Inv(s) && SlaveEnabled(s, t, busy, chosen)
    ensures Inv(SlaveMove(s, t, busy, chosen))
  {
    if s.slaves[t].Popping? {
      PopKeepsInv(s, t);
    } else if s.slaves[t].Got? {
      AdmitKeepsInv(s, t);
    } else if s.slaves[t].Requeueing? {
      PushBackKeepsInv(s, t, chosen);
    } else if s.slaves[t].Freeing? {
      FreeKeepsInv(s, t);
    } else if AtQuery(s, t) {
      QueryKeepsInv(s, t, busy, chosen);
    } else if AtSend(s, t) {
      SendKeepsInv(s, t);
    } else if AtClose(s, t) {
      CloseKeepsInv(s, t);
    } else {
      EndKeepsInv(s, t);
    }
  }

  // ---------------------------------------------------------------- the core's moves

  lemma PushMovesTokens(s: State, job: Job, chosen: set<nat>, f: Item -> multiset<int>)
    requires SameSize(s) && Q.Enabled(s.q, Q.Push(job, chosen))
    ensures SameSize(PushMove(s, job, chosen))
    ensures Owned(PushMove(s, job, chosen), f) == Owned(s, f) + f(Item(job, job.plan))
  {
    var s' := PushMove(s, job, chosen);
    forall u | 0 <= u < |s.slaves|
      ensures Hand(s'.slaves[u], s'.q.pcs[u]) == Hand(s.slaves[u], s.q.pcs[u])
    {
      assert s'.q.pcs[u] == s.q.pcs[u] || (s.q.pcs[u].Waiting? && s'.q.pcs[u] == Q.Woken);
    }
    assert Hands(s') == Hands(s);
    ItemsAppend(s.q.jobs, job, f);
  }

  lemma PushKeepsComponents(s: State, job: Job, chosen: set<nat>)
    requires Components(s) && Q.Enabled(s.q, Q.Push(job, chosen))
    ensures Components(PushMove(s, job, chosen))
  {
    Q.StepKeepsInv(s.q, Q.Push(job, chosen));
  }

  lemma PushKeepsStages(s: State, job: Job, chosen: set<nat>)
    requires SameSize(s) && Stages(s) && ItemsOk(s) && JobOk(job) && Q.Enabled(s.q, Q.Push(job, chosen))
    ensures SameSize(PushMove(s, job, chosen)) && Stages(PushMove(s, job, chosen)) && ItemsOk(PushMove(s, job, chosen))
  {
    var s' := PushMove(s, job, chosen);
    forall u | 0 <= u < |s.slaves|
      ensures StageOk(s'.slaves[u], s'.q.pcs[u], s'.g.pcs[u], s'.w.modes[u])
      ensures ItemOk(Hand(s'.slaves[u], s'.q.pcs[u]))
    {
      assert StageOk(s.slaves[u], s.q.pcs[u], s.g.pcs[u], s.w.modes[u]);
      assert ItemOk(Hand(s.slaves[u], s.q.pcs[u]));
      assert s'.q.pcs[u] == s.q.pcs[u] || (s.q.pcs[u].Waiting? && s'.q.pcs[u] == Q.Woken);
    }
  }

  lemma ReceiveMovesTokens(s: State, job: Job, chosen: set<nat>)
    requires SameSize(s) && CoreEnabled(s, Receive(job, chosen))
    ensures SameSize(PushMove(s, job, chosen))
    ensures Owned(PushMove(s, job, chosen), MessageToken) == Owned(s, MessageToken) + multiset{job.id}
    ensures Owned(PushMove(s, job, chosen), CloseToken) == Owned(s, CloseToken)
  {
    PushMovesTokens(s, job, chosen, MessageToken);
    PushMovesTokens(s, job, chosen, CloseToken);
    assert CloseToken(Item(job, job.plan)) == multiset{};
  }

  lemma CreatedLaws(s: State, s': State)
    requires SameSize(s) && SameSize(s') && Laws(s) && s'.books == s.books.(nextId := s.books.nextId + 1)
    requires Owned(s', MessageToken) == Owned(s, MessageToken) + multiset{s.books.nextId as int}
    requires Owned(s', CloseToken) == Owned(s, CloseToken)
    ensures Laws(s')
  {
    CreateLawful(Owned(s, MessageToken), Owned(s', MessageToken), Owned(s, CloseToken), s.books);
  }

  lemma ReceiveKeepsLaws(s: State, job: Job, chosen: set<nat>)
    requires SameSize(s) && Laws(s) && CoreEnabled(s, Receive(job, chosen))
    ensures SameSize(PushMove(s, job, chosen)) && Laws(PushMove(s, job, chosen))
  {
    ReceiveMovesTokens(s, job, chosen);
    CreatedLaws(s, PushMove(s, job, chosen));
  }

  lemma ReceiveKeepsInv(s: State, job: Job, chosen: set<nat>)
    requires Inv(s) && CoreEnabled(s, Receive(job, chosen))
    ensures Inv(CoreMove(s, Receive(job, chosen)))
  {
    PushKeepsComponents(s, job, chosen);
    PushKeepsStages(s, job, chosen);
    ReceiveKeepsLaws(s, job, chosen);
  }

  lemma HangUpKeepsLaws(s: State, job: Job, chosen: set<nat>)
    requires SameSize(s) && Laws(s) && CoreEnabled(s, HangUp(job, chosen))
    ensures SameSize(CoreMove(s, HangUp(job, chosen))) && Laws(CoreMove(s, HangUp(job, chosen)))
  {
    var mid := PushMove(s, job, chosen);
    PushMovesTokens(s, job, chosen, MessageToken);
    PushMovesTokens(s, job, chosen, CloseToken);
    var s' := CoreMove(s, HangUp(job, chosen));
    assert Hands(s') == Hands(mid);
    CreateLawful(Owned(s, MessageToken), Owned(mid, MessageToken), Owned(s, CloseToken), s.books);
    HandOverLawful(Owned(mid, MessageToken), Owned(s, CloseToken), Owned(mid, CloseToken), mid.books, job.fd);
  }

  lemma HangUpKeepsInv(s: State, job: Job, chosen: set<nat>)
    requires Inv(s) && CoreEnabled(s, HangUp(job, chosen))
    ensures Inv(CoreMove(s, HangUp(job, chosen)))
  {
    PushKeepsComponents(s, job, chosen);
    PushKeepsStages(s, job, chosen);
    HangUpKeepsLaws(s, job, chosen);
  }

  /** Only the books change. */
  lemma BookMoveKeepsInv(s: State, s': State)
    requires Inv(s) && s' == s.(books := s'.books, core := s'.core) && CoreOk(s')
    requires Lawful(Owned(s, MessageToken), Owned(s, CloseToken), s'.books)
    ensures Inv(s')
  {
    assert Hands(s') == Hands(s);
  }

  lemma AcceptKeepsBooks(s: State, fd: int)
    requires SameSize(s) && Laws(s) && CoreOk(s) && CoreEnabled(s, Accept(fd))
    ensures CoreOk(CoreMove(s, Accept(fd)))
    ensures Lawful(Owned(s, MessageToken), Owned(s, CloseToken), Accepted(s.books, fd))
  {
    AcceptLawful(Owned(s, MessageToken), Owned(s, CloseToken), s.books, fd);
  }

  lemma AcceptKeepsInv(s: State, fd: int)
    requires Inv(s) && CoreEnabled(s, Accept(fd))
    ensures Inv(CoreMove(s, Accept(fd)))
  {
    AcceptKeepsBooks(s, fd);
    BookMoveKeepsInv(s, CoreMove(s, Accept(fd)));
  }

  lemma CloseAllKeepsInv(s: State)
    requires Inv(s) && CoreEnabled(s, CloseAll)
    ensures Inv(CoreMove(s, CloseAll))
  {
    CloseAllLawful(Owned(s, MessageToken), Owned(s, CloseToken), s.books);
    BookMoveKeepsInv(s, CoreMove(s, CloseAll));
  }

  lemma QueueFreeKeepsStages(s: State)
    requires SameSize(s) && Stages(s) && ItemsOk(s) && s.core.FreeingQueue? && StopEnabled(s)
    ensures SameSize(StopMove(s)) && Stages(StopMove(s)) && ItemsOk(StopMove(s)) && Hands(StopMove(s)) == Hands(s)
  {
    var s' := StopMove(s);
    forall u | 0 <= u < |s.slaves|
      ensures Hand(s'.slaves[u], s'.q.pcs[u]) == Hand(s.slaves[u], s.q.pcs[u])
      ensures StageOk(s'.slaves[u], s'.q.pcs[u], s'.g.pcs[u], s'.w.modes[u])
    {
      assert StageOk(s.slaves[u], s.q.pcs[u], s.g.pcs[u], s.w.modes[u]);
      assert s'.q.pcs[u] == s.q.pcs[u] || (s.q.pcs[u].Waiting? && s'.q.pcs[u] == Q.Woken);
    }
    forall u | 0 <= u < |s.slaves| ensures ItemOk(Hand(s'.slaves[u], s'.q.pcs[u])) {
      assert ItemOk(Hand(s.slaves[u], s.q.pcs[u]));
    }
  }

  lemma DrainMovesTokens(s: State, f: Item -> multiset<int>)
    requires SameSize(s) && s.core.FreeingQueue? && StopEnabled(s) && s.q.freer == Q.FDrain
    requires SameSize(StopMove(s)) && Hands(StopMove(s)) == Hands(s)
    ensures Owned(StopMove(s), f) + Total(Items(s.q.jobs), f) == Owned(s, f)
  {
    assert Items(StopMove(s).q.jobs) == [];
  }

  lemma DrainKeepsLaws(s: State)
    requires SameSize(s) && Laws(s) && s.core.FreeingQueue? && StopEnabled(s) && s.q.freer == Q.FDrain
    requires SameSize(StopMove(s)) && Hands(StopMove(s)) == Hands(s)
    ensures Laws(StopMove(s))
  {
    var s' := StopMove(s);
    DrainMovesTokens(s, MessageToken);
    DrainMovesTokens(s, CloseToken);
    DrainLawful(Owned(s, MessageToken), Owned(s', MessageToken), Owned(s, CloseToken), Owned(s', CloseToken),
                s.books, Total(Items(s.q.jobs), MessageToken), Total(Items(s.q.jobs), CloseToken));
  }

  lemma QuietFreeKeepsLaws(s: State)
    requires SameSize(s) && Laws(s) && s.core.FreeingQueue? && StopEnabled(s) && s.q.freer != Q.FDrain
    requires SameSize(StopMove(s)) && Hands(StopMove(s)) == Hands(s)
    ensures Laws(StopMove(s))
  {
    var s' := StopMove(s);
    assert s'.q.jobs == s.q.jobs;
    assert s'.books.freed == s.books.freed && s'.books.leaked == s.books.leaked;
    LawsTransfer(s, s');
  }

  lemma QueueFreeKeepsCore(s: State)
    requires SameSize(s) && CoreOk(s) && Q.ShutdownInv(s.q) && s.core.FreeingQueue? && StopEnabled(s)
    ensures CoreOk(StopMove(s))
  {
  }

  lemma QueueFreeKeepsInv(s: State)
    requires Inv(s) && s.core.FreeingQueue? && StopEnabled(s)
    ensures Inv(StopMove(s))
  {
    Q.StepKeepsInv(s.q, Q.Free);
    QueueFreeKeepsStages(s);
    if s.q.freer == Q.FDrain {
      DrainKeepsLaws(s);
    } else {
      QuietFreeKeepsLaws(s);
    }
    QueueFreeKeepsCore(s);
  }

  lemma BroadcastKeepsStages(s: State)
    requires SameSize(s) && Stages(s) && s.core.Broadcasting?
    ensures SameSize(StopMove(s)) && Stages(StopMove(s))
  {
    var s' := StopMove(s);
    forall u | 0 <= u < |s.slaves|
      ensures StageOk(s'.slaves[u], s'.q.pcs[u], s'.g.pcs[u], s'.w.modes[u])
    {
      assert StageOk(s.slaves[u], s.q.pcs[u], s.g.pcs[u], s.w.modes[u]);
    }
  }

  lemma DbStopKeepsInv(s: State)
    requires Inv(s) && !s.core.FreeingQueue? && StopEnabled(s)
    ensures Inv(StopMove(s))
  {
    var s' := StopMove(s);
    if s.core.SettingFlag? {
      G.StepKeepsInv(s.g, G.SetTerm);
    } else if s.core.Broadcasting? {
      G.StepKeepsInv(s.g, G.Broadcast);
      BroadcastKeepsStages(s);
    }
    assert Hands(s') == Hands(s);
    LawsTransfer(s, s');
  }

  lemma SpuriousKeepsStages(s: State, t: nat)
    requires SameSize(s) && Stages(s) && ItemsOk(s) && SpuriousEnabled(s, t)
    requires !s.q.pcs[t].Waiting? && !s.g.pcs[t].Waiting? ==> W.WellFormed(s.w)
    ensures SameSize(SpuriousMove(s, t)) && Stages(SpuriousMove(s, t)) && ItemsOk(SpuriousMove(s, t))
    ensures Hands(SpuriousMove(s, t)) == Hands(s)
  {
    var s' := SpuriousMove(s, t);
    forall u | 0 <= u < |s.slaves|
      ensures Hand(s'.slaves[u], s'.q.pcs[u]) == Hand(s.slaves[u], s.q.pcs[u])
      ensures StageOk(s'.slaves[u], s'.q.pcs[u], s'.g.pcs[u], s'.w.modes[u])
    {
      assert StageOk(s.slaves[u], s.q.pcs[u], s.g.pcs[u], s.w.modes[u]);
    }
    forall u | 0 <= u < |s.slaves| ensures ItemOk(Hand(s'.slaves[u], s'.q.pcs[u])) {
      assert ItemOk(Hand(s.slaves[u], s.q.pcs[u]));
    }
  }

  lemma SpuriousKeepsComponents(s: State, t: nat)
    requires Components(s) && SpuriousEnabled(s, t)
    ensures Components(SpuriousMove(s, t))
  {
    if s.q.pcs[t].Waiting? {
      Q.StepKeepsInv(s.q, Q.Spurious(t));
    } else if s.g.pcs[t].Waiting? {
      G.StepKeepsInv(s.g, G.Spurious(t));
    } else {
      W.StepKeepsInv(s.w, W.Spurious(t));
    }
  }

  lemma SpuriousKeepsLaws(s: State, t: nat)
    requires SameSize(s) && Laws(s) && CoreOk(s) && SpuriousEnabled(s, t)
    requires !s.q.pcs[t].Waiting? && !s.g.pcs[t].Waiting? ==> W.WellFormed(s.w)
    requires SameSize(SpuriousMove(s, t)) && Hands(SpuriousMove(s, t)) == Hands(s)
    ensures Laws(SpuriousMove(s, t)) && CoreOk(SpuriousMove(s, t))
  {
    assert SpuriousMove(s, t).q.jobs == s.q.jobs;
    LawsTransfer(s, SpuriousMove(s, t));
  }

  lemma SpuriousKeepsInv(s: State, t: nat)
    requires Inv(s) && SpuriousEnabled(s, t)
    ensures Inv(SpuriousMove(s, t))
  {
    SpuriousKeepsComponents(s, t);
    SpuriousKeepsStages(s, t);
    SpuriousKeepsLaws(s, t);
  }

  lemma StepKeepsInv(s: State, e: Event)
    requires Inv(s) && Enabled(s, e)
    ensures Inv(Apply(s, e))
  {
    match e
    case SlaveStep(t, busy, chosen) => SlaveKeepsInv(s, t, busy, chosen);
    case Spurious(t) => SpuriousKeepsInv(s, t);
    case Accept(fd) => AcceptKeepsInv(s, fd);
    case Receive(job, chosen) => ReceiveKeepsInv(s, job, chosen);
    case HangUp(job, chosen) => HangUpKeepsInv(s, job, chosen);
    case CloseAll => CloseAllKeepsInv(s);
    case CoreStop =>
      if s.core.FreeingQueue? {
        QueueFreeKeepsInv(s);
      } else {
        DbStopKeepsInv(s);
      }
  }
}
