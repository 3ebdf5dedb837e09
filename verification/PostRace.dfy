/**
 Direct posts that overlap. A post looks for its pair's chat in one statement; if there is none it
 creates a chat and enters sender and receiver in three more, and at the end inserts its message.
 Any number of posts, between any users, take these statements in any order.
 */
module PostRace {
  import opened Prelude
  import opened Relations
  import opened StoreInvariant

  /** Where a post is. `made`: it created the chat it uses. */
  datatype Pc =
    | Start
    | Missing               // has looked and found no chat
    | Created(c: int)
    | Half(c: int)          // the sender is a member of the new chat
    | Ready(c: int, made: bool)
    | Done(c: int, made: bool)

  datatype Pair = Pair(sender: Name, receiver: Name)

  datatype State = State(db: Db, pairs: seq<Pair>, pcs: seq<Pc>)

  datatype Event =
    | Look(t: nat, found: Option<int>)
    | Create(t: nat)
    | AddSender(t: nat)
    | AddReceiver(t: nat)
    | Insert(t: nat, body: Body)

  predicate WellFormed(s: State) {
    && |s.pcs| == |s.pairs|
    && forall t :: 0 <= t < |s.pairs| ==> s.pairs[t].sender != s.pairs[t].receiver
  }

  ghost predicate Init(s: State) {
    WellFormed(s) && StoreInvariant.Inv(s.db) && forall t :: 0 <= t < |s.pcs| ==> s.pcs[t] == Start
  }

  function Shared(db: Db, p: Pair): set<int> {
    DirectChats(db, p.sender, p.receiver)
  }

  predicate Enabled(s: State, e: Event) {
    && WellFormed(s) && e.t < |s.pcs|
    && match e
       case Look(t, found) =>
         && s.pcs[t].Start?
         && if found.Some? then found.value in Shared(s.db, s.pairs[t]) else Shared(s.db, s.pairs[t]) == {}
       case Create(t) => s.pcs[t].Missing?
       case AddSender(t) => s.pcs[t].Created?
       case AddReceiver(t) => s.pcs[t].Half?
       case Insert(t, _) => s.pcs[t].Ready?
  }

  function Apply(s: State, e: Event): (s': State)
    requires Enabled(s, e)
    ensures WellFormed(s') && s'.pairs == s.pairs
  {
    var p := s.pairs[e.t];
    match e
    case Look(t, found) =>
      s.(pcs := s.pcs[t := if found.Some? then Ready(found.value, false) else Missing])
    case Create(t) => s.(db := CreateChat(s.db, None), pcs := s.pcs[t := Created(s.db.nextChat)])
    case AddSender(t) => s.(db := AddMember(s.db, s.pcs[t].c, p.sender), pcs := s.pcs[t := Half(s.pcs[t].c)])
    case AddReceiver(t) => s.(db := AddMember(s.db, s.pcs[t].c, p.receiver), pcs := s.pcs[t := Ready(s.pcs[t].c, true)])
    case Insert(t, body) =>
      s.(db := InsertMessage(s.db, p.sender, body, s.pcs[t].c), pcs := s.pcs[t := Done(s.pcs[t].c, s.pcs[t].made)])
  }

  // ---------------------------------------------------------------- invariant

  /** The chat a post has created. */
  function Own(pc: Pc): Option<int> {
    match pc
    case Created(c) => Some(c)
    case Half(c) => Some(c)
    case Ready(c, made) => if made then Some(c) else None
    case Done(c, made) => if made then Some(c) else None
    case _ => None
  }

  /** Its chat has both members. */
  predicate Made(pc: Pc) {
    (pc.Ready? || pc.Done?) && pc.made
  }

  /** Between a look that found nothing and the second member. */
  predicate InFlight(pc: Pc) {
    pc.Missing? || pc.Created? || pc.Half?
  }

  predicate Missed(pc: Pc) {
    InFlight(pc) || Made(pc)
  }

  /** Who is in the chat that a post has created. */
  predicate OwnMember(pc: Pc, p: Pair, u: Name) {
    (u == p.sender && !pc.Created?) || (u == p.receiver && Made(pc))
  }

  /** The chats there were at the start are as they were. */
  ghost predicate OldChats(s: State, db0: Db) {
    && s.db.nextChat >= db0.nextChat
    && (forall c :: c in db0.chats ==> c in s.db.chats && s.db.chats[c] == db0.chats[c])
    && (forall c, u :: c in db0.chats ==> ((c, u) in s.db.members <==> (c, u) in db0.members))
  }

  /** Every other chat is one post's. */
  ghost predicate NewChats(s: State, db0: Db)
    requires WellFormed(s)
  {
    && (forall c :: c in s.db.chats ==> c < s.db.nextChat)
    && (forall c, u :: (c, u) in s.db.members ==> c in s.db.chats)
    && (forall c :: c in s.db.chats && c !in db0.chats ==>
          s.db.chats[c] == None && exists t :: 0 <= t < |s.pcs| && Own(s.pcs[t]) == Some(c))
  }

  ghost predicate Owners(s: State, db0: Db)
    requires WellFormed(s)
  {
    && (forall t :: 0 <= t < |s.pcs| && Own(s.pcs[t]).Some? ==>
          && Own(s.pcs[t]).value in s.db.chats && Own(s.pcs[t]).value !in db0.chats
          && forall u :: (Own(s.pcs[t]).value, u) in s.db.members <==> OwnMember(s.pcs[t], s.pairs[t], u))
    && (forall t, u :: 0 <= t < u < |s.pcs| && Own(s.pcs[t]).Some? ==> Own(s.pcs[t]) != Own(s.pcs[u]))
    && (forall t :: 0 <= t < |s.pcs| && Missed(s.pcs[t]) ==> Shared(db0, s.pairs[t]) == {})
  }

  ghost predicate Inv(s: State, db0: Db) {
    WellFormed(s) && StoreInvariant.Inv(db0) && OldChats(s, db0) && NewChats(s, db0) && Owners(s, db0)
  }

  lemma InitInv(s: State)
    requires Init(s)
    ensures Inv(s, s.db)
  {
  }

  predicate SamePair(p: Pair, q: Pair) {
    p == q || p == Pair(q.receiver, q.sender)
  }

  /** Exactly when a look finds nothing: there was no chat at the start, and no post of the pair has
      finished making one. */
  lemma LookMissesIff(s: State, db0: Db, t: nat)
    requires Inv(s, db0) && t < |s.pcs|
    ensures Shared(s.db, s.pairs[t]) == {} <==>
            && Shared(db0, s.pairs[t]) == {}
            && forall u :: 0 <= u < |s.pcs| && Made(s.pcs[u]) ==> !SamePair(s.pairs[u], s.pairs[t])
  {
    var p := s.pairs[t];
    if c :| c in Shared(db0, p) {
      assert c in Shared(s.db, p);
    }
    if u :| 0 <= u < |s.pcs| && Made(s.pcs[u]) && SamePair(s.pairs[u], p) {
      var c := Own(s.pcs[u]).value;
      assert OwnMember(s.pcs[u], s.pairs[u], p.sender) && OwnMember(s.pcs[u], s.pairs[u], p.receiver);
      assert c in Shared(s.db, p);
    }
    if c :| c in Shared(s.db, p) {
      if c in db0.chats {
        assert c in Shared(db0, p);
      } else {
        var u := OwnedByPair(s, db0, c, p);
      }
    }
  }

  /** A new chat with two different members is a post's whose pair they are. */
  lemma OwnedByPair(s: State, db0: Db, c: int, p: Pair) returns (u: nat)
    requires Inv(s, db0) && c in s.db.chats && c !in db0.chats && p.sender != p.receiver
    requires (c, p.sender) in s.db.members && (c, p.receiver) in s.db.members
    ensures u < |s.pcs| && Own(s.pcs[u]) == Some(c) && Made(s.pcs[u]) && SamePair(s.pairs[u], p)
    ensures Shared(db0, p) == {}
  {
    u :| 0 <= u < |s.pcs| && Own(s.pcs[u]) == Some(c);
    assert OwnMember(s.pcs[u], s.pairs[u], p.sender) && OwnMember(s.pcs[u], s.pairs[u], p.receiver);
    assert Shared(db0, p) == Shared(db0, s.pairs[u]);
  }

  /** Two posts of one pair have both made a chat. */
  predicate Twins(s: State, t: nat, u: nat)
    requires WellFormed(s)
  {
    t < |s.pcs| && u < |s.pcs| && t != u && SamePair(s.pairs[t], s.pairs[u]) && Made(s.pcs[t]) && Made(s.pcs[u])
  }

  lemma TwinsSplit(s: State, db0: Db, t: nat, u: nat)
    requires Inv(s, db0) && Twins(s, t, u)
    ensures !UniqueDirect(s.db)
  {
    var c, d, p := Own(s.pcs[t]).value, Own(s.pcs[u]).value, s.pairs[t];
    assert OwnMember(s.pcs[t], s.pairs[t], p.sender) && OwnMember(s.pcs[t], s.pairs[t], p.receiver);
    assert OwnMember(s.pcs[u], s.pairs[u], p.sender) && OwnMember(s.pcs[u], s.pairs[u], p.receiver);
    assert IsDirect(s.db, c) && IsDirect(s.db, d) && c != d;
  }

  /** A pair that had a chat at the start gets no other. */
  lemma OldIsAlone(s: State, db0: Db, c: int, d: int, p: Pair)
    requires Inv(s, db0) && p.sender != p.receiver && c in Shared(s.db, p) && d in Shared(s.db, p)
    ensures c in db0.chats ==> c == d
  {
    if c in db0.chats {
      assert c in Shared(db0, p) && IsDirect(db0, c);
      if d in db0.chats {
        assert IsDirect(db0, d);
      } else {
        var u := OwnedByPair(s, db0, d, p);
      }
    }
  }

  /** Two direct chats with the same two members are twins'. */
  lemma SharedTwice(s: State, db0: Db, c: int, d: int, p: Pair) returns (t: nat, u: nat)
    requires Inv(s, db0) && p.sender != p.receiver && c != d && c in Shared(s.db, p) && d in Shared(s.db, p)
    ensures Twins(s, t, u)
  {
    OldIsAlone(s, db0, c, d, p);
    OldIsAlone(s, db0, d, c, p);
    t := OwnedByPair(s, db0, c, p);
    u := OwnedByPair(s, db0, d, p);
  }

  /** In every state, exactly the twins break the uniqueness of direct chats. */
  lemma UniqueIff(s: State, db0: Db)
    requires Inv(s, db0)
    ensures UniqueDirect(s.db) <==> forall t: nat, u: nat :: !Twins(s, t, u)
  {
    if t: nat, u: nat :| Twins(s, t, u) {
      TwinsSplit(s, db0, t, u);
    }
    if !UniqueDirect(s.db) {
      var c, d, a, b :| c in s.db.chats && d in s.db.chats && IsDirect(s.db, c) && IsDirect(s.db, d) && a != b
        && (c, a) in s.db.members && (c, b) in s.db.members
        && (d, a) in s.db.members && (d, b) in s.db.members && c != d;
      var t, u := SharedTwice(s, db0, c, d, Pair(a, b));
    }
  }

  // ---------------------------------------------------------------- steps

  /** A step after which every post has the chat it had. */
  lemma SameOwners(s: State, s': State, db0: Db)
    requires WellFormed(s) && WellFormed(s') && NewChats(s, db0) && |s'.pcs| == |s.pcs|
    requires s'.db.chats == s.db.chats && s'.db.nextChat == s.db.nextChat
    requires forall t :: 0 <= t < |s.pcs| ==> Own(s'.pcs[t]) == Own(s.pcs[t])
    requires forall c, u :: (c, u) in s'.db.members ==> c in s'.db.chats
    ensures NewChats(s', db0)
  {
    forall c | c in s'.db.chats && c !in db0.chats
      ensures exists u :: 0 <= u < |s'.pcs| && Own(s'.pcs[u]) == Some(c)
    {
      var u :| 0 <= u < |s.pcs| && Own(s.pcs[u]) == Some(c);
      assert Own(s'.pcs[u]) == Some(c);
    }
  }

  lemma LookKeepsOwners(s: State, db0: Db, t: nat, found: Option<int>)
    requires WellFormed(s) && Owners(s, db0) && Enabled(s, Look(t, found))
    requires found.None? ==> Shared(db0, s.pairs[t]) == {}
    ensures Owners(Apply(s, Look(t, found)), db0)
  {
    var s' := Apply(s, Look(t, found));
    forall u | 0 <= u < |s.pcs| ensures Own(s'.pcs[u]) == Own(s.pcs[u]) {}
  }

  lemma LookKeepsInv(s: State, db0: Db, t: nat, found: Option<int>)
    requires Inv(s, db0) && Enabled(s, Look(t, found))
    ensures Inv(Apply(s, Look(t, found)), db0)
  {
    LookMissesIff(s, db0, t);
    LookKeepsOwners(s, db0, t, found);
    SameOwners(s, Apply(s, Look(t, found)), db0);
  }

  lemma CreateKeepsNew(s: State, db0: Db, t: nat)
    requires WellFormed(s) && NewChats(s, db0) && Enabled(s, Create(t))
    ensures NewChats(Apply(s, Create(t)), db0)
  {
    var s' := Apply(s, Create(t));
    assert Own(s'.pcs[t]) == Some(s.db.nextChat);
    forall c | c in s'.db.chats && c !in db0.chats
      ensures exists u :: 0 <= u < |s'.pcs| && Own(s'.pcs[u]) == Some(c)
    {
      if c != s.db.nextChat {
        var u :| 0 <= u < |s.pcs| && Own(s.pcs[u]) == Some(c);
        assert Own(s'.pcs[u]) == Some(c);
      }
    }
  }

  lemma CreateKeepsOwners(s: State, db0: Db, t: nat)
    requires WellFormed(s) && Keys(db0) && OldChats(s, db0) && NewChats(s, db0) && Owners(s, db0)
    requires Enabled(s, Create(t))
    ensures Owners(Apply(s, Create(t)), db0) && OldChats(Apply(s, Create(t)), db0)
  {
  }

  lemma CreateKeepsInv(s: State, db0: Db, t: nat)
    requires Inv(s, db0) && Enabled(s, Create(t))
    ensures Inv(Apply(s, Create(t)), db0)
  {
    CreateKeepsNew(s, db0, t);
    CreateKeepsOwners(s, db0, t);
  }

  lemma OwnerStepKeepsOwners(s: State, db0: Db, e: Event)
    requires WellFormed(s) && OldChats(s, db0) && Owners(s, db0) && Enabled(s, e)
    requires e.AddSender? || e.AddReceiver? || e.Insert?
    ensures Owners(Apply(s, e), db0) && OldChats(Apply(s, e), db0)
  {
    var s' := Apply(s, e);
    forall u | 0 <= u < |s.pcs| ensures Own(s'.pcs[u]) == Own(s.pcs[u]) {}
    forall u | 0 <= u < |s.pcs| && u != e.t && Own(s.pcs[u]).Some?
      ensures e.Insert? || Own(s.pcs[u]).value != s.pcs[e.t].c
    {}
  }

  lemma OwnerStepKeepsInv(s: State, db0: Db, e: Event)
    requires Inv(s, db0) && Enabled(s, e) && (e.AddSender? || e.AddReceiver? || e.Insert?)
    ensures Inv(Apply(s, e), db0)
  {
    OwnerStepKeepsOwners(s, db0, e);
    assert e.Insert? || Own(s.pcs[e.t]) == Some(s.pcs[e.t].c);
    SameOwners(s, Apply(s, e), db0);
  }

  lemma StepKeepsInv(s: State, db0: Db, e: Event)
    requires Inv(s, db0) && Enabled(s, e)
    ensures Inv(Apply(s, e), db0)
  {
    match e
    case Look(t, found) => LookKeepsInv(s, db0, t, found);
    case Create(t) => CreateKeepsInv(s, db0, t);
    case AddSender(_) => OwnerStepKeepsInv(s, db0, e);
    case AddReceiver(_) => OwnerStepKeepsInv(s, db0, e);
    case Insert(_, _) => OwnerStepKeepsInv(s, db0, e);
  }

  // ---------------------------------------------------------------- runs

  ghost predicate Next(s: State, s': State) {
    exists e: Event :: Enabled(s, e) && s' == Apply(s, e)
  }

  ghost predicate IsRun(run: seq<State>) {
    && |run| > 0 && Init(run[0])
    && forall i :: 0 <= i < |run| - 1 ==> Next(run[i], run[i + 1])
  }

  lemma EventAt(run: seq<State>, i: nat) returns (e: Event)
    requires IsRun(run) && i + 1 < |run|
    ensures Enabled(run[i], e) && run[i + 1] == Apply(run[i], e)
  {
    assert Next(run[i], run[i + 1]);
    e :| Enabled(run[i], e) && run[i + 1] == Apply(run[i], e);
  }

  lemma {:induction false} RunInv(run: seq<State>, i: nat)
    requires IsRun(run) && i < |run|
    ensures Inv(run[i], run[0].db) && run[i].pairs == run[0].pairs
  {
    if i == 0 {
      InitInv(run[0]);
    } else {
      RunInv(run, i - 1);
      var e := EventAt(run, i - 1);
      StepKeepsInv(run[i - 1], run[0].db, e);
    }
  }

  /** Two posts of one pair are between look and second member at the same time. */
  predicate Overlap(s: State, t: nat, u: nat)
    requires WellFormed(s)
  {
    t < |s.pcs| && u < |s.pcs| && t != u && SamePair(s.pairs[t], s.pairs[u]) && InFlight(s.pcs[t]) && InFlight(s.pcs[u])
  }

  ghost predicate Overlapped(run: seq<State>, i: nat, t: nat, u: nat)
    requires IsRun(run) && i < |run|
  {
    exists j: nat :: j <= i && WellFormed(run[j]) && Overlap(run[j], t, u)
  }

  /** What a step can do to two posts of one pair that have both missed after it. */
  lemma MissedTogether(s: State, db0: Db, e: Event, t: nat, u: nat)
    requires Inv(s, db0) && Enabled(s, e) && t < |s.pcs| && u < |s.pcs| && t != u && SamePair(s.pairs[t], s.pairs[u])
    requires Missed(Apply(s, e).pcs[t]) && Missed(Apply(s, e).pcs[u])
    ensures (Missed(s.pcs[t]) && Missed(s.pcs[u])) || Overlap(Apply(s, e), t, u)
  {
    if e.Look? && (e.t == t || e.t == u) {
      LookMissesIff(s, db0, e.t);
    }
  }

  lemma {:induction false} MissedMeansOverlapped(run: seq<State>, i: nat, t: nat, u: nat)
    requires IsRun(run) && i < |run| && t < |run[i].pcs| && u < |run[i].pcs| && t != u
    requires WellFormed(run[i]) && SamePair(run[i].pairs[t], run[i].pairs[u])
    requires Missed(run[i].pcs[t]) && Missed(run[i].pcs[u])
    ensures Overlapped(run, i, t, u)
  {
    if i > 0 {
      RunInv(run, i - 1);
      var e := EventAt(run, i - 1);
      MissedTogether(run[i - 1], run[0].db, e, t, u);
      if Missed(run[i - 1].pcs[t]) && Missed(run[i - 1].pcs[u]) {
        MissedMeansOverlapped(run, i - 1, t, u);
        var j: nat :| j <= i - 1 && WellFormed(run[j]) && Overlap(run[j], t, u);
      }
    }
  }

  lemma MissedStep(s: State, s': State, t: nat)
    requires Next(s, s') && t < |s.pcs| && Missed(s.pcs[t])
    ensures t < |s'.pcs| && Missed(s'.pcs[t])
  {
    var e: Event :| Enabled(s, e) && s' == Apply(s, e);
  }

  lemma {:induction false} MissedStays(run: seq<State>, j: nat, i: nat, t: nat)
    requires IsRun(run) && j <= i < |run| && t < |run[j].pcs| && Missed(run[j].pcs[t])
    ensures t < |run[i].pcs| && Missed(run[i].pcs[t])
  {
    if j < i {
      MissedStays(run, j, i - 1, t);
      assert Next(run[i - 1], run[i - 1 + 1]);
      MissedStep(run[i - 1], run[i], t);
    }
  }

  /** Whenever no post is in the middle of making a chat, direct chats have lost their uniqueness
      exactly if two posts of one pair have, at some moment before, both been between a look that
      found nothing and the second member. */
  lemma DuplicatesIff(run: seq<State>, i: nat)
    requires IsRun(run) && i < |run|
    requires forall t :: 0 <= t < |run[i].pcs| ==> !InFlight(run[i].pcs[t])
    ensures !UniqueDirect(run[i].db) <==> exists t, u :: Overlapped(run, i, t, u)
  {
    RunInv(run, i);
    UniqueIff(run[i], run[0].db);
    if t: nat, u: nat :| Twins(run[i], t, u) {
      MissedMeansOverlapped(run, i, t, u);
    }
    if t: nat, u: nat :| Overlapped(run, i, t, u) {
      var j: nat :| j <= i && WellFormed(run[j]) && Overlap(run[j], t, u);
      RunInv(run, j);
      MissedStays(run, j, i, t);
      MissedStays(run, j, i, u);
      assert Twins(run[i], t, u);
    }
  }

  /** Posts that never overlap keep direct chats unique, whatever else they do to each other. */
  lemma NoOverlapKeepsUnique(run: seq<State>, i: nat)
    requires IsRun(run) && i < |run|
    requires forall t, u :: !Overlapped(run, i, t, u)
    ensures UniqueDirect(run[i].db)
  {
    RunInv(run, i);
    UniqueIff(run[i], run[0].db);
    if t: nat, u: nat :| Twins(run[i], t, u) {
      MissedMeansOverlapped(run, i, t, u);
    }
  }

  lemma OneMore(run: seq<State>, e: Event) returns (longer: seq<State>)
    requires IsRun(run) && Enabled(run[|run| - 1], e)
    ensures longer == run + [Apply(run[|run| - 1], e)] && IsRun(longer)
  {
    assert Next(run[|run| - 1], Apply(run[|run| - 1], e));
    longer := run + [Apply(run[|run| - 1], e)];
  }

  /** Two posts of a pair that has no chat yet, both looking first, make two. */
  lemma TwoChats(db: Db, p: Pair) returns (run: seq<State>)
    requires StoreInvariant.Inv(db) && p.sender != p.receiver && Shared(db, p) == {}
    ensures IsRun(run) && run[0] == State(db, [p, p], [Start, Start])
    ensures !UniqueDirect(run[|run| - 1].db)
    ensures run[|run| - 1].pcs == [Ready(db.nextChat, true), Ready(db.nextChat + 1, true)]
  {
    run := [State(db, [p, p], [Start, Start])];
    run := OneMore(run, Look(0, None));
    run := OneMore(run, Look(1, None));
    run := Makes(run, 0);
    run := Makes(run, 1);
    EndsInTwins(run);
  }

  lemma EndsInTwins(run: seq<State>)
    requires IsRun(run) && WellFormed(run[|run| - 1]) && Twins(run[|run| - 1], 0, 1)
    ensures !UniqueDirect(run[|run| - 1].db)
  {
    RunInv(run, |run| - 1);
    TwinsSplit(run[|run| - 1], run[0].db, 0, 1);
  }

  /** Post t, which has missed, makes its chat. */
  lemma Makes(run: seq<State>, t: nat) returns (longer: seq<State>)
    requires IsRun(run) && WellFormed(run[|run| - 1])
    requires t < |run[|run| - 1].pcs| && run[|run| - 1].pcs[t] == Missing
    ensures IsRun(longer) && run <= longer && WellFormed(longer[|longer| - 1])
    ensures longer[|longer| - 1].pairs == run[|run| - 1].pairs
    ensures longer[|longer| - 1].pcs == run[|run| - 1].pcs[t := Ready(run[|run| - 1].db.nextChat, true)]
    ensures longer[|longer| - 1].db.nextChat == run[|run| - 1].db.nextChat + 1
  {
    longer := OneMore(run, Create(t));
    longer := OneMore(longer, AddSender(t));
    longer := OneMore(longer, AddReceiver(t));
  }

  /** With nobody in between, the statements are the direct post of Relations. */
  lemma AloneIsPostDirect(db: Db, p: Pair, body: Body)
    requires p.sender != p.receiver
    ensures var found := ExistingChat(db, p.sender, p.receiver);
      var s := State(db, [p], [Start]);
      && Enabled(s, Look(0, found))
      && var a := Apply(s, Look(0, found));
         if found.Some? then Apply(a, Insert(0, body)).db == PostDirect(db, p.sender, p.receiver, body)
         else Apply(Apply(Apply(Apply(a, Create(0)), AddSender(0)), AddReceiver(0)), Insert(0, body)).db
              == PostDirect(db, p.sender, p.receiver, body)
  {
  }
}
