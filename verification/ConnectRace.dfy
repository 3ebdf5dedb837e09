/**
 Any number of slaves serving CONNECT requests for one registered nickname at the same time.
 Each request reads the nickname's descriptor in one statement and updates the row in another;
 other requests come in between, possibly over the same connection. Nobody disconnects meanwhile.
 */
module ConnectRace {
  import opened Prelude
  import opened Jobs
  import opened Relations

  /** A request that has read the row, and where it got to. `took`: its update changed the row. */
  datatype Pc = Start | Seen(row: int) | Answered(op: int, took: bool)

  datatype State = State(row: int, fds: seq<int>, pcs: seq<Pc>)

  datatype Event = Look(t: nat) | Finish(t: nat)

  predicate WellFormed(s: State) {
    && |s.fds| == |s.pcs|
    && forall t :: 0 <= t < |s.fds| ==> s.fds[t] >= 0
  }

  ghost predicate Init(s: State) {
    && WellFormed(s) && s.row == DISCONNECTED_FD
    && forall t :: 0 <= t < |s.pcs| ==> s.pcs[t] == Start
  }

  predicate Enabled(s: State, e: Event) {
    && WellFormed(s)
    && match e
       case Look(t) => t < |s.pcs| && s.pcs[t].Start?
       case Finish(t) => t < |s.pcs| && s.pcs[t].Seen?
  }

  function Apply(s: State, e: Event): (s': State)
    requires Enabled(s, e)
    ensures WellFormed(s') && s'.fds == s.fds
  {
    match e
    case Look(t) => s.(pcs := s.pcs[t := Seen(s.row)])
    case Finish(t) =>
      var seen := s.pcs[t].row;
      if seen == s.fds[t] then s.(pcs := s.pcs[t := Answered(OP_OK, false)])
      else if seen != DISCONNECTED_FD then s.(pcs := s.pcs[t := Answered(OP_FAIL, false)])
      else if s.row == DISCONNECTED_FD then
        s.(row := s.fds[t], pcs := s.pcs[t := Answered(OP_OK, true)])
      else s.(pcs := s.pcs[t := Answered(OP_OK, false)])
  }

  ghost predicate Executes(s: State, events: seq<Event>, end: State)
    decreases |events|
  {
    if events == [] then end == s
    else Enabled(s, events[0]) && Executes(Apply(s, events[0]), events[1..], end)
  }

  predicate Took(pc: Pc) {
    pc.Answered? && pc.took
  }

  /** The row belongs to the one request that took it. */
  ghost predicate Inv(s: State) {
    && WellFormed(s)
    && (forall t :: 0 <= t < |s.pcs| && Took(s.pcs[t]) ==> s.row == s.fds[t])
    && (forall t, u :: 0 <= t < u < |s.pcs| ==> !(Took(s.pcs[t]) && Took(s.pcs[u])))
    && (s.row != DISCONNECTED_FD ==> exists t :: 0 <= t < |s.pcs| && Took(s.pcs[t]))
    && (forall t :: 0 <= t < |s.pcs| && s.pcs[t].Seen? ==> s.pcs[t].row == DISCONNECTED_FD || s.pcs[t].row == s.row)
  }

  lemma StepKeepsInv(s: State, e: Event)
    requires Inv(s) && Enabled(s, e)
    ensures Inv(Apply(s, e))
  {
    var s' := Apply(s, e);
    if t :| 0 <= t < |s.pcs| && Took(s.pcs[t]) {
      assert Took(s'.pcs[t]);
    }
    if e.Finish? && s'.row != s.row {
      assert Took(s'.pcs[e.t]);
    }
  }

  lemma {:induction false} RunInv(s: State, events: seq<Event>, end: State)
    requires Inv(s) && Executes(s, events, end)
    ensures Inv(end)
    decreases |events|
  {
    if events != [] {
      StepKeepsInv(s, events[0]);
      RunInv(Apply(s, events[0]), events[1..], end);
    }
  }

  /** However the requests interleave, at most one update takes effect, and the row then holds
      that request's descriptor. */
  lemma OneUpdateTakesEffect(s: State, events: seq<Event>, end: State, t: nat, u: nat)
    requires Init(s) && Executes(s, events, end) && t < |end.pcs| && u < |end.pcs|
    requires Took(end.pcs[t])
    ensures WellFormed(end) && end.row == end.fds[t]
    ensures Took(end.pcs[u]) ==> u == t
  {
    RunInv(s, events, end);
  }

  /** Exactly when a request is answered OP_OK without an update of its own: it read its own
      descriptor, which another request over the same connection had put there, or it read the row as
      free, and by the time of its update another request had taken it. */
  lemma HollowOkIff(s: State, t: nat)
    requires Inv(s) && Enabled(s, Finish(t))
    ensures Apply(s, Finish(t)).pcs[t] == Answered(OP_OK, false) <==>
            || s.pcs[t].row == s.fds[t]
            || (s.pcs[t].row == DISCONNECTED_FD && exists u :: 0 <= u < |s.pcs| && u != t && Took(s.pcs[u]))
    ensures Apply(s, Finish(t)).pcs[t] == Answered(OP_OK, false) ==> exists u ::
      0 <= u < |s.pcs| && u != t && Took(s.pcs[u]) && s.row == s.fds[u]
  {
  }

  /** So with an OP_OK the nickname is somebody's, and it is on the requester's own connection unless
      the request overlapped with one from elsewhere. */
  lemma OkMeans(s: State, t: nat)
    requires Inv(s) && Enabled(s, Finish(t))
    ensures var s' := Apply(s, Finish(t)); s'.pcs[t].op == OP_OK ==>
      s'.row != DISCONNECTED_FD
      && (s'.row != s.fds[t] <==> s.pcs[t].row == DISCONNECTED_FD && exists u ::
           0 <= u < |s.pcs| && u != t && Took(s.pcs[u]) && s.fds[u] != s.fds[t])
  {
  }

  /** It happens to any two requests that both read before either updates. */
  lemma BothAnsweredOk(s: State, t: nat, u: nat)
    requires Init(s) && t < |s.pcs| && u < |s.pcs| && t != u
    ensures exists end ::
      && Executes(s, [Look(t), Look(u), Finish(t), Finish(u)], end)
      && |end.pcs| == |s.pcs| && end.pcs[t] == Answered(OP_OK, true) && end.pcs[u] == Answered(OP_OK, false)
  {
    var a := Apply(s, Look(t));
    var b := Apply(a, Look(u));
    var c := Apply(b, Finish(t));
    var d := Apply(c, Finish(u));
    Then(c, Finish(u), [], d);
    Then(b, Finish(t), [Finish(u)], d);
    Then(a, Look(u), [Finish(t), Finish(u)], d);
    Then(s, Look(t), [Look(u), Finish(t), Finish(u)], d);
  }

  /** With nobody in between, the two statements are the CONNECT operation of Relations. */
  lemma AloneIsConnect(db: Db, user: Name, fd: int)
    requires |user| <= MAX_NAME_LENGTH && user in db.users && fd >= 0
    ensures var s := State(db.users[user], [fd], [Start]);
      var end := Apply(Apply(s, Look(0)), Finish(0));
      var (db', op) := Connect(db, user, fd);
      user in db'.users && end.row == db'.users[user] && end.pcs[0].Answered? && end.pcs[0].op == op
  {
  }

  lemma Then(s: State, e: Event, events: seq<Event>, end: State)
    requires Enabled(s, e) && Executes(Apply(s, e), events, end)
    ensures Executes(s, [e] + events, end)
  {
    assert ([e] + events)[1..] == events;
  }
}
