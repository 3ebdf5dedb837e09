/**
 One request from end to end: the slave asks the store, and sends what follows from the answers. The
 theorems say, over the tables alone, who is told of a post and what the requester is answered; and
 that a slave which has done the request's plan has made exactly these sends.
 */
module Requests {
  import opened Prelude
  import opened Jobs
  import opened Wire
  import opened Replies
  import C = CarriedOut
  import Q = JobQueue
  import SV = Server
  import FR = FileRepack
  import I = StoreInvariant
  import O = Outcomes
  import R = Relations
  import S = Store

  // ---------------------------------------------------------------- a request for the store

  function Chars(b: seq<byte>): string {
    seq(|b|, i requires 0 <= i < |b| => b[i] as char)
  }

  /** The bytes before the first NUL. */
  function UntilNul(b: seq<byte>): seq<byte> {
    if 0 in b then FR.CString(b) else b
  }

  function NameOf(field: NameField): R.Name {
    Chars(UntilNul(field))
  }

  function Sender(req: Request): R.Name {
    NameOf(req.msg.hdr.sender)
  }

  /** The receiver of a post, or the group. */
  function Receiver(req: Request): R.Name {
    NameOf(req.msg.data.receiver)
  }

  /** What is kept of a post: its text, or the file's name. */
  function BodyOf(req: Request): R.Body {
    var text := Chars(UntilNul(req.msg.data.body));
    if req.msg.hdr.op == POSTFILE_OP then R.File(text) else R.Text(text)
  }

  /** The operations of the store that serving the request runs; `names` is the list of users as the
      database returns it. */
  function OpsOf(req: Request, names: seq<R.Name>): seq<I.Op> {
    var op := req.msg.hdr.op;
    if op == REGISTER_OP then [I.RegisterOp(Sender(req), req.fd), I.DisconnectOp(req.fd)]
    else if op == CONNECT_OP then [I.ConnectOp(Sender(req), req.fd)]
    else if op == DISCONNECT_OP then [I.DisconnectOp(req.fd)]
    else if op == UNREGISTER_OP then [I.UnregisterOp(Sender(req))]
    else if op == POSTTXT_OP || op == POSTFILE_OP then [I.PostOp(Sender(req), Receiver(req), BodyOf(req), req.fd)]
    else if op == POSTTXTALL_OP then [I.PostAllOp(Sender(req), Receiver(req), BodyOf(req), names)]
    else if op == CREATEGROUP_OP then [I.CreateGroupOp(Receiver(req), Sender(req))]
    else if op == ADDGROUP_OP then [I.AddToGroupOp(Receiver(req), Sender(req))]
    else if op == DELGROUP_OP then [I.RemoveFromGroupOp(Receiver(req), Sender(req), req.fd)]
    else []
  }

  ghost predicate PostAnswered(db: R.Db, result: R.PostResult, a: Answers) {
    && S.Answers(a.noFd, a.fds, db, result)
    && (a.noFd > 0 ==> (a.toGroup <==> result.ToGroup?))
  }

  /** What the calls answer, when the tables are db. */
  ghost predicate AnsweredBy(db: R.Db, req: Request, a: Answers, names: seq<R.Name>) {
    var op := req.msg.hdr.op;
    && (op == REGISTER_OP ==> a.result == R.Register(db, Sender(req), req.fd).1)
    && (op == CONNECT_OP ==> a.result == R.Connect(db, Sender(req), req.fd).1)
    && (op == UNREGISTER_OP ==> a.result == R.Unregister(db, Sender(req)).1)
    && (op == CREATEGROUP_OP ==> a.result == R.CreateGroup(db, Receiver(req), Sender(req)).1)
    && (op == ADDGROUP_OP ==> a.result == R.AddToGroup(db, Receiver(req), Sender(req)).1)
    && (op == DELGROUP_OP ==> a.result == R.RemoveFromGroup(db, Receiver(req), Sender(req), req.fd).1)
    && (op == POSTTXT_OP || op == POSTFILE_OP ==>
          PostAnswered(db, R.Post(db, Sender(req), Receiver(req), BodyOf(req), req.fd).1, a))
    && (op == POSTTXTALL_OP ==> AllAnswered(db, req, a, names))
  }

  /** With at most one user the number of descriptors is answered, but not the descriptors. */
  ghost predicate AllAnswered(db: R.Db, req: Request, a: Answers, names: seq<R.Name>) {
    var result := R.PostAll(db, Sender(req), Receiver(req), BodyOf(req), names).1;
    && R.Lists(names, db.users.Keys) && !a.toGroup
    && if result.ToUser? && |names| <= 1 then a.noFd >= 0 && a.fds == []
       else S.Answers(a.noFd, a.fds, db, result)
  }

  method AskForPost(db: S.Database, req: Request, other: Answers) returns (a: Answers)
    requires db.Valid() && (req.msg.hdr.op == POSTTXT_OP || req.msg.hdr.op == POSTFILE_OP)
    modifies db
    ensures db.Valid() && db.log == old(db.log) + OpsOf(req, [])
    ensures a == other.(noFd := a.noFd, fds := a.fds, toGroup := a.toGroup)
    ensures PostAnswered(old(db.View()), R.Post(old(db.View()), Sender(req), Receiver(req), BodyOf(req), req.fd).1, a)
  {
    var toGroup := Receiver(req) !in db.users;
    var noFd, fds := db.ManagePostMessage(Sender(req), Receiver(req), BodyOf(req), req.fd);
    a := other.(noFd := noFd, fds := fds, toGroup := toGroup);
  }

  method AskForPostToAll(db: S.Database, req: Request, other: Answers) returns (a: Answers, ghost names: seq<R.Name>)
    requires db.Valid() && req.msg.hdr.op == POSTTXTALL_OP
    modifies db
    ensures db.Valid() && db.log == old(db.log) + OpsOf(req, names)
    ensures a == other.(noFd := a.noFd, fds := a.fds, toGroup := a.toGroup)
    ensures AllAnswered(old(db.View()), req, a, names)
  {
    ghost var before := db.View();
    var noFd, fds;
    noFd, fds, names := db.ManagePostToAll(Sender(req), Receiver(req), BodyOf(req));
    a := other.(noFd := noFd, fds := fds, toGroup := false);
    if Sender(req) != Receiver(req) && |names| <= 1 {
      NobodyListed(before, fds);
    }
  }

  lemma NobodyListed(db: R.Db, fds: seq<int>)
    requires S.Answers(0, fds, db, R.ToUser({}))
    ensures fds == []
  {
  }

  /** Signing up, connecting, and the two endings. A registration is followed by a disconnection of the
      descriptor. */
  method AskForUser(db: S.Database, req: Request, other: Answers) returns (a: Answers)
    requires db.Valid() && IsUserOp(req.msg.hdr.op) && IsResult(other.result)
    modifies db
    ensures db.Valid() && db.log == old(db.log) + OpsOf(req, [])
    ensures AnsweredBy(old(db.View()), req, a, []) && IsResult(a.result) && a == other.(result := a.result)
  {
    StoreAnswersResults(db.View(), Sender(req), Receiver(req), req.fd);
    var result: int := other.result;
    if req.msg.hdr.op == REGISTER_OP {
      result := db.ManageInsertUser(Sender(req), req.fd);
      db.ManageDisconnectUser(req.fd);
    } else if req.msg.hdr.op == CONNECT_OP {
      result := db.ManageConnectUser(Sender(req), req.fd);
    } else if req.msg.hdr.op == DISCONNECT_OP {
      db.ManageDisconnectUser(req.fd);
    } else {
      result := db.ManageUnregisterUser(Sender(req));
    }
    a := other.(result := result);
  }

  predicate IsUserOp(op: int) {
    op == REGISTER_OP || op == CONNECT_OP || op == DISCONNECT_OP || op == UNREGISTER_OP
  }

  method AskForGroup(db: S.Database, req: Request, other: Answers) returns (a: Answers)
    requires db.Valid() && CREATEGROUP_OP <= req.msg.hdr.op <= DELGROUP_OP
    modifies db
    ensures db.Valid() && db.log == old(db.log) + OpsOf(req, [])
    ensures AnsweredBy(old(db.View()), req, a, []) && IsResult(a.result) && a == other.(result := a.result)
  {
    StoreAnswersResults(db.View(), Sender(req), Receiver(req), req.fd);
    var result;
    if req.msg.hdr.op == CREATEGROUP_OP {
      result := db.ManageCreateGroup(Receiver(req), Sender(req));
    } else if req.msg.hdr.op == ADDGROUP_OP {
      result := db.ManageAddToGroup(Receiver(req), Sender(req));
    } else {
      result := db.ManageRemoveUserFromGroup(Receiver(req), Sender(req), req.fd);
    }
    a := other.(result := result);
  }

  /** The calls of the dispatch, by code; the others do not touch the tables. */
  method AskStore(db: S.Database, req: Request, other: Answers) returns (a: Answers, ghost names: seq<R.Name>)
    requires db.Valid() && GoodAnswers(req, other)
    modifies db
    ensures db.Valid() && db.log == old(db.log) + OpsOf(req, names)
    ensures GoodAnswers(req, a) && AnsweredBy(old(db.View()), req, a, names)
    ensures a == other.(result := a.result, noFd := a.noFd, fds := a.fds, toGroup := a.toGroup)
  {
    a, names := other, [];
    if IsUserOp(req.msg.hdr.op) {
      a := AskForUser(db, req, other);
    } else if req.msg.hdr.op == POSTFILE_OP || req.msg.hdr.op == POSTTXT_OP {
      a := AskForPost(db, req, other);
    } else if req.msg.hdr.op == POSTTXTALL_OP {
      a, names := AskForPostToAll(db, req, other);
    } else if CREATEGROUP_OP <= req.msg.hdr.op <= DELGROUP_OP {
      a := AskForGroup(db, req, other);
    }
  }

  /** One request: the store is asked, and the dispatch sends what follows from its answers. */
  method ServeRequest(db: S.Database, d: Dispatcher, req: Request, other: Answers)
    returns (a: Answers, ghost names: seq<R.Name>)
    requires db.Valid() && GoodAnswers(req, other)
    modifies db, d
    ensures db.Valid() && db.log == old(db.log) + OpsOf(req, names)
    ensures GoodAnswers(req, a) && AnsweredBy(old(db.View()), req, a, names)
    ensures d.sent == old(d.sent) + Sends(req, a)
  {
    a, names := AskStore(db, req, other);
    var _, _ := d.Serve(req, a);
  }

  // ---------------------------------------------------------------- who is told, and what

  /** Somebody in the receiving group is connected on f. */
  ghost predicate MemberIsOn(db: R.Db, group: R.Name, f: int) {
    exists u :: O.InGroup(db, group, u) && O.ConnectedOn(db, u, f)
  }

  /** Whom a post concerns. To a user: that user's descriptor, unless it is the sender's own. To a group:
      if the sender is on a connected member's descriptor, not 0, all its connected members, the sender
      included. To all: everybody connected but the sender, if there are two users. */
  ghost predicate Concerns(db: R.Db, req: Request, f: int) {
    && Sender(req) != Receiver(req) && f != VOID_FD
    && if req.msg.hdr.op == POSTTXTALL_OP then
         |db.users.Keys| > 1 && f != req.fd && exists u :: O.ConnectedOn(db, u, f)
       else if Receiver(req) in db.users then db.users[Receiver(req)] == f && f != req.fd
       else req.fd != 0 && MemberIsOn(db, Receiver(req), req.fd) && MemberIsOn(db, Receiver(req), f)
  }

  lemma FoundByPost(ops: seq<I.Op>, req: Request, a: Answers, f: int)
    requires req.msg.hdr.op == POSTTXT_OP || req.msg.hdr.op == POSTFILE_OP
    requires AnsweredBy(I.ApplyAll(R.EMPTY, ops), req, a, [])
    ensures (a.noFd > 0 && f in a.fds && f != VOID_FD && (a.toGroup || f != req.fd)) <==>
            Concerns(I.ApplyAll(R.EMPTY, ops), req, f)
  {
    var db := I.ApplyAll(R.EMPTY, ops);
    var sender, receiver, body := Sender(req), Receiver(req), BodyOf(req);
    var result := R.Post(db, sender, receiver, body, req.fd).1;
    I.ReachableInv(ops);
    O.PostAnswers(db, sender, receiver, body, req.fd);
    if result.ToGroup? {
      O.GroupPostReaches(ops, sender, receiver, body, req.fd, a.noFd, a.fds, f);
    } else if result.ToUser? {
      O.UserPostReaches(db, sender, receiver, body, req.fd, a.noFd, a.fds);
    }
  }

  lemma FoundByPostToAll(db: R.Db, req: Request, a: Answers, names: seq<R.Name>, f: int)
    requires req.msg.hdr.op == POSTTXTALL_OP && AnsweredBy(db, req, a, names)
    ensures (a.noFd > 0 && f in a.fds && f != VOID_FD && (a.toGroup || f != req.fd)) <==> Concerns(db, req, f)
  {
    var sender, receiver, body := Sender(req), Receiver(req), BodyOf(req);
    O.ListLength(names, db.users.Keys);
    if sender != receiver && |names| > 1 {
      O.AllPostReaches(db, sender, receiver, body, names, a.noFd, a.fds, f);
    }
  }

  /** From every state of the store a run can reach, for every post and every descriptor: an
      announcement is sent there exactly if the post concerns it. */
  lemma PostIsAnnounced(ops: seq<I.Op>, req: Request, a: Answers, names: seq<R.Name>, f: int)
    requires 2 <= req.msg.hdr.op <= 4 && GoodAnswers(req, a) && AnsweredBy(I.ApplyAll(R.EMPTY, ops), req, a, names)
    ensures (exists i :: 0 <= i < |Sends(req, a)| - 1 && Sends(req, a)[i].to == f) <==>
            Concerns(I.ApplyAll(R.EMPTY, ops), req, f)
  {
    AnnouncedOn(req, a, f);
    if req.msg.hdr.op == POSTTXTALL_OP {
      FoundByPostToAll(I.ApplyAll(R.EMPTY, ops), req, a, names, f);
    } else {
      FoundByPost(ops, req, a, f);
    }
  }

  /** The users on descriptor f whom the post concerns. */
  ghost function ConcernedOn(db: R.Db, req: Request, f: int): set<R.Name> {
    if !Concerns(db, req, f) then {}
    else if req.msg.hdr.op == POSTTXTALL_OP then set u | u in db.users && O.ConnectedOn(db, u, f)
    else if Receiver(req) in db.users then {Receiver(req)}
    else set u | u in db.users && O.ConnectedOn(db, u, f) && O.InGroup(db, Receiver(req), u)
  }

  lemma CountedByPost(ops: seq<I.Op>, req: Request, a: Answers, f: int)
    requires req.msg.hdr.op == POSTTXT_OP || req.msg.hdr.op == POSTFILE_OP
    requires AnsweredBy(I.ApplyAll(R.EMPTY, ops), req, a, []) && Concerns(I.ApplyAll(R.EMPTY, ops), req, f)
    ensures multiset(a.fds)[f] == |ConcernedOn(I.ApplyAll(R.EMPTY, ops), req, f)|
  {
    var db := I.ApplyAll(R.EMPTY, ops);
    var sender, receiver, body := Sender(req), Receiver(req), BodyOf(req);
    var result := R.Post(db, sender, receiver, body, req.fd).1;
    I.ReachableInv(ops);
    O.PostAnswers(db, sender, receiver, body, req.fd);
    if receiver in db.users {
      O.UserPostReaches(db, sender, receiver, body, req.fd, a.noFd, a.fds);
    } else {
      O.GroupReceivers(db, sender, receiver, body, req.fd);
      O.ListedAsOften(db, a.fds, result.receivers, f);
      assert O.On(db, result.receivers, f) == ConcernedOn(db, req, f);
    }
  }

  lemma CountedByPostToAll(db: R.Db, req: Request, a: Answers, names: seq<R.Name>, f: int)
    requires req.msg.hdr.op == POSTTXTALL_OP && AnsweredBy(db, req, a, names) && Concerns(db, req, f)
    ensures multiset(a.fds)[f] == |ConcernedOn(db, req, f)|
  {
    O.ListLength(names, db.users.Keys);
    var result := R.PostAll(db, Sender(req), Receiver(req), BodyOf(req), names).1;
    O.ListedAsOften(db, a.fds, result.receivers, f);
    assert O.On(db, result.receivers, f) == ConcernedOn(db, req, f);
  }

  /** And it is sent as often as users on that descriptor are concerned: once for each of them. */
  lemma AnnouncedToEach(ops: seq<I.Op>, req: Request, a: Answers, names: seq<R.Name>, f: int)
    requires 2 <= req.msg.hdr.op <= 4 && GoodAnswers(req, a) && AnsweredBy(I.ApplyAll(R.EMPTY, ops), req, a, names)
    ensures |Sends(req, a)| > 0
    ensures multiset(Tos(Sends(req, a)[..|Sends(req, a)| - 1]))[f] ==
            |ConcernedOn(I.ApplyAll(R.EMPTY, ops), req, f)|
  {
    var db := I.ApplyAll(R.EMPTY, ops);
    AnnouncedAsOften(req, a, f);
    if req.msg.hdr.op == POSTTXTALL_OP {
      FoundByPostToAll(db, req, a, names, f);
      if Concerns(db, req, f) {
        CountedByPostToAll(db, req, a, names, f);
      }
    } else {
      FoundByPost(ops, req, a, f);
      if Concerns(db, req, f) {
        CountedByPost(ops, req, a, f);
      }
    }
  }

  /** What the sender of a post is answered: OP_FAIL for a post to oneself or to a name nobody has,
      OP_NICK_UNKNOWN for a group without the requester on a connected member's descriptor, OP_OK
      otherwise. */
  lemma PostIsAnswered(ops: seq<I.Op>, req: Request, a: Answers, names: seq<R.Name>)
    requires 2 <= req.msg.hdr.op <= 4 && AnsweredBy(I.ApplyAll(R.EMPTY, ops), req, a, names)
    ensures var db := I.ApplyAll(R.EMPTY, ops);
      var toOther := req.msg.hdr.op != POSTTXTALL_OP && Receiver(req) !in db.users;
      var toNobody := toOther && !O.IsGroupName(db, Receiver(req));
      var toClosedGroup := toOther && !(req.fd != 0 && MemberIsOn(db, Receiver(req), req.fd));
      ReplyOp(req, a) == if Sender(req) == Receiver(req) || toNobody then OP_FAIL
                         else if toClosedGroup then OP_NICK_UNKNOWN else OP_OK
  {
    I.ReachableInv(ops);
    O.PostAnswers(I.ApplyAll(R.EMPTY, ops), Sender(req), Receiver(req), BodyOf(req), req.fd);
  }

  /** Every other operation on the store is answered with what it answers. */
  lemma OperationIsAnswered(db: R.Db, req: Request, a: Answers, names: seq<R.Name>)
    requires AnsweredBy(db, req, a, names)
    ensures req.msg.hdr.op == 0 ==> ReplyOp(req, a) == R.Register(db, Sender(req), req.fd).1
    ensures req.msg.hdr.op == 1 ==> ReplyOp(req, a) == R.Connect(db, Sender(req), req.fd).1
    ensures req.msg.hdr.op == 8 ==> ReplyOp(req, a) == R.Unregister(db, Sender(req)).1
    ensures req.msg.hdr.op == 10 ==> ReplyOp(req, a) == R.CreateGroup(db, Receiver(req), Sender(req)).1
    ensures req.msg.hdr.op == 11 ==> ReplyOp(req, a) == R.AddToGroup(db, Receiver(req), Sender(req)).1
    ensures req.msg.hdr.op == 12 ==> ReplyOp(req, a) == R.RemoveFromGroup(db, Receiver(req), Sender(req), req.fd).1
  {
  }

  // ---------------------------------------------------------------- the request is taken

  /** Nothing else keeps a request out: on a descriptor the core selects on, with the queue's mutex free,
      every request can be queued, whatever it is and whatever statements serving it runs. */
  lemma RequestIsTaken(s: SV.State, job: Job, req: Request, a: Answers) returns (chosen: set<nat>)
    requires SV.SameSize(s) && s.core.Running? && s.q.holder == None && GoodAnswers(req, a)
    requires job.id == s.books.nextId && job.op == req.msg.hdr.op && job.fd == req.fd != VOID_FD
    requires job.fd in s.books.active && Skeleton(job.plan) == Acts(req, a)
    requires job.op == DISCONNECT_OP ==> job.plan != [] && job.plan[|job.plan| - 1] == Close
    ensures SV.Enabled(s, if job.op == DISCONNECT_OP then SV.HangUp(job, chosen) else SV.Receive(job, chosen))
  {
    PlanIsGood(job, req, a);
    chosen := Q.WaitSet(s.q.pcs);
  }

  // ---------------------------------------------------------------- the sends are made

  /** What a slave has done besides statements. */
  function Outward(done: seq<C.Deed>): seq<C.Deed> {
    if done == [] then [] else
      var last := done[|done| - 1];
      Outward(done[..|done| - 1]) + if last.Executed? || last.CutShort? then [] else [last]
  }

  lemma {:induction false} OutwardFulfils(done: seq<C.Deed>, plan: seq<Act>, fd: int)
    requires C.Fulfils(done, plan, fd)
    ensures C.Fulfils(Outward(done), Skeleton(plan), fd)
  {
    if done != [] {
      var n := |done| - 1;
      OutwardFulfils(done[..n], plan[..n], fd);
      assert C.Meets(done[n], plan[n], fd);
    }
  }

  /** A slave that has done the plan of a request has, besides running statements, held the write lock
      once for every send of the request, in order, and closed the descriptor exactly if the request is
      a disconnection. */
  lemma SendsAreMade(job: Job, req: Request, a: Answers, done: seq<C.Deed>)
    requires GoodAnswers(req, a) && job.fd == req.fd && Skeleton(job.plan) == Acts(req, a)
    requires C.Fulfils(done, job.plan, job.fd)
    ensures req.msg.hdr.op == DISCONNECT_OP ==> Outward(done) == [C.Closed(req.fd)]
    ensures req.msg.hdr.op != DISCONNECT_OP ==> |Outward(done)| == |Sends(req, a)|
    ensures req.msg.hdr.op != DISCONNECT_OP ==>
      forall i :: 0 <= i < |Sends(req, a)| ==> Outward(done)[i] == C.Sent(Sends(req, a)[i].to)
  {
    OutwardFulfils(done, job.plan, job.fd);
    var acts := Acts(req, a);
    if req.msg.hdr.op == DISCONNECT_OP {
      assert C.Meets(Outward(done)[0], acts[0], job.fd);
    } else {
      forall i | 0 <= i < |Sends(req, a)| ensures Outward(done)[i] == C.Sent(Sends(req, a)[i].to) {
        assert C.Meets(Outward(done)[i], acts[i], job.fd);
      }
    }
  }
}
