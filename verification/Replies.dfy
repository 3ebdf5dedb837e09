/**
 What serving one request sends: the slave's dispatch, given what the `manage_*` calls answer. It
 links the bytes of Frames to the requests: every request but a disconnection gets one reply, and
 the client at the other end finds its own.
 */
module Replies {
  import opened Prelude
  import opened Jobs
  import opened Wire
  import opened Client
  import F = Frames
  import R = Relations
  import S = Store

  /** A message on its way to a descriptor, as a reliable connection carries it. */
  datatype Sending = Sending(to: int, frame: seq<byte>)

  datatype Request = Request(msg: Message, fd: int)

  /** A row of the history query; a column may be NULL. */
  datatype Row = Row(text: Option<seq<byte>>, filename: Option<seq<byte>>, sentBy: NameField)

  /** What the database calls of the dispatch return. */
  datatype Answers = Answers(
    result: u32,                              // of most `manage_*` calls
    reply: Message,                           // filled in by those that answer OP_OK with data
    noFd: int, fds: seq<int>, toGroup: bool,  // of `manage_postmessage`
    noMessage: int, rows: seq<Row>,           // of `manage_getprevmsgs`
    stack: Message)                           // what the uninitialised count message holds

  /** "server", as `send_ack` signs. */
  function ServerName(): NameField {
    [115, 101, 114, 118, 101, 114] + seq(27, _ => 0)
  }

  /** The codes that the `manage_*` calls answer. */
  predicate IsResult(op: int) {
    op == OP_OK || op == OP_FAIL || op == OP_NICK_ALREADY || op == OP_NICK_UNKNOWN || op == OP_NO_SUCH_FILE
  }

  predicate RowFits(row: Row) {
    && (row.text.Some? ==> |row.text.value| < 0xffff_ffff)
    && (row.filename.Some? ==> |row.filename.value| < 0xffff_ffff)
  }

  predicate GoodAnswers(req: Request, a: Answers) {
    && IsResult(a.result) && a.reply.hdr.op == OP_OK
    && Sendable(req.msg.data) && Sendable(a.reply.data)
    && (a.noMessage < 0 || a.noMessage == |a.rows|)
    && forall i :: 0 <= i < |a.rows| ==> RowFits(a.rows[i])
  }

  /** The store never answers anything else. */
  lemma StoreAnswersResults(db: R.Db, user: string, group: string, fd: int)
    ensures IsResult(R.Register(db, user, fd).1) && IsResult(R.Connect(db, user, fd).1)
    ensures IsResult(R.Unregister(db, user).1) && IsResult(R.CreateGroup(db, group, user).1)
    ensures IsResult(R.AddToGroup(db, group, user).1) && IsResult(R.RemoveFromGroup(db, group, user, fd).1)
  {
  }

  // ---------------------------------------------------------------- the messages

  /** The codes whose result is answered first, with data if it is OP_OK. */
  predicate AnswersWithData(op: int) {
    op == REGISTER_OP || op == CONNECT_OP || op == USRLIST_OP || op == GETFILE_OP
  }

  predicate IsPostOp(op: int) {
    op == POSTFILE_OP || op == POSTTXT_OP || op == POSTTXTALL_OP
  }

  predicate AnswersResult(op: int) {
    op == UNREGISTER_OP || CREATEGROUP_OP <= op <= UNREGISTER_GROUP
  }

  function Notice(m: Message): Message {
    m.(hdr := m.hdr.(op := if m.hdr.op == POSTFILE_OP then FILE_MESSAGE else TXT_MESSAGE))
  }

  /** A number as eight bytes. */
  function Le64(n: nat): (r: seq<byte>)
    ensures |r| == 8
  {
    Le32(n % 0x1_0000_0000) + Le32(n / 0x1_0000_0000 % 0x1_0000_0000)
  }

  function CountMessage(stack: Message, n: nat): Message {
    Message(stack.hdr.(op := OP_OK), stack.data.(body := Le64(n)))
  }

  /** One message of the history, as the callback makes it of a row. */
  function HistoryMessage(row: Row, user: NameField): (m: Message)
    requires RowFits(row)
    ensures Sendable(m.data)
  {
    match (row.text, row.filename)
    case (Some(text), _) => Message(Header(TXT_MESSAGE, row.sentBy), Data(user, text + [0]))
    case (None, Some(name)) => Message(Header(FILE_MESSAGE, row.sentBy), Data(user, name + [0]))
    case (None, None) => Message(Header(OP_FAIL, row.sentBy), Data(user, []))
  }

  // ---------------------------------------------------------------- what is sent

  /** The code of the reply. */
  function ReplyOp(req: Request, a: Answers): u32 {
    var op := req.msg.hdr.op;
    if AnswersWithData(op) || AnswersResult(op) then a.result
    else if IsPostOp(op) then
      if a.noFd == S.NOT_IN_GROUP then OP_NICK_UNKNOWN else if a.noFd == -1 then OP_FAIL else OP_OK
    else if op == GETPREVMSGS_OP then if a.noMessage < 0 then OP_FAIL else OP_OK
    else if op == OP_MSG_TOOLONG then OP_MSG_TOOLONG
    else OP_FAIL
  }

  function Ack(op: u32): seq<byte> {
    EncodeHeader(Header(op, ServerName()))
  }

  function ReplyFrame(req: Request, a: Answers): seq<byte>
    requires GoodAnswers(req, a)
  {
    var op := req.msg.hdr.op;
    if AnswersWithData(op) && a.result == OP_OK then OnStream(a.reply)
    else if op == GETPREVMSGS_OP && a.noMessage >= 0 then OnStream(CountMessage(a.stack, a.noMessage))
    else Ack(ReplyOp(req, a))
  }

  /** One message to each of these descriptors. */
  function ToEach(targets: seq<int>, m: Message): (r: seq<Sending>)
    requires Sendable(m.data)
    ensures |r| == |targets| && forall i :: 0 <= i < |r| ==> r[i] == Sending(targets[i], OnStream(m))
  {
    seq(|targets|, i requires 0 <= i < |targets| => Sending(targets[i], OnStream(m)))
  }

  function Notices(req: Request, a: Answers): seq<Sending>
    requires GoodAnswers(req, a)
  {
    if IsPostOp(req.msg.hdr.op) && a.noFd > 0 then ToEach(S.Targets(a.fds, a.toGroup, req.fd), Notice(req.msg)) else []
  }

  function History(rows: seq<Row>, user: NameField, fd: int): (r: seq<Sending>)
    requires forall i :: 0 <= i < |rows| ==> RowFits(rows[i])
    ensures |r| == |rows|
    ensures forall i :: 0 <= i < |r| ==> r[i] == Sending(fd, OnStream(HistoryMessage(rows[i], user)))
  {
    seq(|rows|, i requires 0 <= i < |rows| => Sending(fd, OnStream(HistoryMessage(rows[i], user))))
  }

  lemma HistorySnoc(rows: seq<Row>, row: Row, user: NameField, fd: int)
    requires RowFits(row) && forall i :: 0 <= i < |rows| ==> RowFits(rows[i])
    ensures History(rows + [row], user, fd) ==
            History(rows, user, fd) + [Sending(fd, OnStream(HistoryMessage(row, user)))]
  {
  }

  /** Whether the history follows the reply. */
  predicate SendsHistory(req: Request, a: Answers) {
    req.msg.hdr.op == GETPREVMSGS_OP && a.noMessage >= 0
  }

  /** Notifications, the reply, and the history if it was asked for. */
  function Sends(req: Request, a: Answers): seq<Sending>
    requires GoodAnswers(req, a)
  {
    if req.msg.hdr.op == DISCONNECT_OP then [] else
      Notices(req, a) + [Sending(req.fd, ReplyFrame(req, a))]
      + if SendsHistory(req, a) then History(a.rows, req.msg.hdr.sender, req.fd) else []
  }

  /** A request for the history is answered with the reply and the history alone. */
  lemma HistorySends(req: Request, a: Answers)
    requires GoodAnswers(req, a) && req.msg.hdr.op == GETPREVMSGS_OP
    ensures Sends(req, a) == [Sending(req.fd, ReplyFrame(req, a))]
              + if a.noMessage >= 0 then History(a.rows, req.msg.hdr.sender, req.fd) else []
  {
    assert Notices(req, a) == [];
  }

  // ---------------------------------------------------------------- the dispatch

  class Dispatcher {
    var sent: seq<Sending>
    var closed: seq<int>

    constructor ()
      ensures sent == [] && closed == []
    {
      sent, closed := [], [];
    }

    method SendMessage(to: int, m: Message)
      requires Sendable(m.data)
      modifies this`sent
      ensures sent == old(sent) + [Sending(to, OnStream(m))]
    {
      sent := sent + [Sending(to, OnStream(m))];
    }

    method SendAck(to: int, op: u32)
      modifies this`sent
      ensures sent == old(sent) + [Sending(to, Ack(op))]
    {
      sent := sent + [Sending(to, Ack(op))];
    }

    method SendToEach(targets: seq<int>, m: Message)
      requires Sendable(m.data)
      modifies this`sent
      ensures sent == old(sent) + ToEach(targets, m)
    {
      for i := 0 to |targets|
        invariant sent == old(sent) + ToEach(targets[..i], m)
      {
        SendMessage(targets[i], m);
        assert ToEach(targets[..i + 1], m) == ToEach(targets[..i], m) + [Sending(targets[i], OnStream(m))];
      }
      assert targets[..|targets|] == targets;
    }

    method ServePost(req: Request, a: Answers)
      requires GoodAnswers(req, a) && IsPostOp(req.msg.hdr.op)
      modifies this`sent
      ensures sent == old(sent) + Sends(req, a)
    {
      if a.noFd > 0 {
        var targets := S.NotifyReceivers(a.fds, a.toGroup, req.fd);
        SendToEach(targets, Notice(req.msg));
      }
      if a.noFd == S.NOT_IN_GROUP {
        SendAck(req.fd, OP_NICK_UNKNOWN);
      } else if a.noFd == -1 {
        SendAck(req.fd, OP_FAIL);
      } else {
        SendAck(req.fd, OP_OK);
      }
    }

    method SendHistory(rows: seq<Row>, user: NameField, fd: int)
      requires forall i :: 0 <= i < |rows| ==> RowFits(rows[i])
      modifies this`sent
      ensures sent == old(sent) + History(rows, user, fd)
    {
      for i := 0 to |rows|
        invariant sent == old(sent) + History(rows[..i], user, fd)
      {
        SendMessage(fd, HistoryMessage(rows[i], user));
        assert rows[..i + 1] == rows[..i] + [rows[i]];
        HistorySnoc(rows[..i], rows[i], user, fd);
      }
      assert rows[..|rows|] == rows;
    }

    method ServeHistory(req: Request, a: Answers)
      requires GoodAnswers(req, a) && req.msg.hdr.op == GETPREVMSGS_OP
      modifies this`sent
      ensures sent == old(sent) + Sends(req, a)
    {
      HistorySends(req, a);
      if a.noMessage < 0 {
        SendAck(req.fd, OP_FAIL);
        assert Ack(OP_FAIL) == ReplyFrame(req, a);
        return;
      }
      SendMessage(req.fd, CountMessage(a.stack, a.noMessage));
      assert OnStream(CountMessage(a.stack, a.noMessage)) == ReplyFrame(req, a);
      SendHistory(a.rows, req.msg.hdr.sender, req.fd);
    }

    /** The branches that handle their replies themselves. */
    method ServeOthers(req: Request, a: Answers) returns (known: bool)
      requires GoodAnswers(req, a) && !AnswersWithData(req.msg.hdr.op)
      modifies this
      ensures known <==> Known(req.msg.hdr.op)
      ensures sent == old(sent) + Sends(req, a)
      ensures closed == old(closed) + if req.msg.hdr.op == DISCONNECT_OP then [req.fd] else []
    {
      var op := req.msg.hdr.op;
      known := true;
      if op == DISCONNECT_OP {
        closed := closed + [req.fd];
      } else if op == UNREGISTER_OP {
        SendAck(req.fd, a.result);
      } else if op == POSTFILE_OP || op == POSTTXT_OP || op == POSTTXTALL_OP {
        ServePost(req, a);
      } else if op == GETPREVMSGS_OP {
        ServeHistory(req, a);
      } else if op == CREATEGROUP_OP || op == ADDGROUP_OP || op == DELGROUP_OP || op == UNREGISTER_GROUP {
        SendAck(req.fd, a.result);
      } else if op == OP_FAIL || op == OP_MSG_TOOLONG {
        SendAck(req.fd, op);
      } else {
        SendAck(req.fd, OP_FAIL);
        known := false;
      }
    }

    /** One request, whatever its code: exactly the specified sends, in order; only a disconnection
        closes. An unknown code goes back to the queue at once; otherwise the slave cleans its slot, if
        it has one, and frees the message. */
    method Serve(req: Request, a: Answers) returns (cleaned: bool, freed: bool)
      requires GoodAnswers(req, a)
      modifies this
      ensures sent == old(sent) + Sends(req, a)
      ensures closed == old(closed) + if req.msg.hdr.op == DISCONNECT_OP then [req.fd] else []
      ensures freed <==> Known(req.msg.hdr.op)
      ensures cleaned <==> Known(req.msg.hdr.op) && NeedsAdmission(req.msg.hdr.op)
    {
      var op := req.msg.hdr.op;
      var result: int := OP_NOOP;
      if op == REGISTER_OP || op == CONNECT_OP || op == USRLIST_OP || op == GETFILE_OP {
        result := a.result;
      }
      if result == OP_OK {
        SendMessage(req.fd, a.reply);
      } else if result != OP_NOOP {
        SendAck(req.fd, result);
      } else {
        var known := ServeOthers(req, a);
        if !known {
          return false, false;
        }
      }
      cleaned := op != OP_FAIL && op != OP_MSG_TOOLONG;
      freed := true;
    }
  }

  /** Before that: which kind of operation the code is, and whether it has to be admitted. For the two
      codes that need not be, the kind is left as it was. */
  method Classify(op: int, before: WorkOp) returns (wop: WorkOp, checked: bool)
    ensures checked <==> NeedsAdmission(op)
    ensures checked ==> wop == WorkOpOf(op)
  {
    wop := before;
    if op == REGISTER_OP {
      wop := Signup;
    } else if op == UNREGISTER_OP || op == DISCONNECT_OP {
      wop := Ending;
    } else if op != OP_FAIL && op != OP_MSG_TOOLONG {
      wop := Generic;
    }
    checked := op != OP_FAIL && op != OP_MSG_TOOLONG;
  }

  /** The codes by number: 0 signs up, 8 and 9 end a session; 25 and 28 are the core's own; the
      dispatch has a branch for those and for 0 to 13. */
  lemma KindsOfCodes(op: int)
    ensures WorkOpOf(op) == Signup <==> op == 0
    ensures WorkOpOf(op) == Ending <==> op == 8 || op == 9
    ensures NeedsAdmission(op) <==> op != 25 && op != 28
    ensures Known(op) <==> 0 <= op <= 13 || op == 25 || op == 28
  {
  }

  // ---------------------------------------------------------------- one reply

  /** The reply frames among the sends to a descriptor. */
  function RepliesTo(sends: seq<Sending>, fd: int): nat {
    if sends == [] then 0 else
      var last := sends[|sends| - 1];
      RepliesTo(sends[..|sends| - 1], fd) + if last.to == fd && F.IsReplyFrame(last.frame) then 1 else 0
  }

  lemma {:induction false} RepliesSplit(a: seq<Sending>, b: seq<Sending>, fd: int)
    ensures RepliesTo(a + b, fd) == RepliesTo(a, fd) + RepliesTo(b, fd)
  {
    if b == [] {
      assert a + b == a;
    } else {
      assert (a + b)[..|a + b| - 1] == a + b[..|b| - 1];
      RepliesSplit(a, b[..|b| - 1], fd);
    }
  }

  lemma {:induction false} NoReplies(sends: seq<Sending>, fd: int)
    requires forall i :: 0 <= i < |sends| ==> sends[i].to != fd || !F.IsReplyFrame(sends[i].frame)
    ensures RepliesTo(sends, fd) == 0
  {
    if sends != [] {
      NoReplies(sends[..|sends| - 1], fd);
    }
  }

  /** A row of which neither column is set; the database is not known to exclude it. */
  predicate Blank(row: Row) {
    row.text.None? && row.filename.None?
  }

  function Blanks(rows: seq<Row>): nat {
    if rows == [] then 0 else Blanks(rows[..|rows| - 1]) + if Blank(rows[|rows| - 1]) then 1 else 0
  }

  lemma {:induction false} HistoryReplies(rows: seq<Row>, user: NameField, fd: int)
    requires forall i :: 0 <= i < |rows| ==> RowFits(rows[i])
    ensures RepliesTo(History(rows, user, fd), fd) == Blanks(rows)
  {
    if rows != [] {
      var n := |rows| - 1;
      HistoryReplies(rows[..n], user, fd);
      HistorySnoc(rows[..n], rows[n], user, fd);
      assert rows == rows[..n] + [rows[n]];
      StreamHeader(HistoryMessage(rows[n], user));
    }
  }

  /** However much of a message goes out, its header does. */
  lemma StreamHeader(m: Message)
    requires Sendable(m.data)
    ensures |OnStream(m)| >= HEADER_SIZE && DecodeHeader(OnStream(m)[..HEADER_SIZE]) == m.hdr
    ensures F.IsReplyFrame(OnStream(m)) <==> !IsNotification(m.hdr.op)
  {
    var tail := OnStream(m)[HEADER_SIZE..];
    assert OnStream(m) == EncodeHeader(m.hdr) + tail;
    HeaderRoundTrip(m.hdr, tail);
  }

  lemma AckHeader(op: u32)
    ensures |Ack(op)| == HEADER_SIZE && DecodeHeader(Ack(op)[..HEADER_SIZE]).op == op
  {
    HeaderRoundTrip(Header(op, ServerName()), []);
    assert Ack(op) + [] == Ack(op);
  }

  /** The reply's frame is a reply, of the code the client is told. */
  lemma ReplyFrameIs(req: Request, a: Answers)
    requires GoodAnswers(req, a)
    ensures F.IsReplyFrame(ReplyFrame(req, a))
    ensures DecodeHeader(ReplyFrame(req, a)[..HEADER_SIZE]).op == ReplyOp(req, a)
  {
    StreamHeader(a.reply);
    StreamHeader(CountMessage(a.stack, if a.noMessage >= 0 then a.noMessage else 0));
    AckHeader(ReplyOp(req, a));
  }

  lemma NoticesAreNoReplies(req: Request, a: Answers, i: nat)
    requires GoodAnswers(req, a) && i < |Notices(req, a)|
    ensures !F.IsReplyFrame(Notices(req, a)[i].frame)
  {
    StreamHeader(Notice(req.msg));
  }

  /** Every request but a disconnection begins exactly one reply on its own descriptor, and one more
      for each row of its history that is neither text nor file; on other descriptors none. */
  lemma OneReply(req: Request, a: Answers, fd: int)
    requires GoodAnswers(req, a)
    ensures RepliesTo(Sends(req, a), fd) ==
            if fd != req.fd || req.msg.hdr.op == DISCONNECT_OP then 0
            else 1 + if SendsHistory(req, a) then Blanks(a.rows) else 0
  {
    if req.msg.hdr.op != DISCONNECT_OP {
      var reply := [Sending(req.fd, ReplyFrame(req, a))];
      var history := if SendsHistory(req, a) then History(a.rows, req.msg.hdr.sender, req.fd) else [];
      RepliesSplit(Notices(req, a) + reply, history, fd);
      RepliesSplit(Notices(req, a), reply, fd);
      NoticesReplyNothing(req, a, fd);
      ReplyFrameIs(req, a);
      assert reply[..0] == [];
      HistoryRepliesTo(req, a, fd);
    }
  }

  lemma NoticesReplyNothing(req: Request, a: Answers, fd: int)
    requires GoodAnswers(req, a)
    ensures RepliesTo(Notices(req, a), fd) == 0
  {
    forall i | 0 <= i < |Notices(req, a)| ensures !F.IsReplyFrame(Notices(req, a)[i].frame) {
      NoticesAreNoReplies(req, a, i);
    }
    NoReplies(Notices(req, a), fd);
  }

  lemma HistoryRepliesTo(req: Request, a: Answers, fd: int)
    requires GoodAnswers(req, a)
    ensures RepliesTo(History(a.rows, req.msg.hdr.sender, req.fd), fd) == if fd == req.fd then Blanks(a.rows) else 0
  {
    if fd == req.fd {
      HistoryReplies(a.rows, req.msg.hdr.sender, fd);
    } else {
      NoReplies(History(a.rows, req.msg.hdr.sender, req.fd), fd);
    }
  }

  // ---------------------------------------------------------------- whole frames

  /** Everything announced, and every message of the history, is within the limit for bodies, and no
      history row is blank. */
  predicate BodiesFit(req: Request, a: Answers)
    requires GoodAnswers(req, a)
  {
    && (Notices(req, a) != [] ==> |req.msg.data.body| <= MAX_BODY)
    && (SendsHistory(req, a) ==> forall i :: 0 <= i < |a.rows| ==>
          |HistoryMessage(a.rows[i], req.msg.hdr.sender).data.body| <= MAX_BODY)
  }

  /** A message's bytes are a frame the client can read exactly if it is a reply, or its body is
      within the limit. */
  lemma IsFrameIff(m: Message)
    requires Sendable(m.data)
    ensures F.IsFrame(OnStream(m)) <==> !IsNotification(m.hdr.op) || |m.data.body| <= MAX_BODY
  {
    StreamHeader(m);
    if IsNotification(m.hdr.op) && |m.data.body| <= MAX_BODY {
      assert OnStream(m) == F.NotificationFrame(m);
    }
    if F.IsNotificationFrame(OnStream(m)) {
      var n :| GoodNotification(n) && OnStream(m) == F.NotificationFrame(n);
      OnStreamReads(m, []);
      MessageRoundTrip(n, []);
    }
  }

  ghost predicate AllFrames(sends: seq<Sending>) {
    forall i :: 0 <= i < |sends| ==> F.IsFrame(sends[i].frame)
  }

  /** Serving a request puts only whole frames on the streams exactly if what it announces and lists
      is within the limit for bodies. */
  lemma FramesIff(req: Request, a: Answers)
    requires GoodAnswers(req, a)
    ensures AllFrames(Sends(req, a)) <==> BodiesFit(req, a)
  {
    if req.msg.hdr.op != DISCONNECT_OP {
      NoticesFramesIff(req, a);
      ReplyFrameIs(req, a);
      HistoryFramesIff(a.rows, req.msg.hdr.sender, req.fd);
      var front := Notices(req, a) + [Sending(req.fd, ReplyFrame(req, a))];
      AllFramesSplit(Notices(req, a), [Sending(req.fd, ReplyFrame(req, a))]);
      AllFramesSplit(front, if SendsHistory(req, a) then History(a.rows, req.msg.hdr.sender, req.fd) else []);
    }
  }

  lemma AllFramesSplit(a: seq<Sending>, b: seq<Sending>)
    ensures AllFrames(a + b) <==> AllFrames(a) && AllFrames(b)
  {
    if AllFrames(a + b) {
      forall i | 0 <= i < |a| ensures F.IsFrame(a[i].frame) {
        assert (a + b)[i] == a[i];
      }
      forall i | 0 <= i < |b| ensures F.IsFrame(b[i].frame) {
        assert (a + b)[|a| + i] == b[i];
      }
    }
  }

  lemma NoticesFramesIff(req: Request, a: Answers)
    requires GoodAnswers(req, a)
    ensures AllFrames(Notices(req, a)) <==> (Notices(req, a) != [] ==> |req.msg.data.body| <= MAX_BODY)
  {
    IsFrameIff(Notice(req.msg));
    if Notices(req, a) != [] && AllFrames(Notices(req, a)) {
      assert F.IsFrame(Notices(req, a)[0].frame);
    }
  }

  lemma HistoryFramesIff(rows: seq<Row>, user: NameField, fd: int)
    requires forall i :: 0 <= i < |rows| ==> RowFits(rows[i])
    ensures AllFrames(History(rows, user, fd)) <==>
            forall i :: 0 <= i < |rows| ==> |HistoryMessage(rows[i], user).data.body| <= MAX_BODY
  {
    forall i | 0 <= i < |rows|
      ensures F.IsFrame(History(rows, user, fd)[i].frame) <==> |HistoryMessage(rows[i], user).data.body| <= MAX_BODY
    {
      IsFrameIff(HistoryMessage(rows[i], user));
    }
  }

  // ---------------------------------------------------------------- what is said

  /** Everything a post sends but its reply is the request itself under the notification's code:
      FILE_MESSAGE for a file, TXT_MESSAGE for a text. It reads back as that message if the body is
      within the limit; otherwise the receiver refuses it. */
  lemma AnnouncementsSay(req: Request, a: Answers, i: nat)
    requires GoodAnswers(req, a) && 2 <= req.msg.hdr.op <= 4 && i < |Sends(req, a)| - 1
    ensures var code := if req.msg.hdr.op == POSTFILE_OP then FILE_MESSAGE else TXT_MESSAGE;
      var said := Message(Header(code, req.msg.hdr.sender), req.msg.data);
      && DecodeHeader(Sends(req, a)[i].frame[..HEADER_SIZE]) == said.hdr
      && ParseMessage(Sends(req, a)[i].frame) == if |req.msg.data.body| <= MAX_BODY then Got(said, []) else TooLong
  {
    var said := Notice(req.msg);
    assert Sends(req, a)[i] == Notices(req, a)[i];
    StreamHeader(said);
    OnStreamReads(said, []);
    assert OnStream(said) + [] == OnStream(said);
  }

  /** The announcements go to the descriptors the database has found, but for those of users who are not
      connected and, outside groups, the sender's own. */
  lemma AnnouncedOn(req: Request, a: Answers, f: int)
    requires GoodAnswers(req, a) && 2 <= req.msg.hdr.op <= 4
    ensures (exists i :: 0 <= i < |Sends(req, a)| - 1 && Sends(req, a)[i].to == f) <==>
            a.noFd > 0 && f in a.fds && f != VOID_FD && (a.toGroup || f != req.fd)
  {
    var targets := S.Targets(a.fds, a.toGroup, req.fd);
    S.TargetsHave(a.fds, a.toGroup, req.fd, f);
    if a.noFd > 0 && f in targets {
      var i :| 0 <= i < |targets| && targets[i] == f;
      assert Sends(req, a)[i] == Notices(req, a)[i];
    }
    if i :| 0 <= i < |Sends(req, a)| - 1 && Sends(req, a)[i].to == f {
      assert Sends(req, a)[i] == Notices(req, a)[i];
    }
  }

  function Tos(sends: seq<Sending>): (r: seq<int>)
    ensures |r| == |sends| && forall i :: 0 <= i < |r| ==> r[i] == sends[i].to
  {
    seq(|sends|, i requires 0 <= i < |sends| => sends[i].to)
  }

  /** One announcement for every entry the database has found, but for those that do not count. */
  lemma AnnouncedAsOften(req: Request, a: Answers, f: int)
    requires GoodAnswers(req, a) && 2 <= req.msg.hdr.op <= 4
    ensures |Sends(req, a)| > 0
    ensures multiset(Tos(Sends(req, a)[..|Sends(req, a)| - 1]))[f] ==
            if a.noFd > 0 && f != VOID_FD && (a.toGroup || f != req.fd) then multiset(a.fds)[f] else 0
  {
    S.TargetsCount(a.fds, a.toGroup, req.fd, f);
    var front := Sends(req, a)[..|Sends(req, a)| - 1];
    assert front == Notices(req, a);
    assert Tos(front) == if a.noFd > 0 then S.Targets(a.fds, a.toGroup, req.fd) else [];
  }

  /** A post's last send, and the only send of any other request without data: the reply's header,
      signed by the server. */
  lemma PlainReplySays(req: Request, a: Answers)
    requires GoodAnswers(req, a) && req.msg.hdr.op != DISCONNECT_OP && !SendsHistory(req, a)
    requires AnswersWithData(req.msg.hdr.op) ==> a.result != OP_OK
    ensures |Sends(req, a)| > 0
    ensures var last := Sends(req, a)[|Sends(req, a)| - 1];
      last.to == req.fd && ParseHeader(last.frame) == Got(Header(ReplyOp(req, a), ServerName()), [])
  {
    var op := ReplyOp(req, a);
    HeaderRoundTrip(Header(op, ServerName()), []);
    assert Ack(op) + [] == Ack(op);
  }

  /** A request answered with data gets exactly the message the database calls have made. */
  lemma DataReplySays(req: Request, a: Answers)
    requires GoodAnswers(req, a) && AnswersWithData(req.msg.hdr.op) && a.result == OP_OK
    ensures |Sends(req, a)| == 1 && Sends(req, a)[0].to == req.fd
    ensures ParseMessage(Sends(req, a)[0].frame) ==
            if |a.reply.data.body| <= MAX_BODY then Got(a.reply, []) else TooLong
  {
    OnStreamReads(a.reply, []);
    assert OnStream(a.reply) + [] == OnStream(a.reply);
  }

  /** Eight bytes as a number, least significant byte first. */
  function FromLe64(b: seq<byte>): nat
    requires |b| == 8
  {
    var low: int, high: int := FromLe32(b[..4]), FromLe32(b[4..]);
    low + 0x1_0000_0000 * high
  }

  lemma TwoHalves(low: u32, high: u32)
    ensures FromLe64(Le32(low) + Le32(high)) == low as int + 0x1_0000_0000 * (high as int)
  {
    var b := Le32(low) + Le32(high);
    assert b[..4] == Le32(low) && b[4..] == Le32(high);
    Le32RoundTrip(low);
    Le32RoundTrip(high);
  }

  lemma Halves(n: nat) returns (low: u32, high: u32)
    requires n < 0x1_0000_0000_0000_0000
    ensures low == n % 0x1_0000_0000 && high == n / 0x1_0000_0000 == n / 0x1_0000_0000 % 0x1_0000_0000
    ensures n == low as int + 0x1_0000_0000 * (high as int)
  {
    low, high := n % 0x1_0000_0000, n / 0x1_0000_0000;
  }

  lemma Le64RoundTrip(n: nat)
    requires n < 0x1_0000_0000_0000_0000
    ensures FromLe64(Le64(n)) == n
  {
    var low, high := Halves(n);
    TwoHalves(low, high);
  }

  /** The reply to a request for the history reads back as OP_OK with the number of messages that
      follow. */
  lemma CountSays(req: Request, a: Answers)
    requires GoodAnswers(req, a) && SendsHistory(req, a) && a.noMessage < 0x8000_0000
    ensures |Sends(req, a)| == 1 + a.noMessage && Sends(req, a)[0].to == req.fd
    ensures var p := ParseMessage(Sends(req, a)[0].frame);
      && p.Got? && p.rest == [] && p.value.hdr.op == OP_OK
      && |p.value.data.body| == 8 && FromLe64(p.value.data.body) == a.noMessage
  {
    var m := CountMessage(a.stack, a.noMessage);
    HistorySends(req, a);
    OnStreamReads(m, []);
    assert OnStream(m) + [] == OnStream(m);
    Le64RoundTrip(a.noMessage);
  }

  /** Each of them reads back as its row: a text or a file name, terminated, from the row's sender to the
      user who asked. */
  lemma HistorySays(req: Request, a: Answers, k: nat)
    requires GoodAnswers(req, a) && SendsHistory(req, a) && k < |a.rows| && !Blank(a.rows[k]) && BodiesFit(req, a)
    ensures var row := a.rows[k];
      var (code, body) := if row.text.Some? then (TXT_MESSAGE, row.text.value) else (FILE_MESSAGE, row.filename.value);
      && 1 + k < |Sends(req, a)| && Sends(req, a)[1 + k].to == req.fd
      && ParseMessage(Sends(req, a)[1 + k].frame) ==
         Got(Message(Header(code, row.sentBy), Data(req.msg.hdr.sender, body + [0])), [])
  {
    var m := HistoryMessage(a.rows[k], req.msg.hdr.sender);
    HistorySends(req, a);
    assert Sends(req, a)[1 + k] == History(a.rows, req.msg.hdr.sender, req.fd)[k];
    OnStreamReads(m, []);
    assert OnStream(m) + [] == OnStream(m);
  }

  /** What the client's caller is told of the reply: 0 for OP_OK, -1 for a missing file, whose code the
      client does not know, and otherwise the negated code. */
  lemma ClientReturns(req: Request, a: Answers)
    requires GoodAnswers(req, a) && req.msg.hdr.op != DISCONNECT_OP
    ensures ReturnCode(OutcomeOf(ReplyOp(req, a))) ==
            if ReplyOp(req, a) == 20 then 0 else if ReplyOp(req, a) == 29 then -1 else -(ReplyOp(req, a) as int)
    ensures 25 <= ReplyOp(req, a) <= 29 || ReplyOp(req, a) == 20
  {
  }

  // ---------------------------------------------------------------- the plan of the job

  /** What serving does besides statements. */
  function Acts(req: Request, a: Answers): seq<Act>
    requires GoodAnswers(req, a)
  {
    if req.msg.hdr.op == DISCONNECT_OP then [Close] else
      seq(|Sends(req, a)|, i requires 0 <= i < |Sends(req, a)| => Send(Sends(req, a)[i].to))
  }

  /** A plan without its statements. */
  function Skeleton(plan: seq<Act>): seq<Act> {
    if plan == [] then [] else
      Skeleton(plan[..|plan| - 1]) + if plan[|plan| - 1].Query? then [] else [plan[|plan| - 1]]
  }

  lemma {:induction false} InSkeleton(plan: seq<Act>, act: Act)
    requires !act.Query?
    ensures act in plan <==> act in Skeleton(plan)
  {
    if plan != [] {
      InSkeleton(plan[..|plan| - 1], act);
      assert plan == plan[..|plan| - 1] + [plan[|plan| - 1]];
    }
  }

  lemma CloseIsLast(plan: seq<Act>)
    requires Skeleton(plan) == [Close] && plan != [] && plan[|plan| - 1] == Close
    ensures CloseLast(plan)
  {
    var front := plan[..|plan| - 1];
    assert Skeleton(front) == [];
    InSkeleton(front, Close);
    forall i | 0 <= i < |plan| - 1 ensures plan[i] != Close {
      assert plan[i] == front[i] && front[i] in front;
    }
  }

  lemma SendsSomewhere(req: Request, a: Answers, i: nat)
    requires GoodAnswers(req, a) && i < |Sends(req, a)| && req.fd != VOID_FD
    ensures Sends(req, a)[i].to != VOID_FD
  {
    var targets := S.Targets(a.fds, a.toGroup, req.fd);
    if i < |Notices(req, a)| {
      S.TargetsHave(a.fds, a.toGroup, req.fd, targets[i]);
      assert Sends(req, a)[i] == Notices(req, a)[i];
    }
  }

  /** Whatever statements come in between, what serving a request does is a plan as the composed
      server assumes of every job. */
  lemma PlanIsGood(job: Job, req: Request, a: Answers)
    requires GoodAnswers(req, a) && job.op == req.msg.hdr.op && job.fd == req.fd != VOID_FD
    requires Skeleton(job.plan) == Acts(req, a)
    requires job.op == DISCONNECT_OP ==> job.plan != [] && job.plan[|job.plan| - 1] == Close
    ensures GoodPlan(job)
  {
    InSkeleton(job.plan, Close);
    if job.op == DISCONNECT_OP {
      CloseIsLast(job.plan);
    }
    forall i | 0 <= i < |job.plan| && job.plan[i].Send? ensures job.plan[i].to != VOID_FD {
      InSkeleton(job.plan, job.plan[i]);
      var k :| 0 <= k < |Acts(req, a)| && Acts(req, a)[k] == job.plan[i];
      if job.op != DISCONNECT_OP {
        SendsSomewhere(req, a, k);
      }
    }
  }

  // ---------------------------------------------------------------- the client finds its reply

  datatype Served = Served(req: Request, answers: Answers)

  /** Answered by the store, within the limits for bodies, and without a blank row in a history. */
  predicate Proper(v: Served) {
    && GoodAnswers(v.req, v.answers) && BodiesFit(v.req, v.answers)
    && (SendsHistory(v.req, v.answers) ==> forall i :: 0 <= i < |v.answers.rows| ==> !Blank(v.answers.rows[i]))
  }

  function FramesTo(sends: seq<Sending>, fd: int): multiset<seq<byte>> {
    if sends == [] then multiset{} else
      var last := sends[|sends| - 1];
      FramesTo(sends[..|sends| - 1], fd) + if last.to == fd then multiset{last.frame} else multiset{}
  }

  /** All that serving these requests sends to one descriptor. */
  function SentTo(served: seq<Served>, fd: int): multiset<seq<byte>>
    requires forall k :: 0 <= k < |served| ==> Proper(served[k])
  {
    if served == [] then multiset{} else
      var last := served[|served| - 1];
      assert Proper(last);
      SentTo(served[..|served| - 1], fd) + FramesTo(Sends(last.req, last.answers), fd)
  }

  lemma {:induction false} InFramesTo(sends: seq<Sending>, fd: int, f: seq<byte>) returns (i: nat)
    requires f in FramesTo(sends, fd)
    ensures i < |sends| && sends[i] == Sending(fd, f)
  {
    var n := |sends| - 1;
    if sends[n] == Sending(fd, f) {
      i := n;
    } else {
      i := InFramesTo(sends[..n], fd, f);
    }
  }

  lemma {:induction false} InSentTo(served: seq<Served>, fd: int, f: seq<byte>) returns (k: nat, i: nat)
    requires forall k :: 0 <= k < |served| ==> Proper(served[k])
    requires f in SentTo(served, fd)
    ensures k < |served| && i < |Sends(served[k].req, served[k].answers)|
    ensures Sends(served[k].req, served[k].answers)[i] == Sending(fd, f)
  {
    var n := |served| - 1;
    if f in FramesTo(Sends(served[n].req, served[n].answers), fd) {
      k := n;
      i := InFramesTo(Sends(served[n].req, served[n].answers), fd, f);
    } else {
      k, i := InSentTo(served[..n], fd, f);
    }
  }

  /** The only reply a proper request sends is its own. */
  lemma OnlyItsReply(v: Served, i: nat)
    requires Proper(v) && i < |Sends(v.req, v.answers)| && F.IsReplyFrame(Sends(v.req, v.answers)[i].frame)
    ensures Sends(v.req, v.answers)[i] == Sending(v.req.fd, ReplyFrame(v.req, v.answers))
  {
    var sends, n := Sends(v.req, v.answers), |Notices(v.req, v.answers)|;
    if i < n {
      assert sends[i] == Notices(v.req, v.answers)[i];
      NoticesAreNoReplies(v.req, v.answers, i);
    } else if i > n {
      var row := v.answers.rows[i - n - 1];
      assert sends[i] == History(v.answers.rows, v.req.msg.hdr.sender, v.req.fd)[i - n - 1];
      StreamHeader(HistoryMessage(row, v.req.msg.hdr.sender));
    }
  }

  /** End to end, for any restart slot: if every send begun on a client's descriptor belongs to a
      request that a slave has served, no ended one failed, a reply to one of the client's requests has
      been sent, and no breach has happened there, then the client keeps notifications that served
      requests have sent it and takes for its answer the reply to a request of its own. */
  lemma ClientGetsItsReply(run: seq<F.State>, i: nat, fd: int, served: seq<Served>, own: nat, r: nat)
    returns (ms: seq<Message>, k: nat, rest: seq<byte>)
    requires F.IsRun(run) && i < |run| && F.NoBreach(run, i, fd)
    requires forall k :: 0 <= k < |served| ==> Proper(served[k])
    requires F.Begun(run[i], fd) <= SentTo(served, fd)
    requires own < |served| && served[own].req.fd == fd && served[own].req.msg.hdr.op != DISCONNECT_OP
    requires F.AllWhole(F.Released(run[i], fd)) && r < |F.Released(run[i], fd)|
    requires F.Released(run[i], fd)[r].frame == ReplyFrame(served[own].req, served[own].answers)
    ensures k < |served| && served[k].req.fd == fd && served[k].req.msg.hdr.op != DISCONNECT_OP
    ensures Await(F.Stream(run[i], fd)) == Reply(ms, OutcomeOf(ReplyOp(served[k].req, served[k].answers)), rest)
    ensures AllGood(ms) && forall m :: m in ms ==> EncodeMessage(m) in SentTo(served, fd)
  {
    forall f | f in F.Begun(run[i], fd) ensures F.IsFrame(f) {
      ServedFrame(served, fd, f);
    }
    ReplyFrameIs(served[own].req, served[own].answers);
    var at;
    ms, at, rest := F.ClientReadsWhatSlavesWrote(run, i, fd, r);
    var sends := F.Released(run[i], fd);
    ReleasedIsServed(run, i, fd, served, at);
    var n;
    k, n := InSentTo(served, fd, sends[at].frame);
    OnlyItsReply(served[k], n);
    ReplyFrameIs(served[k].req, served[k].answers);
    forall j | 0 <= j < |ms| ensures EncodeMessage(ms[j]) in SentTo(served, fd) {
      ReleasedIsServed(run, i, fd, served, 0 + j);
    }
  }

  lemma ServedFrame(served: seq<Served>, fd: int, f: seq<byte>)
    requires forall k :: 0 <= k < |served| ==> Proper(served[k])
    requires f in SentTo(served, fd)
    ensures F.IsFrame(f)
  {
    var k, i := InSentTo(served, fd, f);
    FramesIff(served[k].req, served[k].answers);
  }

  lemma ReleasedIsServed(run: seq<F.State>, i: nat, fd: int, served: seq<Served>, j: nat)
    requires F.IsRun(run) && i < |run| && F.NoBreach(run, i, fd) && j < |F.Released(run[i], fd)|
    requires forall k :: 0 <= k < |served| ==> Proper(served[k])
    requires F.Begun(run[i], fd) <= SentTo(served, fd)
    ensures F.Released(run[i], fd)[j].frame in SentTo(served, fd)
  {
    F.AtomicUntilBreach(run, i, fd);
    F.BegunFrames(run[i], fd, j);
  }
}
