/**
 What the core makes of the bytes on a readable descriptor: it reads one request, assembles posted
 files, enforces the size limits, and pushes exactly one message for the slaves.
 */
module CoreLoop {
  import opened Jobs
  import opened Wire
  import opened FileRepack

  function NoName(): NameField {
    seq(33, _ => 0)
  }

  /** A message wiped to zero except for its operation. */
  function Wiped(op: u32): Message {
    Message(Header(op, NoName()), Data(NoName(), []))
  }

  /** The configured limits, and whether the compiler makes the enumeration of operation codes
      signed. The language leaves that open; for one without negative constants gcc, which builds the
      program, chooses unsigned. */
  datatype Config = Config(maxMsgSize: nat, maxFileSize: nat, signedOps: bool)

  /** An operation code as the program compares it. */
  function CodeOf(op: u32, signedOps: bool): int {
    if signedOps && op >= 0x8000_0000 then op - 0x1_0000_0000 else op
  }

  /** What is pushed, whether the descriptor stays selected, and what is left on the stream. The
      source gives no meaning to a posted file whose name has no bytes: it writes the terminator
      before looking whether there is room for one. */
  datatype Verdict = Verdict(msg: Message, keep: bool, rest: seq<byte>) | Undefined

  /** A request that cannot be read is wiped. */
  function HungUp(): Verdict {
    Verdict(Wiped(DISCONNECT_OP), false, [])
  }

  /** A post whose second half cannot be read only gets another operation: sender, receiver and name
      stay in the message. */
  function BrokenPost(m: Message): Verdict {
    Verdict(m.(hdr := m.hdr.(op := DISCONNECT_OP)), false, [])
  }

  function Limited(m: Message, conf: Config): Message {
    if |m.data.body| > conf.maxMsgSize then Wiped(OP_MSG_TOOLONG)
    else if CodeOf(m.hdr.op, conf.signedOps) < 0 then Wiped(OP_FAIL)
    else m
  }

  /** The name's body becomes base name, NUL, content. */
  function WithFile(m: Message, content: seq<byte>): Message
    requires m.data.body != []
  {
    m.(data := m.data.(body := Joined(BaseName(CString(Terminated(m.data.body))), content)))
  }

  predicate IsPost(b: seq<byte>) {
    ParseMessage(b).Got? && ParseMessage(b).value.hdr.op == POSTFILE_OP
  }

  function Assembled(m: Message, content: seq<byte>, rest: seq<byte>, conf: Config): Verdict {
    if |content| > conf.maxFileSize * 1024 then Verdict(Wiped(OP_MSG_TOOLONG), true, rest)
    else if m.data.body == [] then Undefined
    else Verdict(WithFile(m, content), true, rest)
  }

  function DispatchFile(m: Message, b: seq<byte>, conf: Config): Verdict {
    match ParseData(b)
    case Got(file, rest) => Assembled(m, file.body, rest, conf)
    case _ => BrokenPost(m)
  }

  function Dispatch(b: seq<byte>, conf: Config): Verdict {
    match ParseMessage(b)
    case Got(m, rest) =>
      if m.hdr.op != POSTFILE_OP then Verdict(Limited(m, conf), true, rest)
      else DispatchFile(m, rest, conf)
    case _ => HungUp()
  }

  /** What a failing connection can make of a request. */
  ghost predicate IsFailure(b: seq<byte>, v: Verdict) {
    v == HungUp() || (IsPost(b) && v == BrokenPost(ParseMessage(b).value))
  }

  // ---------------------------------------------------------------- the loop body

  class Core {
    var activeSet: set<int>
    var queue: seq<(Message, int)>
    const conf: Config

    constructor (conf: Config)
      ensures activeSet == {} && queue == [] && this.conf == conf
    {
      activeSet, queue := {}, [];
      this.conf := conf;
    }

    method Accept(fd: int)
      modifies this`activeSet
      ensures activeSet == old(activeSet) + {fd}
    {
      activeSet := activeSet + {fd};
    }

    method Push(fd: int, m: Message)
      modifies this`queue
      ensures queue == old(queue) + [(m, fd)]
    {
      queue := queue + [(m, fd)];
    }

    method HangUp(fd: int, m: Message)
      modifies this`activeSet, this`queue
      ensures queue == old(queue) + [(m, fd)] && activeSet == old(activeSet) - {fd}
    {
      Push(fd, m);
      activeSet := activeSet - {fd};
    }

    /** The outcome of one round: one more message in the queue, and the descriptor kept or not; or
        no meaning. */
    ghost predicate HandlesAs(queue0: seq<(Message, int)>, active0: set<int>, fd: int, v: Verdict,
                              left: seq<byte>, defined: bool)
      reads this`queue, this`activeSet
    {
      match v
      case Undefined => !defined
      case Verdict(msg, keep, rest) =>
        && defined && queue == queue0 + [(msg, fd)]
        && activeSet == (if keep then active0 else active0 - {fd})
        && (keep ==> left == rest)
    }

    /** One message, whatever it is, and at most this descriptor let go. */
    ghost predicate PushesOne(queue0: seq<(Message, int)>, active0: set<int>, fd: int)
      reads this`queue, this`activeSet
    {
      exists m :: queue == queue0 + [(m, fd)]
                  && (activeSet == active0 || (activeSet == active0 - {fd} && m.hdr.op == DISCONNECT_OP))
    }

    /** Content and base name go into the post's buffer. */
    method Assemble(m: Message, content: seq<byte>) returns (r: Message)
      requires m.data.body != [] && |content| <= conf.maxFileSize * 1024
      ensures r == WithFile(m, content)
    {
      var name := new byte[|m.data.body|](i requires 0 <= i < |m.data.body| => m.data.body[i]);
      var file := new byte[|content|](i requires 0 <= i < |content| => content[i]);
      assert name[..] == m.data.body && file[..] == content;
      var joined := AssembleFile(name, file, conf.maxFileSize);
      r := m.(data := m.data.(body := joined[..]));
    }

    /** A post whose second half has been read. */
    method PushFile(fd: int, m: Message, content: seq<byte>, ghost left: seq<byte>) returns (defined: bool)
      modifies this`queue
      ensures HandlesAs(old(queue), activeSet, fd, Assembled(m, content, left, conf), left, defined)
    {
      defined := true;
      if |content| > conf.maxFileSize * 1024 {
        Push(fd, Wiped(OP_MSG_TOOLONG));
      } else if m.data.body == [] {
        defined := false;
      } else {
        var post := Assemble(m, content);
        Push(fd, post);
      }
    }

    /** The second half of a posted file. */
    method ReceiveFile(fd: int, sock: Socket, m: Message) returns (defined: bool)
      modifies this`activeSet, this`queue, sock`inbox
      ensures defined ==> PushesOne(old(queue), old(activeSet), fd)
      ensures sock.Sound() ==>
        || HandlesAs(old(queue), old(activeSet), fd, DispatchFile(m, old(sock.inbox), conf), sock.inbox, defined)
        || HandlesAs(old(queue), old(activeSet), fd, BrokenPost(m), sock.inbox, defined)
      ensures sock.Sound() && sock.reliable ==>
        HandlesAs(old(queue), old(activeSet), fd, DispatchFile(m, old(sock.inbox), conf), sock.inbox, defined)
    {
      var ret, file := sock.ReadData();
      if ret <= 0 {
        HangUp(fd, m.(hdr := m.hdr.(op := DISCONNECT_OP)));
        defined := true;
      } else {
        defined := PushFile(fd, m, file.body, sock.inbox);
      }
    }

    /** A request that is no post: the limits, and the codes that are not for clients. */
    method PushRequest(fd: int, m: Message, ghost left: seq<byte>)
      modifies this`queue
      ensures HandlesAs(old(queue), activeSet, fd, Verdict(Limited(m, conf), true, left), left, true)
    {
      if |m.data.body| > conf.maxMsgSize {
        Push(fd, Wiped(OP_MSG_TOOLONG));
      } else if CodeOf(m.hdr.op, conf.signedOps) < 0 {
        Push(fd, Wiped(OP_FAIL));
      } else {
        Push(fd, m);
      }
    }

    /** One readable descriptor. On a reliable connection the verdict is the specified one, for
        every split into chunks (with the header pointer the code has, if headers come in one
        piece); a failing connection can only turn it into a disconnection. */
    method HandleReadable(fd: int, sock: Socket) returns (defined: bool)
      requires fd in activeSet
      modifies this`activeSet, this`queue, sock`inbox
      ensures defined ==> PushesOne(old(queue), old(activeSet), fd)
      ensures sock.Sound() ==> exists v ::
        && (v == Dispatch(old(sock.inbox), conf) || IsFailure(old(sock.inbox), v))
        && HandlesAs(old(queue), old(activeSet), fd, v, sock.inbox, defined)
      ensures sock.Sound() && sock.reliable ==>
        HandlesAs(old(queue), old(activeSet), fd, Dispatch(old(sock.inbox), conf), sock.inbox, defined)
    {
      defined := true;
      ghost var v := Dispatch(sock.inbox, conf);
      var ret, m := sock.ReadMsg();
      if ret <= 0 {
        HangUp(fd, Wiped(DISCONNECT_OP));
        assert HandlesAs(old(queue), old(activeSet), fd, HungUp(), sock.inbox, defined);
      } else if m.hdr.op == POSTFILE_OP {
        defined := ReceiveFile(fd, sock, m);
        assert sock.Sound() ==>
          || HandlesAs(old(queue), old(activeSet), fd, v, sock.inbox, defined)
          || HandlesAs(old(queue), old(activeSet), fd, BrokenPost(m), sock.inbox, defined);
      } else {
        PushRequest(fd, m, sock.inbox);
        assert sock.Sound() ==> HandlesAs(old(queue), old(activeSet), fd, v, sock.inbox, defined);
      }
    }
  }

  // ---------------------------------------------------------------- what clients can rely on

  /** A request other than a posted file reaches the slaves unchanged exactly when its body is
      within the limit and, where operation codes are signed, the top bit of its code is not set;
      otherwise a refusal arrives. Whatever is sent next is untouched. */
  lemma RequestArrivesIff(m: Message, rest: seq<byte>, conf: Config)
    requires |m.data.body| <= MAX_BODY && m.hdr.op != POSTFILE_OP
    ensures var v := Dispatch(EncodeMessage(m) + rest, conf);
      && v.Verdict? && v.keep && v.rest == rest
      && (v.msg == m <==> |m.data.body| <= conf.maxMsgSize && !(conf.signedOps && m.hdr.op >= 0x8000_0000))
      && (v.msg != m ==>
          v.msg == Wiped(if |m.data.body| > conf.maxMsgSize then OP_MSG_TOOLONG else OP_FAIL))
  {
    MessageRoundTrip(m, rest);
  }

  /** The guard against codes that are not for clients lets none of them through where codes are
      signed. As the program is built it never fires, and such a code takes the slave's branch for
      unknown operations, after admission. */
  lemma HighCodesAreUnknown(m: Message, rest: seq<byte>, conf: Config)
    requires |m.data.body| <= MAX_BODY && |m.data.body| <= conf.maxMsgSize && m.hdr.op >= 0x8000_0000
    ensures var v := Dispatch(EncodeMessage(m) + rest, conf);
      && v.Verdict?
      && if conf.signedOps then v.msg.hdr.op == OP_FAIL && !NeedsAdmission(v.msg.hdr.op)
         else v.msg == m && NeedsAdmission(CodeOf(v.msg.hdr.op, false)) && !Known(CodeOf(v.msg.hdr.op, false))
  {
    MessageRoundTrip(m, rest);
  }

  /** A posted file as the client sends it, a terminated path and then the content, reaches the
      slaves as one message, from which the slave takes the path's base name and the content byte
      for byte, exactly when the content is within the limit. */
  lemma PostedFileArrives(m: Message, path: seq<byte>, file: Data, rest: seq<byte>, conf: Config)
    requires m.hdr.op == POSTFILE_OP && 0 !in path && m.data.body == path + [0]
    requires |m.data.body| <= MAX_BODY && |file.body| <= MAX_BODY
    ensures var v := Dispatch(EncodeMessage(m) + (EncodeData(file) + rest), conf);
      && v.Verdict? && v.keep && v.rest == rest
      && if |file.body| > conf.maxFileSize * 1024 then v.msg == Wiped(OP_MSG_TOOLONG) else
         && v.msg.hdr == m.hdr && v.msg.data.receiver == m.data.receiver
         && 0 in v.msg.data.body
         && NameIn(v.msg.data.body) == BaseName(path) && ContentIn(v.msg.data.body) == file.body
  {
    MessageRoundTrip(m, EncodeData(file) + rest);
    DataRoundTrip(file, rest);
    assert Terminated(m.data.body) == path + [0] + [];
    StrLenOf(path, []);
    BaseNameIsComponent(path);
    RepackRoundTrip(BaseName(path), file.body);
  }

  /** So what the slaves get of a file in a directory is the file's own name. */
  lemma PostedFileIsNamed(m: Message, directory: seq<byte>, name: seq<byte>, slashes: seq<byte>, file: Data,
                          conf: Config)
    requires name != [] && SLASH !in name && 0 !in name && 0 !in directory && AllSlashes(slashes)
    requires m.hdr.op == POSTFILE_OP && m.data.body == directory + [SLASH] + name + slashes + [0]
    requires |m.data.body| <= MAX_BODY && |file.body| <= MAX_BODY && |file.body| <= conf.maxFileSize * 1024
    ensures var v := Dispatch(EncodeMessage(m) + EncodeData(file), conf);
      && v.Verdict? && 0 in v.msg.data.body
      && NameIn(v.msg.data.body) == name && ContentIn(v.msg.data.body) == file.body
  {
    assert EncodeData(file) + [] == EncodeData(file);
    PostedFileArrives(m, directory + [SLASH] + name + slashes, file, [], conf);
    BaseNameInDirectory(directory, name, slashes);
  }

  /** A stream that breaks off inside a request, or announces an over-long body, is treated as a
      disconnection, and only then does the core let go of the descriptor. Sender and data of a post
      that has been read stay in the message. */
  lemma LetGoIff(b: seq<byte>, conf: Config)
    ensures var v := Dispatch(b, conf);
      && (v.Verdict? && !v.keep <==>
          !ParseMessage(b).Got? || (IsPost(b) && !ParseData(ParseMessage(b).rest).Got?))
      && (v.Verdict? && !v.keep ==> v.msg.hdr.op == DISCONNECT_OP)
      && (v.Verdict? && !v.keep && IsPost(b) ==>
          v.msg.hdr.sender == ParseMessage(b).value.hdr.sender && v.msg.data == ParseMessage(b).value.data)
      && (v.Verdict? && !v.keep && !IsPost(b) ==>
          v.msg.data.body == [] && forall i :: 0 <= i < 33 ==> v.msg.hdr.sender[i] == v.msg.data.receiver[i] == 0)
  {
  }

  /** Exactly the posts without a name, read whole and with a content within the limit, have no
      meaning. */
  lemma UndefinedIff(b: seq<byte>, conf: Config)
    ensures Dispatch(b, conf).Undefined? <==>
      && IsPost(b) && ParseMessage(b).value.data.body == []
      && ParseData(ParseMessage(b).rest).Got? && |ParseData(ParseMessage(b).rest).value.body| <= conf.maxFileSize * 1024
  {
  }

  // ---------------------------------------------------------------- announcing a file

  /** The notification is the stored message with another operation. */
  function Announcement(m: Message): Message {
    m.(hdr := m.hdr.(op := FILE_MESSAGE))
  }

  lemma AnnouncementReads(m: Message, name: seq<byte>, content: seq<byte>, more: seq<byte>)
    requires 0 in m.data.body && NameIn(m.data.body) == name && ContentIn(m.data.body) == content
    requires |name| <= MAX_BODY && |content| <= MAX_BODY
    ensures Sendable(m.data)
    ensures ParseMessage(OnStream(Announcement(m)) + more) ==
            if |name| + 1 + |content| <= MAX_BODY then Got(Announcement(m), more) else TooLong
  {
    UnpackRoundTrip(m.data.body);
    assert |m.data.body| == |name| + 1 + |content|;
    OnStreamReads(Announcement(m), more);
  }

  lemma BaseNameLength(path: seq<byte>)
    ensures path != [] ==> |BaseName(path)| <= |path|
    ensures |BaseName(path)| <= |path| + 1
  {
  }

  /** A post as the client begins it: a terminated path. */
  predicate PostsPath(m: Message, path: seq<byte>) {
    m.hdr.op == POSTFILE_OP && 0 !in path && m.data.body == path + [0] && |m.data.body| <= MAX_BODY
  }

  /** The contents the core accepts. */
  predicate Accepted(content: seq<byte>, conf: Config) {
    |content| <= MAX_BODY && |content| <= conf.maxFileSize * 1024
  }

  /** What a receiver makes of the bytes that announce the posted file, whatever follows them. */
  ghost predicate Announced(m: Message, file: Data, conf: Config) {
    && Sendable(m.data) && Sendable(file)
    && var v := Dispatch(EncodeMessage(m) + EncodeData(file), conf);
       && v.Verdict? && Sendable(v.msg.data)
       && forall more :: ParseMessage(OnStream(Announcement(v.msg)) + more) == Got(Announcement(v.msg), more)
  }

  /** An accepted file is announced to a receiver exactly if base name, NUL and content together are
      within the limit for bodies, which the core has only checked of the content. Otherwise only the
      headers of the announcement go out, and the receiver refuses them whatever follows. */
  lemma AnnouncedIff(m: Message, path: seq<byte>, file: Data, conf: Config, more: seq<byte>)
    requires PostsPath(m, path) && Accepted(file.body, conf)
    ensures var v := Dispatch(EncodeMessage(m) + EncodeData(file), conf);
      && v.Verdict? && Sendable(v.msg.data)
      && ParseMessage(OnStream(Announcement(v.msg)) + more) ==
         if |BaseName(path)| + 1 + |file.body| <= MAX_BODY then Got(Announcement(v.msg), more) else TooLong
  {
    assert EncodeData(file) + [] == EncodeData(file);
    PostedFileArrives(m, path, file, [], conf);
    BaseNameLength(path);
    var v := Dispatch(EncodeMessage(m) + EncodeData(file), conf);
    AnnouncementReads(v.msg, BaseName(path), file.body, more);
  }

  lemma IsAnnouncedIff(m: Message, path: seq<byte>, file: Data, conf: Config)
    requires PostsPath(m, path) && Accepted(file.body, conf)
    ensures Announced(m, file, conf) <==> |BaseName(path)| + 1 + |file.body| <= MAX_BODY
  {
    var v := Dispatch(EncodeMessage(m) + EncodeData(file), conf);
    AnnouncedIff(m, path, file, conf, []);
    forall more
      ensures ParseMessage(OnStream(Announcement(v.msg)) + more) ==
              if |BaseName(path)| + 1 + |file.body| <= MAX_BODY then Got(Announcement(v.msg), more) else TooLong
    {
      AnnouncedIff(m, path, file, conf, more);
    }
  }

  /** Every file the core accepts under a name is announced exactly if the configured limit leaves
      room for the name and its NUL. */
  lemma AllAnnouncedIff(m: Message, path: seq<byte>, conf: Config)
    requires PostsPath(m, path)
    ensures (forall file: Data :: Accepted(file.body, conf) ==> Announced(m, file, conf))
            <==> |BaseName(path)| + 1 + conf.maxFileSize * 1024 <= MAX_BODY
  {
    forall file: Data | Accepted(file.body, conf)
      ensures Announced(m, file, conf) <==> |BaseName(path)| + 1 + |file.body| <= MAX_BODY
    {
      IsAnnouncedIff(m, path, file, conf);
    }
    var most := if conf.maxFileSize * 1024 < MAX_BODY then conf.maxFileSize * 1024 else MAX_BODY;
    var content: seq<byte> := seq(most, _ => 0);
    var largest := Data(NoName(), content);
    assert |largest.body| == most && Accepted(largest.body, conf);
  }
}
