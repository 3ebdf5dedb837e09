/**
 The client's side of a request: it waits for the reply, and notifications that arrive first are
 kept for later in the growing list MSGS.
 */
module Client {
  import opened Jobs
  import opened Wire

  datatype Outcome = Acknowledged | Failed(op: u32) | Invalid

  predicate IsNotification(op: int) {
    op == TXT_MESSAGE || op == FILE_MESSAGE
  }

  /** The error replies the loop knows; the code for a missing file is not among them. */
  predicate IsErrorReply(op: int) {
    op == OP_NICK_ALREADY || op == OP_NICK_UNKNOWN || op == OP_MSG_TOOLONG || op == OP_FAIL
  }

  function OutcomeOf(op: u32): Outcome {
    if op == OP_OK then Acknowledged else if IsErrorReply(op) then Failed(op) else Invalid
  }

  /** The number the loop's caller sees. */
  function ReturnCode(o: Outcome): int {
    match o
    case Acknowledged => 0
    case Failed(op) => -(op as int)
    case Invalid => -1
  }

  /** What waiting for a reply makes of a stream: the notifications before the reply, the reply,
      and what is left; or the stream breaks off. */
  datatype Awaited = Reply(kept: seq<Message>, outcome: Outcome, rest: seq<byte>) | Broken(kept: seq<Message>)

  function Keep(m: Message, a: Awaited): Awaited {
    match a
    case Reply(kept, outcome, rest) => Reply([m] + kept, outcome, rest)
    case Broken(kept) => Broken([m] + kept)
  }

  function Await(b: seq<byte>): Awaited
    decreases |b|
  {
    match ParseHeader(b)
    case Got(hdr, tail) =>
      if !IsNotification(hdr.op) then Reply([], OutcomeOf(hdr.op), tail)
      else
        (match ParseData(tail)
         case Got(data, rest) => Keep(Message(hdr, data), Await(rest))
         case _ => Broken([]))
    case _ => Broken([])
  }

  predicate GoodNotification(m: Message) {
    IsNotification(m.hdr.op) && |m.data.body| <= MAX_BODY
  }

  predicate AllGood(ms: seq<Message>) {
    forall i :: 0 <= i < |ms| ==> GoodNotification(ms[i])
  }

  function EncodeAll(ms: seq<Message>): seq<byte>
    requires AllGood(ms)
  {
    if ms == [] then [] else EncodeMessage(ms[0]) + EncodeAll(ms[1..])
  }

  lemma AwaitNotification(m: Message, more: seq<byte>)
    requires GoodNotification(m)
    ensures Await(EncodeMessage(m) + more) == Keep(m, Await(more))
  {
    var tail := EncodeData(m.data) + more;
    assert EncodeMessage(m) + more == EncodeHeader(m.hdr) + tail;
    HeaderRoundTrip(m.hdr, tail);
    DataRoundTrip(m.data, more);
  }

  lemma AwaitPlainReply(reply: Header, rest: seq<byte>)
    requires !IsNotification(reply.op)
    ensures Await(EncodeHeader(reply) + rest) == Reply([], OutcomeOf(reply.op), rest)
  {
    HeaderRoundTrip(reply, rest);
  }

  lemma Associate(a: seq<byte>, b: seq<byte>, c: seq<byte>)
    ensures (a + b) + c == a + (b + c)
  {
  }

  /** Any number of whole notifications before the reply are kept, in order, and the reply is
      recognised; whatever follows it is left on the stream. */
  lemma {:induction false} AwaitReply(ms: seq<Message>, reply: Header, rest: seq<byte>)
    requires AllGood(ms) && !IsNotification(reply.op)
    ensures Await(EncodeAll(ms) + (EncodeHeader(reply) + rest)) == Reply(ms, OutcomeOf(reply.op), rest)
  {
    AwaitPlainReply(reply, rest);
    AwaitBefore(ms, EncodeHeader(reply) + rest);
    assert ms + [] == ms;
  }

  lemma {:induction false} AwaitBefore(ms: seq<Message>, tail: seq<byte>)
    requires AllGood(ms)
    ensures Await(EncodeAll(ms) + tail) == KeepAll(ms, Await(tail))
  {
    if ms == [] {
      assert EncodeAll(ms) + tail == tail;
    } else {
      AwaitBefore(ms[1..], tail);
      AwaitNotification(ms[0], EncodeAll(ms[1..]) + tail);
      Associate(EncodeMessage(ms[0]), EncodeAll(ms[1..]), tail);
      KeepThenAll(ms, Await(tail));
    }
  }

  ghost function KeepAll(ms: seq<Message>, a: Awaited): Awaited {
    match a
    case Reply(kept, outcome, rest) => Reply(ms + kept, outcome, rest)
    case Broken(kept) => Broken(ms + kept)
  }

  lemma KeepThenAll(ms: seq<Message>, a: Awaited)
    requires ms != []
    ensures Keep(ms[0], KeepAll(ms[1..], a)) == KeepAll(ms, a)
  {
    assert [ms[0]] + (ms[1..] + a.kept) == ms + a.kept;
  }

  /** The loop has kept `kept`, and the rest of the stream is still to be awaited. */
  ghost predicate KeptSoFar(goal: Awaited, kept: seq<Message>, left: seq<byte>) {
    goal == KeepAll(kept, Await(left))
  }

  lemma KeptIsPrefix(goal: Awaited, kept: seq<Message>, left: seq<byte>)
    requires KeptSoFar(goal, kept, left)
    ensures kept <= goal.kept
  {
  }

  /** The stream ends before the next header. */
  lemma StreamEnds(goal: Awaited, kept: seq<Message>, left: seq<byte>)
    requires KeptSoFar(goal, kept, left) && !ParseHeader(left).Got?
    ensures goal == Broken(kept)
  {
    KeepAllBroken(kept);
  }

  /** The next header is a reply. */
  lemma ReplyComes(goal: Awaited, kept: seq<Message>, left: seq<byte>, hdr: Header, rest: seq<byte>)
    requires KeptSoFar(goal, kept, left) && ParseHeader(left) == Got(hdr, rest) && !IsNotification(hdr.op)
    ensures goal == Reply(kept, OutcomeOf(hdr.op), rest)
  {
    KeepAllReply(kept, OutcomeOf(hdr.op), rest);
  }

  class RequestReply {
    var msgs: seq<Message>
    const sock: Socket

    constructor (sock: Socket)
      ensures this.sock == sock && msgs == []
    {
      this.sock := sock;
      msgs := [];
    }

    /** Reads one notification's data and appends the message. */
    method ReadMessage(hdr: Header) returns (ret: int)
      modifies this`msgs, sock`inbox
      ensures ret == 1 || ret == -1
      ensures ret == 1 ==> |sock.inbox| < |old(sock.inbox)| && exists data :: msgs == old(msgs) + [Message(hdr, data)]
      ensures sock.Sound() && ret == 1 ==>
        exists data :: ParseData(old(sock.inbox)) == Got(data, sock.inbox) && msgs == old(msgs) + [Message(hdr, data)]
      ensures ret == -1 ==> msgs == old(msgs)
      ensures sock.Sound() && sock.reliable ==> (ret == 1 <==> ParseData(old(sock.inbox)).Got?)
    {
      var r, data := sock.ReadData();
      if r <= 0 {
        return -1;
      }
      msgs := msgs + [Message(hdr, data)];
      return 1;
    }

    /** What the specification says of the stream `start`, once the loop has returned. */
    ghost predicate AsAwaited(msgs0: seq<Message>, start: seq<byte>, ret: int, outcome: Outcome)
      reads this`msgs, sock`inbox
    {
      match Await(start)
      case Reply(kept, o, rest) =>
        msgs == msgs0 + kept && outcome == o && ret == ReturnCode(o) && sock.inbox == rest
      case Broken(kept) => msgs == msgs0 + kept && ret == -1
    }

    /** One round of the loop over a notification. */
    method KeepNotification(hdr: Header, ghost goal: Awaited, ghost before: seq<byte>,
                            ghost msgs0: seq<Message>, ghost kept: seq<Message>)
      returns (ok: bool, ghost kept': seq<Message>)
      requires IsNotification(hdr.op) && msgs == msgs0 + kept
      requires sock.Sound() ==> ParseHeader(before) == Got(hdr, sock.inbox) && KeptSoFar(goal, kept, before)
      modifies this`msgs, sock`inbox
      ensures msgs == msgs0 + kept' && (!ok ==> kept' == kept)
      ensures ok ==> |sock.inbox| < |old(sock.inbox)|
      ensures sock.Sound() && ok ==> KeptSoFar(goal, kept', sock.inbox)
      ensures sock.Sound() && !ok ==> kept <= goal.kept && (sock.reliable ==> goal == Broken(kept))
    {
      ghost var tail := sock.inbox;
      kept' := kept;
      var rm := ReadMessage(hdr);
      ok := rm > 0;
      if !ok {
        KeepAllBroken(kept);
        return;
      }
      ghost var data :| msgs == old(msgs) + [Message(hdr, data)]
                        && (sock.Sound() ==> ParseData(tail) == Got(data, sock.inbox));
      KeepAllSnoc(kept, Message(hdr, data), Await(sock.inbox));
      kept' := kept + [Message(hdr, data)];
      assert msgs == msgs0 + kept';
    }

    /** How the loop ends: it has seen all that the specification says of the stream, or the
        connection has failed before. */
    ghost predicate EndsAs(goal: Awaited, kept: seq<Message>, ret: int, outcome: Outcome, left: seq<byte>) {
      || (goal == Reply(kept, outcome, left) && ret == ReturnCode(outcome))
      || (goal == Broken(kept) && ret == -1)
    }

    /** A header cannot be read: the stream has ended, or the connection fails. */
    lemma NoMoreHeaders(goal: Awaited, kept: seq<Message>, left: seq<byte>)
      requires sock.Sound() ==> KeptSoFar(goal, kept, left)
      requires sock.reliable ==> !ParseHeader(left).Got?
      ensures sock.Sound() ==> kept <= goal.kept
      ensures sock.Sound() && sock.reliable ==> goal == Broken(kept)
    {
      if sock.Sound() {
        KeptIsPrefix(goal, kept, left);
        if sock.reliable {
          StreamEnds(goal, kept, left);
        }
      }
    }

    /** The reply loop, with the notifications it keeps. */
    method AwaitLoop() returns (ret: int, outcome: Outcome, ghost kept: seq<Message>)
      modifies this`msgs, sock`inbox
      ensures msgs == old(msgs) + kept
      ensures sock.Sound() ==>
        || EndsAs(Await(old(sock.inbox)), kept, ret, outcome, sock.inbox)
        || (!sock.reliable && ret == -1 && kept <= Await(old(sock.inbox)).kept)
    {
      ghost var goal := Await(sock.inbox);
      kept := [];
      outcome := Invalid;
      var ackok := false;
      while !ackok
        invariant msgs == old(msgs) + kept
        invariant sock.Sound() && !ackok ==> KeptSoFar(goal, kept, sock.inbox)
        invariant ackok ==> outcome == Acknowledged
        invariant sock.Sound() && ackok ==> goal == Reply(kept, Acknowledged, sock.inbox)
        decreases if ackok then 0 else 1, |sock.inbox|
      {
        ghost var before := sock.inbox;
        var r, hdr := sock.ReadHeader();
        if r <= 0 {
          NoMoreHeaders(goal, kept, before);
          return -1, Invalid, kept;
        }
        if sock.Sound() && !IsNotification(hdr.op) {
          ReplyComes(goal, kept, before, hdr, sock.inbox);
        }
        if hdr.op == OP_OK {
          ackok, outcome := true, Acknowledged;
        } else if IsNotification(hdr.op) {
          var ok;
          ok, kept := KeepNotification(hdr, goal, before, old(msgs), kept);
          if !ok {
            return -1, Invalid, kept;
          }
        } else if IsErrorReply(hdr.op) {
          return -(hdr.op as int), Failed(hdr.op), kept;
        } else {
          return -1, Invalid, kept;
        }
      }
      ret := 0;
    }

    /** Waiting for the reply. On a reliable connection it does exactly what the specification says of
        the stream, for every split into chunks; with the header pointer the code has, if headers
        come in one piece. A failing connection can only end it earlier, with fewer notifications
        kept. */
    method AwaitAck() returns (ret: int, outcome: Outcome)
      modifies this`msgs, sock`inbox
      ensures old(msgs) <= msgs
      ensures sock.Sound() && sock.reliable ==> AsAwaited(old(msgs), old(sock.inbox), ret, outcome)
      ensures sock.Sound() ==>
        || AsAwaited(old(msgs), old(sock.inbox), ret, outcome)
        || (ret == -1 && msgs <= old(msgs) + Await(old(sock.inbox)).kept)
    {
      ghost var kept;
      ret, outcome, kept := AwaitLoop();
    }
  }

  lemma KeepAllSnoc(ms: seq<Message>, m: Message, a: Awaited)
    ensures KeepAll(ms, Keep(m, a)) == KeepAll(ms + [m], a)
  {
    assert ms + ([m] + a.kept) == ms + [m] + a.kept;
  }

  lemma KeepAllReply(ms: seq<Message>, o: Outcome, rest: seq<byte>)
    ensures KeepAll(ms, Reply([], o, rest)) == Reply(ms, o, rest)
  {
  }

  lemma KeepAllBroken(ms: seq<Message>)
    ensures KeepAll(ms, Broken([])) == Broken(ms)
  {
  }
}
