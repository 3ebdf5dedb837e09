/**
 Messages as bytes on a stream, and the loops that write and read them in pieces. A write or a
 read moves any positive number of bytes up to what was asked for, or fails.

 Headers are the C structs as they lie in memory: 4 bytes of operation code, 33 of sender and
 3 of padding; 33 of receiver, 3 of padding and 4 of length. The header loops of the source
 advance a pointer to a struct by a number of bytes, which moves it by that many structs; what one
 unit is worth is the parameter `stride`. The loops for bodies advance a byte pointer.
 */
module Wire {
  import opened Prelude

  type byte = x: int | 0 <= x < 256
  type u32 = x: int | 0 <= x < 0x1_0000_0000

  const HEADER_SIZE: nat := 40
  const DATA_HEADER_SIZE: nat := 40
  const MAX_BODY: nat := 13107200

  type NameField = s: seq<byte> | |s| == 33 witness seq(33, _ => 0)

  datatype Header = Header(op: u32, sender: NameField)
  datatype Data = Data(receiver: NameField, body: seq<byte>)
  datatype Message = Message(hdr: Header, data: Data)

  const ERROR_CONNECTION := -1
  const CLOSED_CONNECTION := 0

  // ---------------------------------------------------------------- encoding

  function Le32(x: u32): (r: seq<byte>)
    ensures |r| == 4
  {
    [x % 256, x / 256 % 256, x / 65536 % 256, x / 16777216]
  }

  function FromLe32(b: seq<byte>): u32
    requires |b| == 4
  {
    var b0: int, b1: int, b2: int, b3: int := b[0], b[1], b[2], b[3];
    b0 + 256 * b1 + 65536 * b2 + 16777216 * b3
  }

  lemma Le32RoundTrip(x: u32)
    ensures FromLe32(Le32(x)) == x
  {
    var q1, q2, q3 := x / 256, x / 65536, x / 16777216;
    assert q2 == q1 / 256 && q3 == q2 / 256;
    assert x == 256 * q1 + x % 256 && q1 == 256 * q2 + q1 % 256 && q2 == 256 * q3 + q2 % 256;
  }

  function EncodeHeader(h: Header): (r: seq<byte>)
    ensures |r| == HEADER_SIZE
  {
    Le32(h.op) + h.sender + [0, 0, 0]
  }

  function DecodeHeader(b: seq<byte>): Header
    requires |b| == HEADER_SIZE
  {
    Header(FromLe32(b[..4]), b[4..37])
  }

  function EncodeDataHeader(receiver: NameField, len: u32): (r: seq<byte>)
    ensures |r| == DATA_HEADER_SIZE
  {
    receiver + [0, 0, 0] + Le32(len)
  }

  function DecodeReceiver(b: seq<byte>): NameField
    requires |b| == DATA_HEADER_SIZE
  {
    b[..33]
  }

  function DecodeLength(b: seq<byte>): u32
    requires |b| == DATA_HEADER_SIZE
  {
    FromLe32(b[36..])
  }

  /** A body's length must fit the unsigned 32-bit field. */
  predicate Sendable(d: Data) {
    |d.body| < 0x1_0000_0000
  }

  function EncodeData(d: Data): (r: seq<byte>)
    requires Sendable(d)
    ensures |r| == DATA_HEADER_SIZE + |d.body|
  {
    EncodeDataHeader(d.receiver, |d.body|) + d.body
  }

  function EncodeMessage(m: Message): seq<byte>
    requires Sendable(m.data)
  {
    EncodeHeader(m.hdr) + EncodeData(m.data)
  }

  lemma HeaderRoundTrip(h: Header, rest: seq<byte>)
    ensures DecodeHeader((EncodeHeader(h) + rest)[..HEADER_SIZE]) == h
    ensures (EncodeHeader(h) + rest)[HEADER_SIZE..] == rest
  {
    var b := EncodeHeader(h);
    assert (b + rest)[..HEADER_SIZE] == b;
    assert b[..4] == Le32(h.op) && b[4..37] == h.sender;
    Le32RoundTrip(h.op);
  }

  lemma DataHeaderRoundTrip(receiver: NameField, len: u32, rest: seq<byte>)
    ensures DecodeReceiver((EncodeDataHeader(receiver, len) + rest)[..DATA_HEADER_SIZE]) == receiver
    ensures DecodeLength((EncodeDataHeader(receiver, len) + rest)[..DATA_HEADER_SIZE]) == len
    ensures (EncodeDataHeader(receiver, len) + rest)[DATA_HEADER_SIZE..] == rest
  {
    var b := EncodeDataHeader(receiver, len);
    assert (b + rest)[..DATA_HEADER_SIZE] == b;
    assert b[..33] == receiver && b[36..] == Le32(len);
    Le32RoundTrip(len);
  }

  /** How the structs lie in memory: the code and the length least significant byte first, the names at
      their offsets, zeroes in the padding. */
  lemma Layout(h: Header, receiver: NameField, len: u32)
    ensures var b, d := EncodeHeader(h), EncodeDataHeader(receiver, len);
      && b[0] as int + 256 * b[1] as int + 65536 * b[2] as int + 16777216 * b[3] as int == h.op
      && d[36] as int + 256 * d[37] as int + 65536 * d[38] as int + 16777216 * d[39] as int == len
      && (forall i :: 0 <= i < 33 ==> b[4 + i] == h.sender[i] && d[i] == receiver[i])
      && b[37] == b[38] == b[39] == 0 && d[33] == d[34] == d[35] == 0
  {
    Le32RoundTrip(h.op);
    Le32RoundTrip(len);
  }

  // ---------------------------------------------------------------- parsing

  /** What a reader makes of the bytes on a stream that will carry nothing more. */
  datatype Parsed<T> = Got(value: T, rest: seq<byte>) | TooLong | Closed

  function ParseHeader(b: seq<byte>): Parsed<Header> {
    if |b| < HEADER_SIZE then Closed else Got(DecodeHeader(b[..HEADER_SIZE]), b[HEADER_SIZE..])
  }

  function ParseData(b: seq<byte>): Parsed<Data> {
    if |b| < DATA_HEADER_SIZE then Closed else
      var receiver, len := DecodeReceiver(b[..DATA_HEADER_SIZE]), DecodeLength(b[..DATA_HEADER_SIZE]);
      var tail := b[DATA_HEADER_SIZE..];
      if len > MAX_BODY then TooLong
      else if |tail| < len then Closed
      else Got(Data(receiver, tail[..len]), tail[len..])
  }

  function ParseMessage(b: seq<byte>): Parsed<Message> {
    match ParseHeader(b)
    case Got(hdr, tail) =>
      (match ParseData(tail)
       case Got(data, rest) => Got(Message(hdr, data), rest)
       case TooLong => TooLong
       case Closed => Closed)
    case _ => Closed
  }

  /** Data comes back unchanged, and what follows it is left alone, exactly when its length is
      within the limit. */
  lemma DataRoundTrip(d: Data, rest: seq<byte>)
    requires Sendable(d)
    ensures ParseData(EncodeData(d) + rest) == if |d.body| <= 13107200 then Got(d, rest) else TooLong
  {
    var head := EncodeDataHeader(d.receiver, |d.body|);
    assert EncodeData(d) + rest == head + (d.body + rest);
    DataHeaderRoundTrip(d.receiver, |d.body|, d.body + rest);
    assert (d.body + rest)[..|d.body|] == d.body && (d.body + rest)[|d.body|..] == rest;
  }

  lemma MessageRoundTrip(m: Message, rest: seq<byte>)
    requires Sendable(m.data)
    ensures ParseMessage(EncodeMessage(m) + rest) ==
            if |m.data.body| <= MAX_BODY then Got(m, rest) else TooLong
  {
    assert EncodeMessage(m) + rest == EncodeHeader(m.hdr) + (EncodeData(m.data) + rest);
    HeaderRoundTrip(m.hdr, EncodeData(m.data) + rest);
    DataRoundTrip(m.data, rest);
  }

  // ---------------------------------------------------------------- header loops over raw memory

  /** The pointer the header loops mean to have, and the one they have. */
  const BYTE_STRIDE: nat := 1
  const STRUCT_STRIDE: nat := 40

  /** Memory from the start of a header on: the header, and whatever lies behind it. */
  function Cell(head: seq<byte>, behind: nat -> byte, k: nat): byte {
    if k < |head| then head[k] else behind(k)
  }

  function Slice(head: seq<byte>, behind: nat -> byte, at: nat, n: nat): (r: seq<byte>)
    ensures |r| == n && forall i :: 0 <= i < n ==> r[i] == Cell(head, behind, at + i)
  {
    seq<byte>(n, i requires 0 <= i < n => Cell(head, behind, at + i))
  }

  function Taken(sizes: seq<nat>): nat {
    if sizes == [] then 0 else Taken(sizes[..|sizes| - 1]) + sizes[|sizes| - 1]
  }

  predicate Positive(sizes: seq<nat>) {
    forall i :: 0 <= i < |sizes| ==> sizes[i] > 0
  }

  /** What a header loop writes when the system takes pieces of these sizes. */
  function Written(head: seq<byte>, behind: nat -> byte, stride: nat, sizes: seq<nat>): (r: seq<byte>)
    ensures |r| == Taken(sizes)
  {
    if sizes == [] then [] else
      var front := sizes[..|sizes| - 1];
      Written(head, behind, stride, front) + Slice(head, behind, stride * Taken(front), sizes[|sizes| - 1])
  }

  /** The bytes of a list of pieces. */
  function Flat(pieces: seq<seq<byte>>): seq<byte> {
    if pieces == [] then [] else Flat(pieces[..|pieces| - 1]) + pieces[|pieces| - 1]
  }

  function Overwrite(head: seq<byte>, at: nat, piece: seq<byte>): (r: seq<byte>)
    ensures |r| == |head|
    ensures forall i :: 0 <= i < |r| ==> r[i] == if at <= i < at + |piece| then piece[i - at] else head[i]
  {
    seq(|head|, i requires 0 <= i < |head| => if at <= i < at + |piece| then piece[i - at] else head[i])
  }

  /** What a header holds when a header loop has read these pieces into it; what falls behind it is
      not part of it. */
  function Received(head: seq<byte>, stride: nat, pieces: seq<seq<byte>>): (r: seq<byte>)
    ensures |r| == |head|
  {
    if pieces == [] then head else
      var front := pieces[..|pieces| - 1];
      Overwrite(Received(head, stride, front), stride * |Flat(front)|, pieces[|pieces| - 1])
  }

  lemma {:induction false} ByteStrideWrites(head: seq<byte>, behind: nat -> byte, sizes: seq<nat>)
    requires Taken(sizes) <= |head|
    ensures Written(head, behind, BYTE_STRIDE, sizes) == head[..Taken(sizes)]
  {
    if sizes != [] {
      ByteStrideWrites(head, behind, sizes[..|sizes| - 1]);
    }
  }

  lemma {:induction false} ByteStrideReads(head: seq<byte>, pieces: seq<seq<byte>>)
    requires |Flat(pieces)| <= |head|
    ensures Received(head, BYTE_STRIDE, pieces) == Flat(pieces) + head[|Flat(pieces)|..]
  {
    if pieces != [] {
      ByteStrideReads(head, pieces[..|pieces| - 1]);
    }
  }

  lemma {:induction false} FirstsAreTaken(sizes: seq<nat>, j: nat)
    requires j <= |sizes|
    ensures Taken(sizes[..j]) <= Taken(sizes)
    ensures Positive(sizes) && j < |sizes| ==> Taken(sizes[..j]) < Taken(sizes)
  {
    if j < |sizes| {
      FirstsAreTaken(sizes[..|sizes| - 1], j);
      assert sizes[..|sizes| - 1][..j] == sizes[..j];
    } else {
      assert sizes[..j] == sizes;
    }
  }

  lemma {:induction false} FirstsAreWritten(head: seq<byte>, behind: nat -> byte, stride: nat, sizes: seq<nat>, j: nat)
    requires j <= |sizes|
    ensures Written(head, behind, stride, sizes[..j]) <= Written(head, behind, stride, sizes)
  {
    if j < |sizes| {
      FirstsAreWritten(head, behind, stride, sizes[..|sizes| - 1], j);
      assert sizes[..|sizes| - 1][..j] == sizes[..j];
    } else {
      assert sizes[..j] == sizes;
    }
  }

  /** With two pieces or more, the byte after the first piece comes from behind the header. */
  lemma SecondPieceIsForeign(head: seq<byte>, behind: nat -> byte, sizes: seq<nat>)
    requires |head| == STRUCT_STRIDE && |sizes| >= 2 && Positive(sizes) && Taken(sizes) == |head|
    ensures sizes[0] < |head|
    ensures Written(head, behind, STRUCT_STRIDE, sizes)[sizes[0]] == behind(STRUCT_STRIDE * sizes[0])
  {
    FirstsAreTaken(sizes, 1);
    TakenOfOne(sizes);
    FirstsAreWritten(head, behind, STRUCT_STRIDE, sizes, 2);
    assert sizes[..2] == [sizes[0], sizes[1]];
    TwoPieces(head, behind, sizes[0], sizes[1]);
  }

  lemma TakenOfOne(sizes: seq<nat>)
    requires |sizes| >= 1
    ensures Taken(sizes[..1]) == sizes[0]
  {
    assert sizes[..1][..0] == [];
  }

  lemma TwoPieces(head: seq<byte>, behind: nat -> byte, m: nat, n: nat)
    requires |head| == STRUCT_STRIDE && m > 0 && n > 0
    ensures |Written(head, behind, STRUCT_STRIDE, [m, n])| > m
    ensures Written(head, behind, STRUCT_STRIDE, [m, n])[m] == behind(STRUCT_STRIDE * m)
  {
    assert [m, n][..1] == [m] && [m][..0] == [];
    assert Taken([m]) == m;
    var second := Slice(head, behind, STRUCT_STRIDE * m, n);
    assert Written(head, behind, STRUCT_STRIDE, [m, n]) == Written(head, behind, STRUCT_STRIDE, [m]) + second;
    assert second[0] == Cell(head, behind, STRUCT_STRIDE * m);
  }

  lemma ManyPiecesFail(head: seq<byte>, sizes: seq<nat>) returns (behind: nat -> byte)
    requires |head| == STRUCT_STRIDE && |sizes| >= 2 && Positive(sizes) && Taken(sizes) == |head|
    ensures Written(head, behind, STRUCT_STRIDE, sizes) != head
  {
    FirstsAreTaken(sizes, 1);
    TakenOfOne(sizes);
    var other: byte := if head[sizes[0]] == 0 then 1 else 0;
    behind := _ => other;
    SecondPieceIsForeign(head, behind, sizes);
  }

  /** With the pointer the code has, a header is written as it is, whatever lies behind it in
      memory, exactly if the system takes it in one piece. */
  lemma StructStrideWritesIff(head: seq<byte>, sizes: seq<nat>)
    requires |head| == STRUCT_STRIDE && Positive(sizes) && Taken(sizes) == |head|
    ensures (forall behind: nat -> byte :: Written(head, behind, STRUCT_STRIDE, sizes) == head) <==> |sizes| == 1
  {
    if |sizes| >= 2 {
      var behind := ManyPiecesFail(head, sizes);
    } else {
      assert sizes[..0] == [];
      forall behind: nat -> byte ensures Written(head, behind, STRUCT_STRIDE, sizes) == head {
        OnePieceWrites(head, behind, STRUCT_STRIDE, sizes);
      }
    }
  }

  lemma WrittenSnoc(head: seq<byte>, behind: nat -> byte, stride: nat, sizes: seq<nat>, n: nat, asked: nat)
    requires n <= asked
    ensures Taken(sizes + [n]) == Taken(sizes) + n
    ensures Written(head, behind, stride, sizes + [n]) ==
            Written(head, behind, stride, sizes) + Slice(head, behind, stride * Taken(sizes), asked)[..n]
  {
    assert (sizes + [n])[..|sizes|] == sizes;
    var at := stride * Taken(sizes);
    assert Slice(head, behind, at, asked)[..n] == Slice(head, behind, at, n);
  }

  lemma ReceivedSnoc(head: seq<byte>, stride: nat, pieces: seq<seq<byte>>, piece: seq<byte>)
    ensures Flat(pieces + [piece]) == Flat(pieces) + piece
    ensures Received(head, stride, pieces + [piece]) ==
            Overwrite(Received(head, stride, pieces), stride * |Flat(pieces)|, piece)
  {
    assert (pieces + [piece])[..|pieces|] == pieces;
  }

  lemma OnePieceWrites(head: seq<byte>, behind: nat -> byte, stride: nat, sizes: seq<nat>)
    requires |sizes| == 1 && sizes[0] == |head|
    ensures Written(head, behind, stride, sizes) == head
  {
    assert sizes[..0] == [] && Taken([]) == 0 && stride * 0 == 0;
    assert Slice(head, behind, 0, |head|) == head;
  }

  lemma OnePieceReads(head: seq<byte>, stride: nat, pieces: seq<seq<byte>>)
    requires |pieces| == 1 && |pieces[0]| == |head|
    ensures Received(head, stride, pieces) == pieces[0] == Flat(pieces)
  {
    assert pieces[..0] == [] && Flat([]) == [] && stride * 0 == 0;
  }

  /** The intended pointer, or at most one piece: what is written is what stands at the start. */
  lemma SoundWrites(head: seq<byte>, behind: nat -> byte, stride: nat, whole: bool, sizes: seq<nat>)
    requires Taken(sizes) <= |head|
    requires whole ==> |sizes| == if Taken(sizes) == |head| then 1 else 0
    ensures stride == BYTE_STRIDE || whole ==> Written(head, behind, stride, sizes) == head[..Taken(sizes)]
  {
    if stride == BYTE_STRIDE {
      ByteStrideWrites(head, behind, sizes);
    } else if whole && |sizes| == 1 {
      assert sizes[..0] == [];
      OnePieceWrites(head, behind, stride, sizes);
    }
  }

  /** The same for reading: what has been read is what the header holds. */
  lemma SoundReads(head: seq<byte>, stride: nat, whole: bool, pieces: seq<seq<byte>>)
    requires |Flat(pieces)| == |head| && (whole ==> |pieces| == 1)
    ensures stride == BYTE_STRIDE || whole ==> Received(head, stride, pieces) == Flat(pieces)
  {
    if stride == BYTE_STRIDE {
      ByteStrideReads(head, pieces);
    } else if whole {
      assert pieces[..0] == [];
      OnePieceReads(head, stride, pieces);
    }
  }

  predicate NonEmpty(pieces: seq<seq<byte>>) {
    forall i :: 0 <= i < |pieces| ==> pieces[i] != []
  }

  /** After the first piece nothing more reaches the header. */
  lemma {:induction false} LaterPiecesMiss(head: seq<byte>, pieces: seq<seq<byte>>)
    requires |head| == STRUCT_STRIDE && |pieces| >= 1 && NonEmpty(pieces)
    ensures pieces[0] <= Flat(pieces)
    ensures Received(head, STRUCT_STRIDE, pieces) == Received(head, STRUCT_STRIDE, pieces[..1])
  {
    if |pieces| == 1 {
      assert pieces[..1] == pieces && pieces[..0] == [];
    } else {
      var front := pieces[..|pieces| - 1];
      LaterPiecesMiss(head, front);
      assert front[..1] == pieces[..1];
    }
  }

  lemma FirstPieceLands(head: seq<byte>, pieces: seq<seq<byte>>)
    requires |pieces| >= 1
    ensures Received(head, STRUCT_STRIDE, pieces[..1]) == Overwrite(head, 0, pieces[0])
  {
    assert pieces[..1][..0] == [] && |Flat([])| == 0;
  }

  /** With the pointer the code has, a header is read as it was sent, whatever it held before,
      exactly if it arrives in one piece. */
  lemma StructStrideReadsIff(pieces: seq<seq<byte>>)
    requires NonEmpty(pieces) && |Flat(pieces)| == STRUCT_STRIDE
    ensures (forall head: seq<byte> :: |head| == STRUCT_STRIDE ==>
              Received(head, STRUCT_STRIDE, pieces) == Flat(pieces))
            <==> |pieces| == 1
  {
    if |pieces| == 1 {
      assert pieces[..0] == [];
      forall head: seq<byte> | |head| == STRUCT_STRIDE ensures Received(head, STRUCT_STRIDE, pieces) == Flat(pieces) {
        OnePieceReads(head, STRUCT_STRIDE, pieces);
      }
    } else {
      var n := FirstIsShorter(pieces);
      var other: byte := if Flat(pieces)[n] == 0 then 1 else 0;
      var head: seq<byte> := seq(STRUCT_STRIDE, _ => other);
      LaterPiecesMiss(head, pieces);
      FirstPieceLands(head, pieces);
      assert Received(head, STRUCT_STRIDE, pieces)[n] == other;
    }
  }

  lemma FirstIsShorter(pieces: seq<seq<byte>>) returns (n: nat)
    requires NonEmpty(pieces) && |pieces| >= 2
    ensures n == |pieces[0]| < |Flat(pieces)|
  {
    n := |pieces[0]|;
    var front := pieces[..|pieces| - 1];
    LaterPiecesMiss(seq(STRUCT_STRIDE, _ => 0), front);
    assert front[0] == pieces[0];
  }

  // ---------------------------------------------------------------- the loops

  /** Only a proper part of the data has got onto the stream. */
  ghost predicate BrokenOff(before: seq<byte>, after: seq<byte>, data: seq<byte>) {
    exists k :: 0 <= k < |data| && after == before + data[..k]
  }

  lemma BrokenInFirst(before: seq<byte>, after: seq<byte>, first: seq<byte>, second: seq<byte>)
    requires BrokenOff(before, after, first)
    ensures BrokenOff(before, after, first + second)
  {
    var k :| 0 <= k < |first| && after == before + first[..k];
    assert (first + second)[..k] == first[..k];
  }

  lemma StopsEarly(before: seq<byte>, after: seq<byte>, data: seq<byte>, k: nat)
    requires k < |data|
    ensures after == before + data[..k] ==> BrokenOff(before, after, data)
  {
  }

  lemma BrokenInSecond(before: seq<byte>, after: seq<byte>, first: seq<byte>, second: seq<byte>)
    requires BrokenOff(before + first, after, second)
    ensures BrokenOff(before, after, first + second)
  {
    var k :| 0 <= k < |second| && after == before + first + second[..k];
    assert (first + second)[..|first| + k] == first + second[..k];
    assert after == before + (first + second)[..|first| + k];
  }

  lemma BrokenBetween(before: seq<byte>, first: seq<byte>, second: seq<byte>)
    requires second != []
    ensures BrokenOff(before, before + first, first + second)
  {
    assert (first + second)[..|first|] == first;
  }

  lemma NothingOf(before: seq<byte>, data: seq<byte>)
    requires data != []
    ensures BrokenOff(before, before, data)
  {
    assert data[..0] == [];
  }

  /** What a reliable connection carries after a message has been sent on it: an over-long body is
      noticed only when both headers have gone out. */
  function OnStream(m: Message): seq<byte>
    requires Sendable(m.data)
  {
    if |m.data.body| <= MAX_BODY then EncodeMessage(m)
    else EncodeHeader(m.hdr) + EncodeDataHeader(m.data.receiver, |m.data.body|)
  }

  /** A receiver takes a message from what was sent exactly if the body is within the limit, whatever
      follows; otherwise it is refused. */
  lemma OnStreamReads(m: Message, more: seq<byte>)
    requires Sendable(m.data)
    ensures ParseMessage(OnStream(m) + more) == if |m.data.body| <= MAX_BODY then Got(m, more) else TooLong
  {
    if |m.data.body| <= MAX_BODY {
      MessageRoundTrip(m, more);
    } else {
      var second := EncodeDataHeader(m.data.receiver, |m.data.body|);
      assert OnStream(m) + more == EncodeHeader(m.hdr) + (second + more);
      HeaderRoundTrip(m.hdr, second + more);
      DataHeaderRoundTrip(m.data.receiver, |m.data.body|, more);
    }
  }

  /** What the second half of a send makes of the stream. */
  lemma SecondHalf(before: seq<byte>, mid: seq<byte>, after: seq<byte>, m: Message, sent: bool, reliable: bool)
    requires Sendable(m.data) && mid == before + EncodeHeader(m.hdr)
    requires if sent then after == mid + EncodeData(m.data) else BrokenOff(mid, after, EncodeData(m.data))
    requires reliable && !sent ==> after == mid + EncodeDataHeader(m.data.receiver, |m.data.body|)
    requires reliable ==> (sent <==> |m.data.body| <= MAX_BODY)
    ensures if sent then after == before + EncodeMessage(m) else BrokenOff(before, after, EncodeMessage(m))
    ensures reliable ==> after == before + OnStream(m)
  {
    if sent {
      Regroup(before, EncodeHeader(m.hdr), EncodeData(m.data));
    } else {
      BrokenInSecond(before, after, EncodeHeader(m.hdr), EncodeData(m.data));
      Regroup(before, EncodeHeader(m.hdr), EncodeDataHeader(m.data.receiver, |m.data.body|));
    }
  }

  lemma Regroup(a: seq<byte>, b: seq<byte>, c: seq<byte>)
    ensures (a + b) + c == a + (b + c)
  {
  }

  /** One end of a connection. A reliable socket never fails while the peer is there. On a socket
      with whole headers the system moves what fits into a header in one piece. */
  class Socket {
    var inbox: seq<byte>    // written by the peer and not yet read
    var outbox: seq<byte>   // written here
    const reliable: bool
    const whole: bool
    const stride: nat           // of the header loops
    const behind: nat -> byte   // memory behind a header, and what a header holds before it is read

    constructor (inbox: seq<byte>, reliable: bool, whole: bool, stride: nat, behind: nat -> byte)
      ensures this.inbox == inbox && this.outbox == [] && this.reliable == reliable
      ensures this.whole == whole && this.stride == stride && this.behind == behind
    {
      this.inbox := inbox;
      this.outbox := [];
      this.reliable := reliable;
      this.whole := whole;
      this.stride := stride;
      this.behind := behind;
    }

    /** Headers are moved as they are: the pointer is the intended one, or there is one piece. */
    predicate Sound() {
      stride == BYTE_STRIDE || whole
    }

    /** The system call: any number of bytes from 1 up, or a failure. */
    method Write(data: seq<byte>) returns (n: int)
      requires data != []
      modifies this`outbox
      ensures -1 <= n <= |data| && (reliable ==> n > 0)
      ensures whole && |data| <= HEADER_SIZE ==> n <= 0 || n == |data|
      ensures outbox == old(outbox) + data[..if n > 0 then n else 0]
    {
      n :| -1 <= n <= |data| && (reliable ==> n > 0) && (whole && |data| <= HEADER_SIZE ==> n <= 0 || n == |data|);
      if n > 0 {
        outbox := outbox + data[..n];
      }
    }

    /** The system call: any number of bytes from 1 up to what is there, or a failure; 0 when the
        peer has closed and nothing is left. */
    method Read(max: nat) returns (n: int, data: seq<byte>)
      requires max > 0
      modifies this`inbox
      ensures -1 <= n <= max && n <= |old(inbox)|
      ensures reliable ==> (n > 0 <==> old(inbox) != []) && n >= 0
      ensures whole && max <= HEADER_SIZE ==> n <= 0 || n == max || n == |old(inbox)|
      ensures data == old(inbox)[..if n > 0 then n else 0]
      ensures inbox == old(inbox)[if n > 0 then n else 0..]
    {
      n := -1;
      var most := if max < |inbox| then max else |inbox|;
      if reliable {
        n := most;
        if inbox != [] && !(whole && max <= HEADER_SIZE) {
          n :| 0 < n <= most;
        }
      } else {
        n :| -1 <= n <= most && (whole && max <= HEADER_SIZE ==> n <= 0 || n == most);
      }
      data := [];
      if n > 0 {
        data := inbox[..n];
        inbox := inbox[n..];
      }
    }

    ghost predicate HeaderWritten(before: seq<byte>, after: seq<byte>, head: seq<byte>) {
      exists sizes :: Positive(sizes) && Taken(sizes) == |head|
                      && after == before + Written(head, behind, stride, sizes)
    }

    /** A failing header loop has written only a part. */
    ghost predicate HeaderBegun(before: seq<byte>, after: seq<byte>, head: seq<byte>) {
      exists sizes :: Positive(sizes) && Taken(sizes) < |head|
                      && after == before + Written(head, behind, stride, sizes)
    }

    /** One write of what is left of a header, from where the pointer has got to. */
    method WritePiece(head: seq<byte>, pos: nat, remaining: nat, ghost sizes: seq<nat>) returns (n: int)
      requires 0 < remaining <= HEADER_SIZE && pos == Taken(sizes)
      modifies this`outbox
      ensures -1 <= n <= remaining && (reliable ==> n > 0) && (whole ==> n <= 0 || n == remaining)
      ensures n <= 0 ==> outbox == old(outbox)
      ensures n > 0 ==> Taken(sizes + [n]) == pos + n
      ensures n > 0 ==> forall before :: old(outbox) == before + Written(head, behind, stride, sizes) ==>
        outbox == before + Written(head, behind, stride, sizes + [n])
    {
      n := Write(Slice(head, behind, stride * pos, remaining));
      if n > 0 {
        WrittenSnoc(head, behind, stride, sizes, n, remaining);
      }
    }

    /** The loop of `sendHeader`, and of `sendData` for its header: each further piece is taken from
        where the pointer has got to. */
    method WritePieces(head: seq<byte>) returns (ret: int, ghost sizes: seq<nat>)
      requires head != [] && |head| <= HEADER_SIZE
      modifies this`outbox
      ensures ret == 1 || ret == CLOSED_CONNECTION || ret == ERROR_CONNECTION
      ensures reliable ==> ret == 1
      ensures outbox == old(outbox) + Written(head, behind, stride, sizes)
      ensures Positive(sizes) && Taken(sizes) <= |head| && (ret == 1 <==> Taken(sizes) == |head|)
      ensures whole ==> |sizes| == if ret == 1 then 1 else 0
    {
      var pos, remaining := 0, |head|;
      sizes := [];
      while remaining > 0
        invariant pos == Taken(sizes) && remaining == |head| - pos >= 0 && Positive(sizes)
        invariant outbox == old(outbox) + Written(head, behind, stride, sizes)
        invariant whole ==> |sizes| == if remaining == 0 then 1 else 0
        decreases remaining
      {
        var n := WritePiece(head, pos, remaining, sizes);
        if n <= 0 {
          return if n == -1 then ERROR_CONNECTION else CLOSED_CONNECTION, sizes;
        }
        sizes := sizes + [n];
        pos := pos + n;
        remaining := remaining - n;
      }
      return 1, sizes;
    }

    method WriteHeader(head: seq<byte>) returns (ret: int)
      requires head != [] && |head| <= HEADER_SIZE
      modifies this`outbox
      ensures ret == 1 || ret == CLOSED_CONNECTION || ret == ERROR_CONNECTION
      ensures reliable ==> ret == 1
      ensures if ret == 1 then HeaderWritten(old(outbox), outbox, head) else HeaderBegun(old(outbox), outbox, head)
      ensures Sound() && ret == 1 ==> outbox == old(outbox) + head
      ensures Sound() && ret != 1 ==> BrokenOff(old(outbox), outbox, head)
    {
      ghost var sizes;
      ret, sizes := WritePieces(head);
      SoundWrites(head, behind, stride, whole, sizes);
      assert head[..|head|] == head;
      if ret != 1 {
        StopsEarly(old(outbox), outbox, head, Taken(sizes));
      }
    }

    /** What a header holds before anything is read into it. */
    function Unread(): seq<byte> {
      seq(HEADER_SIZE, i requires 0 <= i < HEADER_SIZE => behind(i))
    }

    ghost predicate HeaderReceived(before: seq<byte>, head: seq<byte>) {
      exists pieces :: NonEmpty(pieces) && HEADER_SIZE <= |before| && Flat(pieces) == before[..HEADER_SIZE]
                       && head == Received(Unread(), stride, pieces)
    }

    /** One read of what is missing of a header, to where the pointer has got to. */
    method ReadPiece(head: seq<byte>, pos: nat, remaining: nat, ghost pieces: seq<seq<byte>>)
      returns (n: int, head': seq<byte>, ghost pieces': seq<seq<byte>>)
      requires 0 < remaining <= HEADER_SIZE && NonEmpty(pieces)
      requires pos == |Flat(pieces)| && head == Received(Unread(), stride, pieces)
      modifies this`inbox
      ensures -1 <= n <= remaining && (reliable ==> (n > 0 <==> old(inbox) != []) && n >= 0)
      ensures whole && 0 < n < remaining ==> inbox == []
      ensures n <= 0 ==> inbox == old(inbox) && pieces' == pieces
      ensures n > 0 ==> |pieces'| == |pieces| + 1 && |Flat(pieces')| == pos + n
      ensures Flat(pieces') + inbox == Flat(pieces) + old(inbox)
      ensures NonEmpty(pieces') && head' == Received(Unread(), stride, pieces')
    {
      ghost var before := inbox;
      var piece;
      n, piece := Read(remaining);
      head', pieces' := head, pieces;
      if n > 0 {
        head' := Overwrite(head, stride * pos, piece);
        ReceivedSnoc(Unread(), stride, pieces, piece);
        pieces' := pieces + [piece];
        Regroup(Flat(pieces), piece, inbox);
        assert before == piece + inbox;
      }
    }

    /** The loop of `readHeader`, and of `readData` for its header: each further piece is put where
        the pointer has got to. */
    method ReadPieces() returns (ret: int, head: seq<byte>, ghost pieces: seq<seq<byte>>)
      modifies this`inbox
      ensures ret == 1 || ret == CLOSED_CONNECTION || ret == ERROR_CONNECTION
      ensures reliable ==> (ret == 1 <==> HEADER_SIZE <= |old(inbox)|) && ret != ERROR_CONNECTION
      ensures head == Received(Unread(), stride, pieces) && NonEmpty(pieces)
      ensures Flat(pieces) + inbox == old(inbox) && |Flat(pieces)| <= HEADER_SIZE
      ensures ret == 1 <==> |Flat(pieces)| == HEADER_SIZE
      ensures whole && ret == 1 ==> |pieces| == 1
    {
      head, pieces := Unread(), [];
      var pos, remaining := 0, HEADER_SIZE;
      while remaining > 0
        invariant pos == |Flat(pieces)| && remaining == HEADER_SIZE - pos >= 0
        invariant head == Received(Unread(), stride, pieces) && NonEmpty(pieces)
        invariant Flat(pieces) + inbox == old(inbox)
        invariant whole ==> pieces == [] || (inbox == [] && remaining > 0) || (remaining == 0 && |pieces| == 1)
        decreases remaining
      {
        var n;
        n, head, pieces := ReadPiece(head, pos, remaining, pieces);
        if n <= 0 {
          return if n == -1 then ERROR_CONNECTION else CLOSED_CONNECTION, head, pieces;
        }
        pos := pos + n;
        remaining := remaining - n;
      }
      return 1, head, pieces;
    }

    method ReadHeaderBytes() returns (ret: int, head: seq<byte>)
      modifies this`inbox
      ensures ret == 1 || ret == CLOSED_CONNECTION || ret == ERROR_CONNECTION
      ensures reliable ==> (ret == 1 <==> HEADER_SIZE <= |old(inbox)|) && ret != ERROR_CONNECTION
      ensures |head| == HEADER_SIZE
      ensures ret == 1 ==> HEADER_SIZE <= |old(inbox)| && inbox == old(inbox)[HEADER_SIZE..]
      ensures ret == 1 ==> HeaderReceived(old(inbox), head)
      ensures Sound() && ret == 1 ==> head == old(inbox)[..HEADER_SIZE]
    {
      ghost var pieces;
      ret, head, pieces := ReadPieces();
      if ret == 1 {
        assert Flat(pieces) == old(inbox)[..HEADER_SIZE];
        SoundReads(Unread(), stride, whole, pieces);
      }
    }

    /** The write loop for bodies. Whatever the split into chunks, either
        all of the data has been written, or the call fails with a proper prefix written. */
    method WriteFully(data: seq<byte>) returns (ret: int)
      modifies this`outbox
      ensures ret == 1 || ret == CLOSED_CONNECTION || ret == ERROR_CONNECTION
      ensures reliable ==> ret == 1
      ensures ret == 1 ==> outbox == old(outbox) + data
      ensures ret != 1 ==> BrokenOff(old(outbox), outbox, data)
    {
      var pos := 0;
      var remaining := |data|;
      while true
        invariant 0 <= pos && remaining == |data| - pos >= 0
        invariant outbox == old(outbox) + data[..pos]
        decreases remaining
      {
        if remaining <= 0 {
          break;
        }
        var n := Write(data[pos..]);
        if 0 < n < remaining {
          assert data[..pos] + data[pos..][..n] == data[..pos + n];
          pos := pos + n;
          remaining := remaining - n;
          continue;
        }
        if n == -1 {
          return ERROR_CONNECTION;
        } else if n == 0 {
          return CLOSED_CONNECTION;
        }
        assert data[..pos] + data[pos..][..n] == data;
        return 1;
      }
      assert data[..pos] == data;
      return 1;
    }

    /** The read loop for bodies. Whatever the split into chunks, either exactly `size` bytes have been taken
        from the stream, in order, or the call fails. */
    method ReadFully(size: nat) returns (ret: int, data: seq<byte>)
      modifies this`inbox
      ensures ret == 1 || ret == CLOSED_CONNECTION || ret == ERROR_CONNECTION
      ensures reliable ==> (ret == 1 <==> size <= |old(inbox)|) && ret != ERROR_CONNECTION
      ensures ret == 1 ==> size <= |old(inbox)| && data == old(inbox)[..size] && inbox == old(inbox)[size..]
    {
      data := [];
      var remaining := size;
      while true
        invariant remaining == size - |data| >= 0 && |data| <= |old(inbox)|
        invariant data == old(inbox)[..|data|] && inbox == old(inbox)[|data|..]
        decreases remaining
      {
        if remaining <= 0 {
          break;
        }
        var n, chunk := Read(remaining);
        if 0 < n < remaining {
          data := data + chunk;
          remaining := remaining - n;
          continue;
        }
        if n == -1 {
          return ERROR_CONNECTION, data;
        } else if n == 0 {
          return CLOSED_CONNECTION, data;
        }
        data := data + chunk;
        return 1, data;
      }
      return 1, data;
    }

    method SendHeader(hdr: Header) returns (ret: int)
      modifies this`outbox
      ensures reliable ==> ret > 0
      ensures ret > 0 ==> ret == HEADER_SIZE && HeaderWritten(old(outbox), outbox, EncodeHeader(hdr))
      ensures ret <= 0 ==> HeaderBegun(old(outbox), outbox, EncodeHeader(hdr))
      ensures Sound() && ret > 0 ==> outbox == old(outbox) + EncodeHeader(hdr)
      ensures Sound() && ret <= 0 ==> BrokenOff(old(outbox), outbox, EncodeHeader(hdr))
    {
      ret := WriteHeader(EncodeHeader(hdr));
      if ret == 1 {
        ret := HEADER_SIZE;
      }
    }

    /** Data on the stream: its header as the loop writes it, then the body as it is. */
    ghost predicate DataWritten(before: seq<byte>, after: seq<byte>, d: Data)
      requires Sendable(d)
    {
      exists mid :: HeaderWritten(before, mid, EncodeDataHeader(d.receiver, |d.body|)) && after == mid + d.body
    }

    ghost predicate DataBegun(before: seq<byte>, after: seq<byte>, d: Data)
      requires Sendable(d)
    {
      || HeaderBegun(before, after, EncodeDataHeader(d.receiver, |d.body|))
      || exists mid ::
           HeaderWritten(before, mid, EncodeDataHeader(d.receiver, |d.body|)) && BrokenOff(mid, after, d.body)
    }

    /** The data header goes out before the length is checked, so an over-long body is refused
        with its header already on the stream. */
    method SendData(d: Data) returns (ret: int)
      requires Sendable(d)
      modifies this`outbox
      ensures reliable ==> (ret > 0 <==> |d.body| <= MAX_BODY)
      ensures ret > 0 ==> ret == DATA_HEADER_SIZE + |d.body| && |d.body| <= MAX_BODY
      ensures if ret > 0 then DataWritten(old(outbox), outbox, d) else DataBegun(old(outbox), outbox, d)
      ensures Sound() && ret > 0 ==> outbox == old(outbox) + EncodeData(d)
      ensures Sound() && ret <= 0 ==> BrokenOff(old(outbox), outbox, EncodeData(d))
      ensures Sound() && reliable && ret <= 0 ==> outbox == old(outbox) + EncodeDataHeader(d.receiver, |d.body|)
    {
      var head := EncodeDataHeader(d.receiver, |d.body|);
      ret := WriteHeader(head);
      if ret != 1 {
        if Sound() {
          BrokenInFirst(old(outbox), outbox, head, d.body);
        }
        return;
      }
      if |d.body| == 0 {
        assert EncodeData(d) == head && outbox == outbox + d.body;
        return DATA_HEADER_SIZE;
      }
      if |d.body| > MAX_BODY {
        NothingOf(outbox, d.body);
        BrokenBetween(old(outbox), head, d.body);
        return ERROR_CONNECTION;
      }
      ret := WriteFully(d.body);
      if ret != 1 {
        if Sound() {
          BrokenInSecond(old(outbox), outbox, head, d.body);
        }
        return;
      }
      ret := DATA_HEADER_SIZE + |d.body|;
    }

    ghost predicate MessageWritten(before: seq<byte>, after: seq<byte>, m: Message)
      requires Sendable(m.data)
    {
      exists mid :: HeaderWritten(before, mid, EncodeHeader(m.hdr)) && DataWritten(mid, after, m.data)
    }

    ghost predicate MessageBegun(before: seq<byte>, after: seq<byte>, m: Message)
      requires Sendable(m.data)
    {
      || HeaderBegun(before, after, EncodeHeader(m.hdr))
      || exists mid :: HeaderWritten(before, mid, EncodeHeader(m.hdr)) && DataBegun(mid, after, m.data)
    }

    /** A message goes out as its header and its data; a refused one as its two headers. */
    method SendRequest(m: Message) returns (ret: int)
      requires Sendable(m.data)
      modifies this`outbox
      ensures reliable ==> (ret > 0 <==> |m.data.body| <= MAX_BODY)
      ensures ret > 0 ==> ret == HEADER_SIZE + DATA_HEADER_SIZE + |m.data.body|
      ensures if ret > 0 then MessageWritten(old(outbox), outbox, m) else MessageBegun(old(outbox), outbox, m)
      ensures Sound() && ret > 0 ==> outbox == old(outbox) + EncodeMessage(m)
      ensures Sound() && ret <= 0 ==> BrokenOff(old(outbox), outbox, EncodeMessage(m))
      ensures Sound() && reliable ==> outbox == old(outbox) + OnStream(m)
    {
      var first := SendHeader(m.hdr);
      if first <= 0 {
        if Sound() {
          BrokenInFirst(old(outbox), outbox, EncodeHeader(m.hdr), EncodeData(m.data));
        }
        return first;
      }
      ghost var mid := outbox;
      var second := SendData(m.data);
      if Sound() {
        SecondHalf(old(outbox), mid, outbox, m, second > 0, reliable);
      }
      if second <= 0 {
        return second;
      }
      return first + second;
    }

    ghost predicate HeaderGot(before: seq<byte>, hdr: Header, after: seq<byte>) {
      HEADER_SIZE <= |before| && after == before[HEADER_SIZE..]
      && exists head :: HeaderReceived(before, head) && hdr == DecodeHeader(head)
    }

    method ReadHeader() returns (ret: int, hdr: Header)
      modifies this`inbox
      ensures ret > 0 ==> HeaderGot(old(inbox), hdr, inbox)
      ensures reliable ==> (ret > 0 <==> ParseHeader(old(inbox)).Got?)
      ensures Sound() && ret > 0 ==> ParseHeader(old(inbox)) == Got(hdr, inbox)
    {
      var bytes;
      ret, bytes := ReadHeaderBytes();
      hdr := Header(0, seq(33, _ => 0));
      if ret == 1 {
        ret, hdr := HEADER_SIZE, DecodeHeader(bytes);
      }
    }

    /** Receiver and length are what the loop has put into the header; the body is as many bytes as
        that length says. */
    ghost predicate DataGot(before: seq<byte>, data: Data, after: seq<byte>) {
      && DATA_HEADER_SIZE + |data.body| <= |before|
      && data.body == before[DATA_HEADER_SIZE..][..|data.body|] && after == before[DATA_HEADER_SIZE..][|data.body|..]
      && exists head ::
           HeaderReceived(before, head) && data.receiver == DecodeReceiver(head) && |data.body| == DecodeLength(head)
    }

    /** The header is missing, or the length in it is over the limit or more than there is. */
    ghost predicate DataMissing(before: seq<byte>) {
      || |before| < DATA_HEADER_SIZE
      || exists head :: HeaderReceived(before, head)
                        && (DecodeLength(head) > MAX_BODY || DecodeLength(head) > |before| - DATA_HEADER_SIZE)
    }

    method ReadData() returns (ret: int, data: Data)
      modifies this`inbox
      ensures ret > 0 ==> DataGot(old(inbox), data, inbox) && |data.body| <= MAX_BODY
      ensures reliable && ret <= 0 ==> DataMissing(old(inbox))
      ensures Sound() && ret > 0 ==> ParseData(old(inbox)) == Got(data, inbox)
      ensures Sound() && reliable ==> (ret > 0 <==> ParseData(old(inbox)).Got?)
      ensures Sound() && reliable && ParseData(old(inbox)).TooLong? ==> ret == ERROR_CONNECTION
    {
      var bytes;
      ret, bytes := ReadHeaderBytes();
      data := Data(seq(33, _ => 0), []);
      if ret != 1 {
        return;
      }
      var receiver, len := DecodeReceiver(bytes), DecodeLength(bytes);
      if len == 0 {
        data := Data(receiver, []);
        return HEADER_SIZE, data;
      }
      if len > MAX_BODY {
        return ERROR_CONNECTION, data;
      }
      var body;
      ret, body := ReadFully(len);
      if ret == 1 {
        ret, data := HEADER_SIZE + len, Data(receiver, body);
      }
    }

    /** Reading a message yields what the specification parses from the stream, for every split
        into chunks. */
    method ReadMsg() returns (ret: int, m: Message)
      modifies this`inbox
      ensures ret > 0 ==> exists mid :: HeaderGot(old(inbox), m.hdr, mid) && DataGot(mid, m.data, inbox)
      ensures reliable && ret <= 0 ==> |old(inbox)| < HEADER_SIZE || DataMissing(old(inbox)[HEADER_SIZE..])
      ensures Sound() && ret > 0 ==> ParseMessage(old(inbox)) == Got(m, inbox)
      ensures Sound() && reliable ==> (ret > 0 <==> ParseMessage(old(inbox)).Got?)
    {
      var hdr, data;
      m := Message(Header(0, seq(33, _ => 0)), Data(seq(33, _ => 0), []));
      ret, hdr := ReadHeader();
      if ret <= 0 {
        return;
      }
      var second;
      second, data := ReadData();
      if second <= 0 {
        return second, m;
      }
      ret, m := ret + second, Message(hdr, data);
    }
  }

  /** The whole path: a message sent over a reliable socket in any chunks and read at the other
      end in any chunks arrives as it was, and both ends accept exactly the bodies of up to
      MAX_BODY bytes; with the pointer the code has, if headers go in one piece. */
  method SendAndReceive(m: Message, whole: bool, stride: nat, behind: nat -> byte)
    returns (sent: int, received: int, copy: Message)
    requires Sendable(m.data)
    ensures sent > 0 <==> |m.data.body| <= MAX_BODY
    ensures stride == BYTE_STRIDE || whole ==>
      if sent > 0 then received > 0 && copy == m else received <= 0
  {
    var here := new Socket([], true, whole, stride, behind);
    sent := here.SendRequest(m);
    ghost var stream := here.outbox;
    assert here.Sound() ==> stream == OnStream(m) + [];
    var there := new Socket(here.outbox, true, whole, stride, behind);
    received, copy := there.ReadMsg();
    OnStreamReads(m, []);
  }

  /** No proper prefix of an encoded message parses as a message. */
  lemma TruncatedIsRefused(m: Message, k: nat)
    requires Sendable(m.data) && k < |EncodeMessage(m)|
    ensures !ParseMessage(EncodeMessage(m)[..k]).Got?
  {
    var whole := EncodeMessage(m);
    if k >= HEADER_SIZE {
      var tail := EncodeData(m.data)[..k - HEADER_SIZE];
      assert whole[..k] == EncodeHeader(m.hdr) + tail;
      HeaderRoundTrip(m.hdr, tail);
      if |tail| >= DATA_HEADER_SIZE {
        var body := m.data.body[..|tail| - DATA_HEADER_SIZE];
        assert tail == EncodeDataHeader(m.data.receiver, |m.data.body|) + body;
        DataHeaderRoundTrip(m.data.receiver, |m.data.body|, body);
      }
    }
  }
}
