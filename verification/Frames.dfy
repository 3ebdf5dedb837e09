/**
 What the write lock is for: the bytes that slaves put on a shared descriptor. `send_message` and
 `send_ack` take the lock, write one frame in any number of pieces, and release the lock. The
 lock is the state machine of WriteLock, step for step; added here are the bytes.

 A write may fail at any point: the source then releases the lock all the same, and what has been
 written of the frame stays on the stream.
 */
module Frames {
  import opened Jobs
  import opened Wire
  import opened Client
  import W = WriteLock

  /** The frame a slave was given, what of it is on the stream already, and what is not. */
  datatype Transfer = Transfer(frame: seq<byte>, sent: seq<byte>, rest: seq<byte>)

  datatype State = State(
    lock: W.Lock,
    current: seq<Transfer>,
    streams: map<int, seq<byte>>,               // the bytes on each descriptor
    begun: map<int, multiset<seq<byte>>>,       // history: the frames that sends were begun with
    released: map<int, seq<Transfer>>)          // history: the sends that have ended, in order

  /** `Finish` is the release, after the last byte or after a failed write. */
  datatype Event =
    | Begin(t: nat, fd: int, frame: seq<byte>)
    | Scan(t: nat)
    | Spurious(t: nat)
    | WriteSome(t: nat, k: nat)
    | Finish(t: nat)

  function Stream(s: State, fd: int): seq<byte> {
    if fd in s.streams then s.streams[fd] else []
  }

  function Begun(s: State, fd: int): multiset<seq<byte>> {
    if fd in s.begun then s.begun[fd] else multiset{}
  }

  function Released(s: State, fd: int): seq<Transfer> {
    if fd in s.released then s.released[fd] else []
  }

  /** The bytes of ended sends, one after the other. */
  function Bytes(sends: seq<Transfer>): seq<byte> {
    if sends == [] then [] else Bytes(sends[..|sends| - 1]) + sends[|sends| - 1].sent
  }

  function FramesOf(sends: seq<Transfer>): (r: seq<seq<byte>>)
    ensures |r| == |sends| && forall i :: 0 <= i < |r| ==> r[i] == sends[i].frame
  {
    seq(|sends|, i requires 0 <= i < |sends| => sends[i].frame)
  }

  function Concat(frames: seq<seq<byte>>): seq<byte> {
    if frames == [] then [] else Concat(frames[..|frames| - 1]) + frames[|frames| - 1]
  }

  predicate SameSize(s: State) {
    |s.current| == |s.lock.modes| == |s.lock.table|
  }

  ghost predicate Init(s: State) {
    && SameSize(s) && W.Init(s.lock) && s.streams == map[] && s.begun == map[] && s.released == map[]
    && forall t :: 0 <= t < |s.current| ==> s.current[t] == Transfer([], [], [])
  }

  predicate Enabled(s: State, e: Event) {
    && SameSize(s)
    && match e
       case Begin(t, fd, _) => W.Enabled(s.lock, W.Request(t, fd))
       case Scan(t) => W.Enabled(s.lock, W.Scan(t))
       case Spurious(t) => W.Enabled(s.lock, W.Spurious(t))
       case WriteSome(t, k) => t < |s.current| && s.lock.modes[t].Writing? && 0 < k <= |s.current[t].rest|
       case Finish(t) => W.Enabled(s.lock, W.Release(t))
  }

  function Apply(s: State, e: Event): State
    requires Enabled(s, e)
  {
    match e
    case Begin(t, fd, frame) =>
      s.(lock := W.Apply(s.lock, W.Request(t, fd)), current := s.current[t := Transfer(frame, [], frame)],
         begun := s.begun[fd := Begun(s, fd) + multiset{frame}])
    case Scan(t) => s.(lock := W.Apply(s.lock, W.Scan(t)))
    case Spurious(t) => s.(lock := W.Apply(s.lock, W.Spurious(t)))
    case WriteSome(t, k) =>
      var fd, c := s.lock.modes[t].fd, s.current[t];
      s.(current := s.current[t := c.(sent := c.sent + c.rest[..k], rest := c.rest[k..])],
         streams := s.streams[fd := Stream(s, fd) + c.rest[..k]])
    case Finish(t) =>
      var fd, c := s.lock.modes[t].fd, s.current[t];
      s.(lock := W.Apply(s.lock, W.Release(t)), current := s.current[t := Transfer([], [], [])],
         released := s.released[fd := Released(s, fd) + [c]])
  }

  // ---------------------------------------------------------------- frames: what every run keeps

  /** What is sent and what is left make up the frame. */
  predicate Intact(c: Transfer) {
    c.sent + c.rest == c.frame
  }

  predicate SlaveIntact(m: W.Mode, c: Transfer) {
    Intact(c) && (!m.Writing? ==> c.sent == [])
  }

  /** The frame that slave t is on its way to send on fd. */
  function Mine(m: W.Mode, c: Transfer, fd: int): multiset<seq<byte>> {
    if !m.Free? && m.fd == fd then multiset{c.frame} else multiset{}
  }

  function Mines(s: State, fd: int): (r: seq<multiset<seq<byte>>>)
    requires SameSize(s)
    ensures |r| == |s.current|
    ensures forall t :: 0 <= t < |r| ==> r[t] == Mine(s.lock.modes[t], s.current[t], fd)
  {
    seq(|s.current|, t requires 0 <= t < |s.current| => Mine(s.lock.modes[t], s.current[t], fd))
  }

  function Union(bags: seq<multiset<seq<byte>>>): multiset<seq<byte>> {
    if bags == [] then multiset{} else bags[0] + Union(bags[1..])
  }

  lemma {:induction false} UnionUpdate(bags: seq<multiset<seq<byte>>>, k: nat, x: multiset<seq<byte>>)
    requires k < |bags|
    ensures Union(bags[k := x]) + bags[k] == Union(bags) + x
  {
    if k == 0 {
      assert bags[0 := x][1..] == bags[1..];
    } else {
      var rest := bags[1..];
      UnionUpdate(rest, k - 1, x);
      assert bags[k := x][1..] == rest[k - 1 := x] && rest[k - 1] == bags[k];
      var after := Union(rest[k - 1 := x]);
      calc {
        Union(bags[k := x]) + bags[k];
        (bags[0] + after) + bags[k];
        bags[0] + (after + rest[k - 1]);
        bags[0] + (Union(rest) + x);
        Union(bags) + x;
      }
    }
  }

  lemma {:induction false} EmptyUnion(bags: seq<multiset<seq<byte>>>)
    requires forall i :: 0 <= i < |bags| ==> bags[i] == multiset{}
    ensures Union(bags) == multiset{}
  {
    if bags != [] {
      EmptyUnion(bags[1..]);
    }
  }

  /** Every send begun on fd has ended or is one slave's: none is lost, doubled, or exchanged. */
  ghost predicate Conserved(s: State, fd: int)
    requires SameSize(s)
  {
    Begun(s, fd) == multiset(FramesOf(Released(s, fd))) + Union(Mines(s, fd))
  }

  ghost predicate Kept(s: State, fd: int) {
    && SameSize(s)
    && (forall t :: 0 <= t < |s.current| ==> SlaveIntact(s.lock.modes[t], s.current[t]))
    && (forall i :: 0 <= i < |Released(s, fd)| ==> Intact(Released(s, fd)[i]))
    && Conserved(s, fd)
  }

  /** A step that neither begins nor ends a send on fd. */
  lemma SameMines(s: State, s': State, fd: int)
    requires SameSize(s) && SameSize(s') && |s'.current| == |s.current| && Conserved(s, fd)
    requires Begun(s', fd) == Begun(s, fd) && Released(s', fd) == Released(s, fd)
    requires forall t :: 0 <= t < |s.current| ==>
      Mine(s'.lock.modes[t], s'.current[t], fd) == Mine(s.lock.modes[t], s.current[t], fd)
    ensures Conserved(s', fd)
  {
    assert Mines(s', fd) == Mines(s, fd);
  }

  lemma Gains(begun: multiset<seq<byte>>, ended: multiset<seq<byte>>, mine: multiset<seq<byte>>,
              mine': multiset<seq<byte>>, x: multiset<seq<byte>>)
    requires begun == ended + mine && mine' == mine + x
    ensures begun + x == ended + mine'
  {
  }

  lemma Ends(begun: multiset<seq<byte>>, ended: multiset<seq<byte>>, mine: multiset<seq<byte>>,
             mine': multiset<seq<byte>>, x: multiset<seq<byte>>)
    requires begun == ended + mine && mine' + x == mine
    ensures begun == (ended + x) + mine'
  {
  }

  lemma BeginMines(s: State, t: nat, fd: int, frame: seq<byte>)
    requires Enabled(s, Begin(t, fd, frame))
    ensures SameSize(Apply(s, Begin(t, fd, frame)))
    ensures Mines(Apply(s, Begin(t, fd, frame)), fd) == Mines(s, fd)[t := multiset{frame}]
    ensures Mines(s, fd)[t] == multiset{}
  {
  }

  lemma BeginConserves(s: State, t: nat, fd: int, frame: seq<byte>)
    requires SameSize(s) && Conserved(s, fd) && Enabled(s, Begin(t, fd, frame))
    ensures SameSize(Apply(s, Begin(t, fd, frame))) && Conserved(Apply(s, Begin(t, fd, frame)), fd)
  {
    var s' := Apply(s, Begin(t, fd, frame));
    BeginMines(s, t, fd, frame);
    UnionUpdate(Mines(s, fd), t, multiset{frame});
    assert Union(Mines(s', fd)) + multiset{} == Union(Mines(s', fd));
    var ended := multiset(FramesOf(Released(s, fd)));
    Gains(Begun(s, fd), ended, Union(Mines(s, fd)), Union(Mines(s', fd)), multiset{frame});
    assert Released(s', fd) == Released(s, fd);
  }

  lemma WakeKeepsMine(modes: seq<W.Mode>, u: nat, c: Transfer, fd: int)
    requires u < |modes|
    ensures Mine(W.WakeAll(modes)[u], c, fd) == Mine(modes[u], c, fd)
  {
  }

  lemma FinishMine(s: State, t: nat, fd: int, u: nat)
    requires Enabled(s, Finish(t)) && u < |s.current|
    ensures SameSize(Apply(s, Finish(t))) && |Apply(s, Finish(t)).current| == |s.current|
    ensures Mine(Apply(s, Finish(t)).lock.modes[u], Apply(s, Finish(t)).current[u], fd) ==
            if u == t then multiset{} else Mine(s.lock.modes[u], s.current[u], fd)
  {
    WakeKeepsMine(s.lock.modes, u, s.current[u], fd);
  }

  lemma FinishMines(s: State, t: nat, fd: int)
    requires Enabled(s, Finish(t)) && s.lock.modes[t].fd == fd
    ensures SameSize(Apply(s, Finish(t)))
    ensures Mines(Apply(s, Finish(t)), fd) == Mines(s, fd)[t := multiset{}]
    ensures Mines(s, fd)[t] == multiset{s.current[t].frame}
  {
    var s' := Apply(s, Finish(t));
    forall u | 0 <= u < |s.current|
      ensures Mine(s'.lock.modes[u], s'.current[u], fd) ==
              if u == t then multiset{} else Mine(s.lock.modes[u], s.current[u], fd)
    {
      FinishMine(s, t, fd, u);
    }
  }

  lemma FinishConserves(s: State, t: nat, fd: int)
    requires SameSize(s) && Conserved(s, fd) && Enabled(s, Finish(t)) && s.lock.modes[t].fd == fd
    ensures SameSize(Apply(s, Finish(t))) && Conserved(Apply(s, Finish(t)), fd)
  {
    var s' := Apply(s, Finish(t));
    var f := s.current[t].frame;
    FinishMines(s, t, fd);
    UnionUpdate(Mines(s, fd), t, multiset{});
    assert Union(Mines(s', fd)) + multiset{f} == Union(Mines(s, fd));
    Ends(Begun(s, fd), multiset(FramesOf(Released(s, fd))), Union(Mines(s, fd)), Union(Mines(s', fd)), multiset{f});
    FinishHistory(s, t, fd);
  }

  lemma FinishHistory(s: State, t: nat, fd: int)
    requires Enabled(s, Finish(t)) && s.lock.modes[t].fd == fd
    ensures Begun(Apply(s, Finish(t)), fd) == Begun(s, fd)
    ensures multiset(FramesOf(Released(Apply(s, Finish(t)), fd))) ==
            multiset(FramesOf(Released(s, fd))) + multiset{s.current[t].frame}
  {
    assert FramesOf(Released(Apply(s, Finish(t)), fd)) == FramesOf(Released(s, fd)) + [s.current[t].frame];
  }

  predicate Elsewhere(s: State, e: Event, fd: int)
    requires Enabled(s, e)
  {
    (e.Begin? ==> e.fd != fd) && (e.Finish? ==> s.lock.modes[e.t].fd != fd)
  }

  lemma ScanMine(s: State, u: nat, fd: int, t: nat)
    requires Enabled(s, Scan(u)) && t < |s.current|
    ensures SameSize(Apply(s, Scan(u))) && Apply(s, Scan(u)).current == s.current
    ensures Mine(Apply(s, Scan(u)).lock.modes[t], s.current[t], fd) == Mine(s.lock.modes[t], s.current[t], fd)
  {
  }

  lemma MineStays(s: State, e: Event, fd: int, t: nat)
    requires Enabled(s, e) && Elsewhere(s, e, fd) && t < |s.current|
    ensures SameSize(Apply(s, e)) && |Apply(s, e).current| == |s.current|
    ensures Mine(Apply(s, e).lock.modes[t], Apply(s, e).current[t], fd) == Mine(s.lock.modes[t], s.current[t], fd)
  {
    match e
    case Finish(u) => FinishMine(s, u, fd, t);
    case Begin(_, _, _) =>
    case Scan(u) => ScanMine(s, u, fd, t);
    case Spurious(_) =>
    case WriteSome(_, _) =>
  }

  lemma HistoryStays(s: State, e: Event, fd: int)
    requires Enabled(s, e) && Elsewhere(s, e, fd)
    ensures SameSize(Apply(s, e)) && |Apply(s, e).current| == |s.current|
    ensures Begun(Apply(s, e), fd) == Begun(s, fd) && Released(Apply(s, e), fd) == Released(s, fd)
  {
  }

  /** A send that begins or ends on another descriptor. */
  lemma ElsewhereConserves(s: State, e: Event, fd: int)
    requires SameSize(s) && Conserved(s, fd) && Enabled(s, e) && Elsewhere(s, e, fd)
    ensures SameSize(Apply(s, e)) && Conserved(Apply(s, e), fd)
  {
    HistoryStays(s, e, fd);
    forall t | 0 <= t < |s.current|
      ensures Mine(Apply(s, e).lock.modes[t], Apply(s, e).current[t], fd) == Mine(s.lock.modes[t], s.current[t], fd)
    {
      MineStays(s, e, fd, t);
    }
    SameMines(s, Apply(s, e), fd);
  }

  lemma StepConserves(s: State, e: Event, fd: int)
    requires SameSize(s) && Conserved(s, fd) && Enabled(s, e)
    ensures SameSize(Apply(s, e)) && Conserved(Apply(s, e), fd)
  {
    if e.Begin? && e.fd == fd {
      BeginConserves(s, e.t, fd, e.frame);
    } else if e.Finish? && s.lock.modes[e.t].fd == fd {
      FinishConserves(s, e.t, fd);
    } else {
      ElsewhereConserves(s, e, fd);
    }
  }

  lemma Associate(a: seq<byte>, b: seq<byte>, c: seq<byte>)
    ensures a + (b + c) == (a + b) + c
  {
  }

  lemma StepKeepsSlaves(s: State, e: Event, t: nat)
    requires Enabled(s, e) && t < |s.current| && SlaveIntact(s.lock.modes[t], s.current[t])
    ensures SameSize(Apply(s, e)) && SlaveIntact(Apply(s, e).lock.modes[t], Apply(s, e).current[t])
  {
    if e.WriteSome? && e.t == t {
      var c := s.current[t];
      Associate(c.sent, c.rest[..e.k], c.rest[e.k..]);
      assert c.rest[..e.k] + c.rest[e.k..] == c.rest;
    }
  }

  lemma StepKeepsReleased(s: State, e: Event, fd: int, i: nat)
    requires Enabled(s, e) && i < |Released(Apply(s, e), fd)|
    requires e.Finish? ==> Intact(s.current[e.t])
    requires i < |Released(s, fd)| ==> Intact(Released(s, fd)[i])
    ensures Intact(Released(Apply(s, e), fd)[i])
  {
  }

  lemma StepKeeps(s: State, e: Event, fd: int)
    requires Kept(s, fd) && Enabled(s, e)
    ensures Kept(Apply(s, e), fd)
  {
    StepConserves(s, e, fd);
    forall t | 0 <= t < |s.current|
      ensures SlaveIntact(Apply(s, e).lock.modes[t], Apply(s, e).current[t])
    {
      StepKeepsSlaves(s, e, t);
    }
    forall i | 0 <= i < |Released(Apply(s, e), fd)| ensures Intact(Released(Apply(s, e), fd)[i]) {
      assert e.Finish? ==> SlaveIntact(s.lock.modes[e.t], s.current[e.t]);
      StepKeepsReleased(s, e, fd, i);
    }
  }

  // ---------------------------------------------------------------- streams: one descriptor at a time

  ghost predicate OneWriter(s: State, fd: int) {
    forall t, u | 0 <= t < |s.lock.modes| && 0 <= u < |s.lock.modes| ::
      s.lock.modes[t] == W.Writing(fd) && s.lock.modes[u] == W.Writing(fd) ==> t == u
  }

  ghost predicate Idle(s: State, fd: int) {
    forall t :: 0 <= t < |s.lock.modes| ==> s.lock.modes[t] != W.Writing(fd)
  }

  /** The stream is what the ended sends have written, one send after the other, followed by what
      the one send in progress has written, if there is one. */
  ghost predicate StreamInv(s: State, fd: int)
    requires SameSize(s)
  {
    && (Idle(s, fd) ==> Stream(s, fd) == Bytes(Released(s, fd)))
    && (forall t :: 0 <= t < |s.current| && s.lock.modes[t] == W.Writing(fd) ==>
          Stream(s, fd) == Bytes(Released(s, fd)) + s.current[t].sent)
    && (forall t :: 0 <= t < |s.current| && !s.lock.modes[t].Writing? ==> s.current[t].sent == [])
  }

  ghost predicate Inv(s: State, fd: int) {
    SameSize(s) && W.TableInv(s.lock) && OneWriter(s, fd) && StreamInv(s, fd)
  }

  /** Slave t gains the lock on fd although slave h is writing there: t has waited, and its rescan
      starts behind slot h. With the restart the code has, h is slave 0. */
  predicate BreachBy(s: State, s': State, fd: int, t: nat, h: nat)
    requires SameSize(s) && SameSize(s')
  {
    && t < |s.lock.modes| && t < |s'.lock.modes| && h < |s.lock.modes| && h != t && h < s.lock.restart
    && s.lock.modes[t] == W.Woken(fd) && s.lock.modes[h] == W.Writing(fd) && s'.lock.modes[t] == W.Writing(fd)
  }

  ghost predicate Breach(s: State, s': State, fd: int) {
    SameSize(s) && SameSize(s') && exists t: nat, h: nat :: BreachBy(s, s', fd, t, h)
  }

  lemma BytesSnoc(sends: seq<Transfer>, c: Transfer)
    ensures Bytes(sends + [c]) == Bytes(sends) + c.sent
  {
    assert (sends + [c])[..|sends|] == sends;
  }

  /** A lock step after which the same slaves write, and every slave has sent what it had. */
  lemma QuietLockStep(s: State, s': State, fd: int)
    requires Inv(s, fd) && SameSize(s') && |s'.current| == |s.current| && W.TableInv(s'.lock)
    requires forall u :: 0 <= u < |s.current| ==>
      s'.current[u].sent == s.current[u].sent
      && (s.lock.modes[u].Writing? || s'.lock.modes[u].Writing? ==> s'.lock.modes[u] == s.lock.modes[u])
    requires s'.streams == s.streams && s'.released == s.released
    ensures Inv(s', fd)
  {
    assert Stream(s', fd) == Stream(s, fd) && Released(s', fd) == Released(s, fd);
    forall u | 0 <= u < |s.current|
      ensures s'.lock.modes[u] == W.Writing(fd) <==> s.lock.modes[u] == W.Writing(fd)
    {}
    if Idle(s', fd) {
      assert Idle(s, fd);
    }
  }

  /** A scan that gains the lock on fd while h is writing there has overlooked h. */
  lemma OverlookedIsBreach(s: State, t: nat, fd: int, h: nat)
    requires Inv(s, fd) && Enabled(s, Scan(t)) && Apply(s, Scan(t)).lock.modes[t] == W.Writing(fd)
    requires h < |s.lock.modes| && s.lock.modes[h] == W.Writing(fd)
    ensures BreachBy(s, Apply(s, Scan(t)), fd, t, h)
  {
    W.TakenMeansHeld(s.lock, t, fd, W.ScanStart(s.lock, t));
    assert h < W.ScanStart(s.lock, t);
  }

  lemma GainIdleOrBreach(s: State, t: nat, fd: int)
    requires Inv(s, fd) && Enabled(s, Scan(t)) && Apply(s, Scan(t)).lock.modes[t] == W.Writing(fd)
    ensures Idle(s, fd) || Breach(s, Apply(s, Scan(t)), fd)
  {
    if h :| 0 <= h < |s.lock.modes| && s.lock.modes[h] == W.Writing(fd) {
      OverlookedIsBreach(s, t, fd, h);
    }
  }

  /** A scan that gains the lock on fd without a breach finds fd idle. */
  lemma GainFindsIdle(s: State, t: nat, fd: int)
    requires Inv(s, fd) && Enabled(s, Scan(t)) && !Breach(s, Apply(s, Scan(t)), fd)
    requires Apply(s, Scan(t)).lock.modes[t] == W.Writing(fd)
    ensures Idle(s, fd)
  {
    GainIdleOrBreach(s, t, fd);
  }

  lemma GainKeepsInv(s: State, t: nat, fd: int)
    requires Inv(s, fd) && Enabled(s, Scan(t)) && !Breach(s, Apply(s, Scan(t)), fd)
    requires Apply(s, Scan(t)).lock.modes[t] == W.Writing(fd)
    ensures Inv(Apply(s, Scan(t)), fd)
  {
    GainFindsIdle(s, t, fd);
    assert Stream(Apply(s, Scan(t)), fd) == Bytes(Released(s, fd));
  }

  lemma OtherGainKeepsInv(s: State, t: nat, fd: int)
    requires Inv(s, fd) && Enabled(s, Scan(t))
    requires Apply(s, Scan(t)).lock.modes[t].Writing? && Apply(s, Scan(t)).lock.modes[t] != W.Writing(fd)
    ensures Inv(Apply(s, Scan(t)), fd)
  {
    var s' := Apply(s, Scan(t));
    forall u | 0 <= u < |s.lock.modes|
      ensures s'.lock.modes[u] == W.Writing(fd) <==> s.lock.modes[u] == W.Writing(fd)
    {}
    if Idle(s', fd) {
      assert Idle(s, fd);
    }
  }

  lemma ScanKeepsInv(s: State, t: nat, fd: int)
    requires Inv(s, fd) && Enabled(s, Scan(t)) && !Breach(s, Apply(s, Scan(t)), fd)
    ensures Inv(Apply(s, Scan(t)), fd)
  {
    var mode := Apply(s, Scan(t)).lock.modes[t];
    if !mode.Writing? {
      QuietLockStep(s, Apply(s, Scan(t)), fd);
    } else if mode == W.Writing(fd) {
      GainKeepsInv(s, t, fd);
    } else {
      OtherGainKeepsInv(s, t, fd);
    }
  }

  lemma WriteHere(s: State, t: nat, k: nat)
    requires SameSize(s) && Enabled(s, WriteSome(t, k))
    requires OneWriter(s, s.lock.modes[t].fd) && StreamInv(s, s.lock.modes[t].fd)
    ensures StreamInv(Apply(s, WriteSome(t, k)), s.lock.modes[t].fd)
  {
    var c, fd := s.current[t], s.lock.modes[t].fd;
    Associate(Bytes(Released(s, fd)), c.sent, c.rest[..k]);
    assert Released(Apply(s, WriteSome(t, k)), fd) == Released(s, fd);
  }

  lemma WriteElsewhere(s: State, t: nat, k: nat, fd: int)
    requires SameSize(s) && StreamInv(s, fd) && Enabled(s, WriteSome(t, k)) && s.lock.modes[t].fd != fd
    ensures StreamInv(Apply(s, WriteSome(t, k)), fd)
  {
    var s' := Apply(s, WriteSome(t, k));
    assert Stream(s', fd) == Stream(s, fd) && Released(s', fd) == Released(s, fd);
  }

  lemma WriteKeepsInv(s: State, t: nat, k: nat, fd: int)
    requires Inv(s, fd) && Enabled(s, WriteSome(t, k))
    ensures Inv(Apply(s, WriteSome(t, k)), fd)
  {
    if s.lock.modes[t].fd == fd {
      WriteHere(s, t, k);
    } else {
      WriteElsewhere(s, t, k, fd);
    }
    assert Apply(s, WriteSome(t, k)).lock == s.lock;
  }

  lemma LastPieceKeepsInv(s: State, t: nat, fd: int)
    requires Inv(s, fd) && Enabled(s, Finish(t)) && s.lock.modes[t] == W.Writing(fd)
    ensures Inv(Apply(s, Finish(t)), fd)
  {
    BytesSnoc(Released(s, fd), s.current[t]);
    assert Idle(Apply(s, Finish(t)), fd);
  }

  /** The same slaves write on fd, with the same bytes behind them; whoever does not write has
      nothing sent. */
  ghost predicate SameWriters(s: State, s': State, fd: int)
    requires SameSize(s) && SameSize(s')
  {
    && |s'.current| == |s.current| && Stream(s', fd) == Stream(s, fd) && Released(s', fd) == Released(s, fd)
    && forall u :: 0 <= u < |s.current| ==>
      && (s'.lock.modes[u] == W.Writing(fd) <==> s.lock.modes[u] == W.Writing(fd))
      && (s.lock.modes[u] == W.Writing(fd) ==> s'.current[u].sent == s.current[u].sent)
      && (!s'.lock.modes[u].Writing? ==> s'.current[u].sent == [])
  }

  lemma SameWritersKeepInv(s: State, s': State, fd: int)
    requires Inv(s, fd) && SameSize(s') && W.TableInv(s'.lock) && SameWriters(s, s', fd)
    ensures Inv(s', fd)
  {
    if Idle(s', fd) {
      assert Idle(s, fd);
    }
  }

  lemma OtherFinishIsQuiet(s: State, t: nat, fd: int)
    requires SameSize(s) && StreamInv(s, fd) && Enabled(s, Finish(t)) && s.lock.modes[t] != W.Writing(fd)
    ensures SameSize(Apply(s, Finish(t))) && SameWriters(s, Apply(s, Finish(t)), fd)
  {
  }

  lemma FinishKeepsTable(s: State, t: nat)
    requires SameSize(s) && W.TableInv(s.lock) && Enabled(s, Finish(t))
    ensures W.TableInv(Apply(s, Finish(t)).lock)
  {
  }

  lemma OtherFinishKeepsInv(s: State, t: nat, fd: int)
    requires Inv(s, fd) && Enabled(s, Finish(t)) && s.lock.modes[t] != W.Writing(fd)
    ensures Inv(Apply(s, Finish(t)), fd)
  {
    FinishKeepsTable(s, t);
    OtherFinishIsQuiet(s, t, fd);
    SameWritersKeepInv(s, Apply(s, Finish(t)), fd);
  }

  lemma StepKeepsInv(s: State, e: Event, fd: int)
    requires Inv(s, fd) && Enabled(s, e) && !Breach(s, Apply(s, e), fd)
    ensures Inv(Apply(s, e), fd)
  {
    match e
    case Begin(t, fd', frame) => QuietLockStep(s, Apply(s, e), fd);
    case Spurious(t) => QuietLockStep(s, Apply(s, e), fd);
    case Scan(t) => ScanKeepsInv(s, t, fd);
    case WriteSome(t, k) => WriteKeepsInv(s, t, k, fd);
    case Finish(t) =>
      if s.lock.modes[t] == W.Writing(fd) {
        LastPieceKeepsInv(s, t, fd);
      } else {
        OtherFinishKeepsInv(s, t, fd);
      }
  }

  /** A breach leaves two writers behind. */
  lemma BreachMakesTwo(s: State, e: Event, fd: int)
    requires Enabled(s, e) && Breach(s, Apply(s, e), fd)
    ensures !OneWriter(Apply(s, e), fd)
  {
    var s' := Apply(s, e);
    var t: nat, h: nat :| BreachBy(s, s', fd, t, h);
    assert s'.lock.modes[h] == W.Writing(fd);
  }

  // ---------------------------------------------------------------- runs

  ghost predicate Next(s: State, s': State) {
    exists e: Event :: Enabled(s, e) && s' == Apply(s, e)
  }

  ghost predicate IsRun(run: seq<State>) {
    && |run| > 0 && Init(run[0])
    && forall i :: 0 <= i < |run| - 1 ==> Next(run[i], run[i + 1])
  }

  lemma EventAt(run: seq<State>, i: nat) returns (e: Event)
    requires IsRun(run) && i + 1 < |run|
    ensures Enabled(run[i], e) && run[i + 1] == Apply(run[i], e)
  {
    assert Next(run[i], run[i + 1]);
    e :| Enabled(run[i], e) && run[i + 1] == Apply(run[i], e);
  }

  lemma InitKept(s: State, fd: int)
    requires Init(s)
    ensures Kept(s, fd) && Inv(s, fd)
  {
    EmptyUnion(Mines(s, fd));
  }

  lemma {:induction false} RunKept(run: seq<State>, i: nat, fd: int)
    requires IsRun(run) && i < |run|
    ensures Kept(run[i], fd) && run[i].lock.restart == run[0].lock.restart
  {
    if i == 0 {
      InitKept(run[0], fd);
    } else {
      RunKept(run, i - 1, fd);
      var e := EventAt(run, i - 1);
      StepKeeps(run[i - 1], e, fd);
    }
  }

  /** No scan before state i gains the lock on fd past a writer it overlooks. */
  ghost predicate NoBreach(run: seq<State>, i: nat, fd: int)
    requires i < |run|
  {
    forall j :: 0 <= j < i ==> !Breach(run[j], run[j + 1], fd)
  }

  lemma {:induction false} RunInv(run: seq<State>, i: nat, fd: int)
    requires IsRun(run) && i < |run| && NoBreach(run, i, fd)
    ensures Inv(run[i], fd)
  {
    if i == 0 {
      InitKept(run[0], fd);
    } else {
      RunInv(run, i - 1, fd);
      var e := EventAt(run, i - 1);
      assert !Breach(run[i - 1], run[i - 1 + 1], fd);
      StepKeepsInv(run[i - 1], e, fd);
    }
  }

  /** No write of these sends failed. */
  predicate AllWhole(sends: seq<Transfer>) {
    forall i :: 0 <= i < |sends| ==> sends[i].sent == sends[i].frame
  }

  lemma {:induction false} WholeBytes(sends: seq<Transfer>)
    requires AllWhole(sends)
    ensures Bytes(sends) == Concat(FramesOf(sends))
  {
    if sends != [] {
      WholeBytes(sends[..|sends| - 1]);
      assert FramesOf(sends)[..|sends| - 1] == FramesOf(sends[..|sends| - 1]);
    }
  }

  /** The bytes on fd are the sends begun there, one after the other: each send that has ended has
      written a prefix of its frame, the whole frame unless a write failed, and at most one send is
      under way, with a prefix of its frame written by the holder of the lock. Nothing is begun
      that is not accounted for. */
  ghost predicate Atomic(s: State, fd: int) {
    && SameSize(s) && OneWriter(s, fd)
    && (forall i :: 0 <= i < |Released(s, fd)| ==> Released(s, fd)[i].sent <= Released(s, fd)[i].frame)
    && (Idle(s, fd) ==> Stream(s, fd) == Bytes(Released(s, fd)))
    && (forall t :: 0 <= t < |s.current| && s.lock.modes[t] == W.Writing(fd) ==>
          && s.current[t].sent <= s.current[t].frame && s.current[t].frame in Begun(s, fd)
          && Stream(s, fd) == Bytes(Released(s, fd)) + s.current[t].sent)
    && (AllWhole(Released(s, fd)) ==> Bytes(Released(s, fd)) == Concat(FramesOf(Released(s, fd))))
    && Conserved(s, fd)
  }

  lemma {:induction false} InUnion(bags: seq<multiset<seq<byte>>>, k: nat)
    requires k < |bags|
    ensures bags[k] <= Union(bags)
  {
    if k > 0 {
      InUnion(bags[1..], k - 1);
    }
  }

  lemma KeptIsAtomic(s: State, fd: int)
    requires Kept(s, fd) && Inv(s, fd)
    ensures Atomic(s, fd)
  {
    if AllWhole(Released(s, fd)) {
      WholeBytes(Released(s, fd));
    }
    forall i | 0 <= i < |Released(s, fd)| ensures Released(s, fd)[i].sent <= Released(s, fd)[i].frame {
      assert Intact(Released(s, fd)[i]);
    }
    forall t | 0 <= t < |s.current| && s.lock.modes[t] == W.Writing(fd)
      ensures s.current[t].sent <= s.current[t].frame && s.current[t].frame in Begun(s, fd)
    {
      assert SlaveIntact(s.lock.modes[t], s.current[t]);
      InUnion(Mines(s, fd), t);
      assert s.current[t].frame in Mines(s, fd)[t];
    }
  }

  /** For any restart slot, exactly the breaches end the exclusion of writers on a descriptor; as
      long as there was none, the sends on it are atomic. */
  lemma AtomicUntilBreach(run: seq<State>, i: nat, fd: int)
    requires IsRun(run) && i < |run|
    ensures (forall j :: 0 <= j <= i ==> OneWriter(run[j], fd)) <==> NoBreach(run, i, fd)
    ensures NoBreach(run, i, fd) ==> Atomic(run[i], fd)
  {
    if NoBreach(run, i, fd) {
      RunKept(run, i, fd);
      RunInv(run, i, fd);
      KeptIsAtomic(run[i], fd);
      forall j | 0 <= j <= i ensures OneWriter(run[j], fd) {
        RunInv(run, j, fd);
      }
    } else {
      var j :| 0 <= j < i && Breach(run[j], run[j + 1], fd);
      var e := EventAt(run, j);
      BreachMakesTwo(run[j], e, fd);
    }
  }

  lemma IntendedNeverBreaches(run: seq<State>, i: nat, fd: int)
    requires IsRun(run) && run[0].lock.restart == W.INTENDED && i < |run|
    ensures NoBreach(run, i, fd)
  {
    forall j | 0 <= j < i ensures !Breach(run[j], run[j + 1], fd) {
      RunKept(run, j, fd);
    }
  }

  /** With the intended restart no scan overlooks anybody, so sends are atomic on every descriptor
      at all times. */
  lemma FramesAreAtomic(run: seq<State>, i: nat, fd: int)
    requires IsRun(run) && run[0].lock.restart == W.INTENDED && i < |run|
    ensures Atomic(run[i], fd)
  {
    IntendedNeverBreaches(run, i, fd);
    AtomicUntilBreach(run, i, fd);
  }

  /** The breach of the restart the code has: slave t has waited for fd, is not slave 0, and gains
      the lock while slave 0 is writing on fd. */
  ghost predicate LiteralBreach(s: State, s': State, fd: int) {
    && SameSize(s) && SameSize(s')
    && exists t :: 0 < t < |s.lock.modes| && t < |s'.lock.modes| && s.lock.modes[t] == W.Woken(fd)
                   && s.lock.modes[0] == W.Writing(fd) && s'.lock.modes[t] == W.Writing(fd)
  }

  lemma LiteralBreachIs(s: State, s': State, fd: int)
    requires s.lock.restart == W.LITERAL
    ensures Breach(s, s', fd) <==> LiteralBreach(s, s', fd)
  {
    if LiteralBreach(s, s', fd) {
      var t :| 0 < t < |s.lock.modes| && t < |s'.lock.modes| && s.lock.modes[t] == W.Woken(fd)
               && s.lock.modes[0] == W.Writing(fd) && s'.lock.modes[t] == W.Writing(fd);
      assert BreachBy(s, s', fd, t, 0);
    }
  }

  /** With the restart the code has, writers on fd exclude each other up to a state exactly if no
      slave but slave 0, woken from a wait for fd, has gained the lock while slave 0 was writing on
      fd; and as long as that has not happened, the sends on fd are atomic. */
  lemma LiteralRestartFrames(run: seq<State>, i: nat, fd: int)
    requires IsRun(run) && run[0].lock.restart == W.LITERAL && i < |run|
    ensures (forall j :: 0 <= j <= i ==> OneWriter(run[j], fd)) <==>
            (forall j :: 0 <= j < i ==> !LiteralBreach(run[j], run[j + 1], fd))
    ensures (forall j :: 0 <= j < i ==> !LiteralBreach(run[j], run[j + 1], fd)) ==> Atomic(run[i], fd)
  {
    forall j | 0 <= j < i ensures Breach(run[j], run[j + 1], fd) <==> LiteralBreach(run[j], run[j + 1], fd) {
      RunKept(run, j, fd);
      LiteralBreachIs(run[j], run[j + 1], fd);
    }
    AtomicUntilBreach(run, i, fd);
  }

  // ---------------------------------------------------------------- the breach, byte by byte

  lemma TakesStep(s: State, e: Event, s': State)
    requires Enabled(s, e) && s' == Apply(s, e)
    ensures Next(s, s')
  {
  }

  const NONE: Transfer := Transfer([], [], [])
  const ONES: seq<byte> := [1, 1]
  const TWOS: seq<byte> := [2, 2]

  /** Two slaves under the literal restart, and the bytes and sends of descriptor 7. */
  function Scene(table: seq<int>, m0: W.Mode, m1: W.Mode, c0: Transfer, c1: Transfer,
                 stream: seq<byte>, begun: multiset<seq<byte>>, done: seq<Transfer>): State
  {
    State(W.Lock(W.LITERAL, table, [m0, m1]), [c0, c1],
          if stream == [] then map[] else map[7 := stream],
          if begun == multiset{} then map[] else map[7 := begun],
          if done == [] then map[] else map[7 := done])
  }

  /** A write of the first part of what slave t has left. */
  lemma WritesPiece(s: State, t: nat, piece: seq<byte>, left: seq<byte>, s': State)
    requires SameSize(s) && t < |s.current| && s.lock.modes[t] == W.Writing(7)
    requires s.current[t].rest == piece + left && piece != []
    requires s'.lock == s.lock && s'.begun == s.begun && s'.released == s.released
    requires s'.current == s.current[t := Transfer(s.current[t].frame, s.current[t].sent + piece, left)]
    requires s'.streams == s.streams[7 := Stream(s, 7) + piece]
    ensures Next(s, s')
  {
    var rest := s.current[t].rest;
    assert rest[..|piece|] == piece && rest[|piece|..] == left;
    TakesStep(s, WriteSome(t, |piece|), s');
  }

  function Half(): Transfer { Transfer(ONES, [1], [1]) }

  function Fresh(frame: seq<byte>): Transfer { Transfer(frame, [], frame) }

  function Whole(frame: seq<byte>): Transfer { Transfer(frame, frame, []) }

  /** Slave 0 gains the lock on 7 and writes half of its frame. */
  lemma Opening() returns (run: seq<State>)
    ensures IsRun(run) && run[0].lock.restart == W.LITERAL
    ensures run[|run| - 1] == Scene([7, VOID_FD], W.Writing(7), W.Free, Half(), NONE, [1], multiset{ONES}, [])
  {
    var v := VOID_FD;
    var a := Scene([v, v], W.Free, W.Free, NONE, NONE, [], multiset{}, []);
    var b := Scene([v, v], W.Requesting(7), W.Free, Fresh(ONES), NONE, [], multiset{ONES}, []);
    var c := Scene([7, v], W.Writing(7), W.Free, Fresh(ONES), NONE, [], multiset{ONES}, []);
    var d := Scene([7, v], W.Writing(7), W.Free, Half(), NONE, [1], multiset{ONES}, []);
    assert Next(a, b) by {
      assert Begun(a, 7) + multiset{ONES} == multiset{ONES};
      TakesStep(a, Begin(0, 7, ONES), b);
    }
    assert Next(b, c) by { TakesStep(b, Scan(0), c); }
    assert Next(c, d) by {
      assert c.current[0].sent + [1] == d.current[0].sent && Stream(c, 7) + [1] == d.streams[7];
      WritesPiece(c, 0, [1], [1], d);
    }
    run := [a, b, c, d];
  }

  lemma Asking(a: State) returns (tail: seq<State>)
    requires a == Scene([7, VOID_FD], W.Writing(7), W.Free, Half(), NONE, [1], multiset{ONES}, [])
    ensures IsTail(a, tail)
    ensures tail[|tail| - 1] ==
            Scene([7, VOID_FD], W.Writing(7), W.Requesting(7), Half(), Fresh(TWOS), [1], multiset{ONES, TWOS}, [])
  {
    var b := Scene([7, VOID_FD], W.Writing(7), W.Requesting(7), Half(), Fresh(TWOS), [1], multiset{ONES, TWOS}, []);
    assert Next(a, b) by {
      assert Begun(a, 7) + multiset{TWOS} == multiset{ONES, TWOS};
      TakesStep(a, Begin(1, 7, TWOS), b);
    }
    tail := [b];
  }

  /** Slave 1 finds 7 taken, waits, wakes without cause, and its rescan overlooks slot 0. */
  lemma Overlooking(a: State) returns (tail: seq<State>)
    requires a ==
             Scene([7, VOID_FD], W.Writing(7), W.Requesting(7), Half(), Fresh(TWOS), [1], multiset{ONES, TWOS}, [])
    ensures IsTail(a, tail)
    ensures tail[|tail| - 1] ==
            Scene([7, 7], W.Writing(7), W.Writing(7), Half(), Fresh(TWOS), [1], multiset{ONES, TWOS}, [])
  {
    var v := VOID_FD;
    var both := multiset{ONES, TWOS};
    var b := Scene([7, v], W.Writing(7), W.Waiting(7), Half(), Fresh(TWOS), [1], both, []);
    var c := Scene([7, v], W.Writing(7), W.Woken(7), Half(), Fresh(TWOS), [1], both, []);
    var d := Scene([7, 7], W.Writing(7), W.Writing(7), Half(), Fresh(TWOS), [1], both, []);
    assert Next(a, b) by { assert a.lock.table[0] == 7; TakesStep(a, Scan(1), b); }
    assert Next(b, c) by { TakesStep(b, Spurious(1), c); }
    assert Next(c, d) by { TakesStep(c, Scan(1), d); }
    tail := [b, c, d];
  }

  lemma CutsIn(a: State) returns (b: State)
    requires a == Scene([7, 7], W.Writing(7), W.Writing(7), Half(), Fresh(TWOS), [1], multiset{ONES, TWOS}, [])
    ensures Next(a, b)
    ensures b == Scene([7, 7], W.Writing(7), W.Writing(7), Half(), Whole(TWOS), [1, 2, 2], multiset{ONES, TWOS}, [])
  {
    b := Scene([7, 7], W.Writing(7), W.Writing(7), Half(), Whole(TWOS), [1, 2, 2], multiset{ONES, TWOS}, []);
    assert a.current[1].sent + [2, 2] == b.current[1].sent && Stream(a, 7) + [2, 2] == b.streams[7];
    WritesPiece(a, 1, [2, 2], [], b);
  }

  lemma CutsOut(b: State) returns (c: State)
    requires b == Scene([7, 7], W.Writing(7), W.Writing(7), Half(), Whole(TWOS), [1, 2, 2], multiset{ONES, TWOS}, [])
    ensures Next(b, c)
    ensures c ==
            Scene([7, VOID_FD], W.Writing(7), W.Free, Half(), NONE, [1, 2, 2], multiset{ONES, TWOS}, [Whole(TWOS)])
  {
    c := Scene([7, VOID_FD], W.Writing(7), W.Free, Half(), NONE, [1, 2, 2], multiset{ONES, TWOS}, [Whole(TWOS)]);
    assert Released(b, 7) + [b.current[1]] == c.released[7];
    TakesStep(b, Finish(1), c);
  }

  /** Slave 1 writes its whole frame in the middle of slave 0's. */
  lemma Cutting(a: State) returns (tail: seq<State>)
    requires a == Scene([7, 7], W.Writing(7), W.Writing(7), Half(), Fresh(TWOS), [1], multiset{ONES, TWOS}, [])
    ensures IsTail(a, tail)
    ensures tail[|tail| - 1] ==
            Scene([7, VOID_FD], W.Writing(7), W.Free, Half(), NONE, [1, 2, 2], multiset{ONES, TWOS}, [Whole(TWOS)])
  {
    var b := CutsIn(a);
    var c := CutsOut(b);
    tail := [b, c];
  }

  lemma EndsFirst(a: State) returns (b: State)
    requires a ==
             Scene([7, VOID_FD], W.Writing(7), W.Free, Half(), NONE, [1, 2, 2], multiset{ONES, TWOS}, [Whole(TWOS)])
    ensures Next(a, b)
    ensures b == Scene([7, VOID_FD], W.Writing(7), W.Free, Whole(ONES), NONE, [1, 2, 2, 1],
                       multiset{ONES, TWOS}, [Whole(TWOS)])
  {
    b := Scene([7, VOID_FD], W.Writing(7), W.Free, Whole(ONES), NONE, [1, 2, 2, 1],
               multiset{ONES, TWOS}, [Whole(TWOS)]);
    assert a.current[0].sent + [1] == b.current[0].sent && Stream(a, 7) + [1] == b.streams[7];
    WritesPiece(a, 0, [1], [], b);
  }

  lemma Leaves(b: State) returns (c: State)
    requires b == Scene([7, VOID_FD], W.Writing(7), W.Free, Whole(ONES), NONE, [1, 2, 2, 1],
                        multiset{ONES, TWOS}, [Whole(TWOS)])
    ensures Next(b, c)
    ensures c == Scene([VOID_FD, VOID_FD], W.Free, W.Free, NONE, NONE, [1, 2, 2, 1],
                       multiset{ONES, TWOS}, [Whole(TWOS), Whole(ONES)])
  {
    c := Scene([VOID_FD, VOID_FD], W.Free, W.Free, NONE, NONE, [1, 2, 2, 1],
               multiset{ONES, TWOS}, [Whole(TWOS), Whole(ONES)]);
    assert Released(b, 7) + [b.current[0]] == c.released[7];
    TakesStep(b, Finish(0), c);
  }

  lemma Closing(a: State) returns (tail: seq<State>)
    requires a ==
             Scene([7, VOID_FD], W.Writing(7), W.Free, Half(), NONE, [1, 2, 2], multiset{ONES, TWOS}, [Whole(TWOS)])
    ensures IsTail(a, tail)
    ensures tail[|tail| - 1] == Scene([VOID_FD, VOID_FD], W.Free, W.Free, NONE, NONE, [1, 2, 2, 1],
                                      multiset{ONES, TWOS}, [Whole(TWOS), Whole(ONES)])
  {
    var b := EndsFirst(a);
    var c := Leaves(b);
    tail := [b, c];
  }

  ghost predicate IsTail(a: State, tail: seq<State>) {
    |tail| > 0 && Next(a, tail[0]) && forall i :: 0 <= i < |tail| - 1 ==> Next(tail[i], tail[i + 1])
  }

  lemma Extend(run: seq<State>, tail: seq<State>)
    requires IsRun(run) && IsTail(run[|run| - 1], tail)
    ensures IsRun(run + tail) && (run + tail)[|run + tail| - 1] == tail[|tail| - 1]
  {
    var all := run + tail;
    forall i | 0 <= i < |all| - 1 ensures Next(all[i], all[i + 1]) {
      if i >= |run| {
        assert all[i] == tail[i - |run|] && all[i + 1] == tail[i - |run| + 1];
      }
    }
  }

  ghost predicate Interleaved(s: State) {
    && Idle(s, 7) && Released(s, 7) == [Whole(TWOS), Whole(ONES)] && Begun(s, 7) == multiset{ONES, TWOS}
    && Stream(s, 7) == [1, 2, 2, 1] && Stream(s, 7) != ONES + TWOS && Stream(s, 7) != TWOS + ONES
  }

  lemma EndsInterleaved(s: State)
    requires s == Scene([VOID_FD, VOID_FD], W.Free, W.Free, NONE, NONE, [1, 2, 2, 1],
                        multiset{ONES, TWOS}, [Whole(TWOS), Whole(ONES)])
    ensures Interleaved(s)
  {
    assert Stream(s, 7)[1] == 2 && (ONES + TWOS)[1] == 1 && (TWOS + ONES)[0] == 2;
  }

  /** With the restart the code has and slave 0 writing, no write failing, the bytes of two sends
      can end up as neither order of their frames. */
  lemma LiteralRestartInterleaves() returns (run: seq<State>)
    ensures IsRun(run) && run[0].lock.restart == W.LITERAL
    ensures Interleaved(run[|run| - 1])
  {
    run := Opening();
    var tail := Asking(run[|run| - 1]);
    Extend(run, tail);
    run := run + tail;
    tail := Overlooking(run[|run| - 1]);
    Extend(run, tail);
    run := run + tail;
    tail := Cutting(run[|run| - 1]);
    Extend(run, tail);
    run := run + tail;
    tail := Closing(run[|run| - 1]);
    Extend(run, tail);
    EndsInterleaved(tail[|tail| - 1]);
    run := run + tail;
  }

  // ---------------------------------------------------------------- the client at the other end

  function NotificationFrame(m: Message): seq<byte>
    requires GoodNotification(m)
  {
    EncodeMessage(m)
  }

  ghost predicate IsNotificationFrame(f: seq<byte>) {
    exists m :: GoodNotification(m) && f == NotificationFrame(m)
  }

  /** A reply begins with a header that is not a notification's; data may follow it. */
  predicate IsReplyFrame(f: seq<byte>) {
    |f| >= HEADER_SIZE && !IsNotification(DecodeHeader(f[..HEADER_SIZE]).op)
  }

  /** What the client sees of ended sends followed by more bytes. */
  lemma AwaitReplyFrame(f: seq<byte>, more: seq<byte>)
    requires IsReplyFrame(f)
    ensures Await(f + more) == Reply([], OutcomeOf(DecodeHeader(f[..HEADER_SIZE]).op), f[HEADER_SIZE..] + more)
  {
    assert (f + more)[..HEADER_SIZE] == f[..HEADER_SIZE];
    assert (f + more)[HEADER_SIZE..] == f[HEADER_SIZE..] + more;
  }

  /** The sends from position k on, as bytes. */
  function From(sends: seq<Transfer>, k: nat): seq<byte>
    requires k <= |sends|
    decreases |sends| - k
  {
    if k == |sends| then [] else sends[k].sent + From(sends, k + 1)
  }

  lemma {:induction false} BytesFrom(sends: seq<Transfer>, k: nat)
    requires k <= |sends|
    ensures Bytes(sends) == Bytes(sends[..k]) + From(sends, k)
    decreases |sends| - k
  {
    if k == |sends| {
      assert sends[..k] == sends;
    } else {
      BytesFrom(sends, k + 1);
      assert sends[..k + 1] == sends[..k] + [sends[k]];
      BytesSnoc(sends[..k], sends[k]);
      Associate(Bytes(sends[..k]), sends[k].sent, From(sends, k + 1));
    }
  }

  ghost predicate IsFrame(f: seq<byte>) {
    IsReplyFrame(f) || IsNotificationFrame(f)
  }

  lemma PeelReply(sends: seq<Transfer>, k: nat, more: seq<byte>)
    requires k < |sends| && sends[k].sent == sends[k].frame && IsReplyFrame(sends[k].frame)
    ensures Await(From(sends, k) + more) == ReplyAt(sends, k, [], more)
  {
    Associate(sends[k].frame, From(sends, k + 1), more);
    AwaitReplyFrame(sends[k].frame, From(sends, k + 1) + more);
  }

  lemma PeelNotification(sends: seq<Transfer>, k: nat, m: Message, more: seq<byte>)
    requires k < |sends| && sends[k].sent == sends[k].frame
    requires GoodNotification(m) && sends[k].frame == EncodeMessage(m)
    ensures Await(From(sends, k) + more) == Keep(m, Await(From(sends, k + 1) + more))
  {
    Associate(sends[k].frame, From(sends, k + 1), more);
    AwaitNotification(m, From(sends, k + 1) + more);
  }

  /** The reply that the send at position `at` is, after the notifications ms. */
  function ReplyAt(sends: seq<Transfer>, at: nat, ms: seq<Message>, more: seq<byte>): Awaited
    requires at < |sends| && IsReplyFrame(sends[at].frame)
  {
    Reply(ms, OutcomeOf(DecodeHeader(sends[at].frame[..HEADER_SIZE]).op),
          sends[at].frame[HEADER_SIZE..] + (From(sends, at + 1) + more))
  }

  /** The sends from k on begin with the notifications ms. */
  ghost predicate Notifies(sends: seq<Transfer>, k: nat, ms: seq<Message>) {
    && k + |ms| <= |sends| && AllGood(ms)
    && forall i :: 0 <= i < |ms| ==> sends[k + i].frame == EncodeMessage(ms[i])
  }

  lemma OneMoreNotification(sends: seq<Transfer>, k: nat, m: Message, ms: seq<Message>)
    requires k < |sends| && GoodNotification(m) && sends[k].frame == EncodeMessage(m) && Notifies(sends, k + 1, ms)
    ensures Notifies(sends, k, [m] + ms)
  {
    forall i | 0 <= i < |ms| + 1 ensures sends[k + i].frame == EncodeMessage(([m] + ms)[i]) {
      if i > 0 {
        assert ([m] + ms)[i] == ms[i - 1] && k + i == k + 1 + (i - 1);
      }
    }
  }

  /** Among whole sends there is a first reply; what the client makes of the stream is the
      notifications before it, in order, and that reply. */
  lemma {:induction false} FirstReply(sends: seq<Transfer>, k: nat, last: nat, more: seq<byte>)
    returns (ms: seq<Message>, at: nat)
    requires k <= last < |sends| && AllWhole(sends) && IsReplyFrame(sends[last].frame)
    requires forall i :: 0 <= i < |sends| ==> IsFrame(sends[i].frame)
    ensures at == k + |ms| <= last && IsReplyFrame(sends[at].frame) && Notifies(sends, k, ms)
    ensures Await(From(sends, k) + more) == ReplyAt(sends, at, ms, more)
    decreases last - k
  {
    if IsReplyFrame(sends[k].frame) {
      ms, at := [], k;
      PeelReply(sends, k, more);
    } else {
      assert IsFrame(sends[k].frame);
      var m :| GoodNotification(m) && sends[k].frame == NotificationFrame(m);
      var later;
      later, at := FirstReply(sends, k + 1, last, more);
      ms := [m] + later;
      OneMoreNotification(sends, k, m, later);
      PeelNotification(sends, k, m, more);
    }
  }

  lemma BegunFrames(s: State, fd: int, i: nat)
    requires SameSize(s) && Conserved(s, fd) && i < |Released(s, fd)|
    ensures Released(s, fd)[i].frame in Begun(s, fd)
  {
    assert FramesOf(Released(s, fd))[i] in multiset(FramesOf(Released(s, fd)));
  }

  /** End to end, for any restart slot: when all sends begun on a client's descriptor are
      notifications and replies, none of those that ended failed, one reply has been sent, and no
      breach has happened on that descriptor, then the client's loop, reading the bytes that the
      slaves' interleaved writes left there, keeps exactly the notifications sent before the first
      reply, in order, and recognises that reply, whatever else is on its way. */
  lemma ClientReadsWhatSlavesWrote(run: seq<State>, i: nat, fd: int, r: nat)
    returns (ms: seq<Message>, at: nat, rest: seq<byte>)
    requires IsRun(run) && i < |run| && NoBreach(run, i, fd)
    requires forall f :: f in Begun(run[i], fd) ==> IsFrame(f)
    requires AllWhole(Released(run[i], fd)) && r < |Released(run[i], fd)| && IsReplyFrame(Released(run[i], fd)[r].frame)
    ensures var sends := Released(run[i], fd);
      && at == |ms| <= r && IsReplyFrame(sends[at].frame) && Notifies(sends, 0, ms)
      && Await(Stream(run[i], fd)) == Reply(ms, OutcomeOf(DecodeHeader(sends[at].frame[..HEADER_SIZE]).op), rest)
  {
    AtomicUntilBreach(run, i, fd);
    var s := run[i];
    var sends := Released(s, fd);
    forall k | 0 <= k < |sends| ensures IsFrame(sends[k].frame) {
      BegunFrames(s, fd, k);
    }
    var more := InProgress(s, fd);
    BytesFrom(sends, 0);
    assert Bytes(sends[..0]) == [] && Bytes(sends) == From(sends, 0);
    ms, at := FirstReply(sends, 0, r, more);
    rest := sends[at].frame[HEADER_SIZE..] + (From(sends, at + 1) + more);
  }

  lemma InProgress(s: State, fd: int) returns (more: seq<byte>)
    requires Atomic(s, fd)
    ensures Stream(s, fd) == Bytes(Released(s, fd)) + more
  {
    if t :| 0 <= t < |s.current| && s.lock.modes[t] == W.Writing(fd) {
      more := s.current[t].sent;
    } else {
      more := [];
      assert Idle(s, fd);
    }
  }
}
