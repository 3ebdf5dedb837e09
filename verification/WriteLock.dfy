/**
 Exclusive writing on a descriptor: `start_safe_writing` and `stop_safe_writing` over the shared
 table `writing_fd`, as a state machine over the steps of any number of slaves.

 Everything between taking the mutex and a wait or the unlock is one step, because nothing
 outside the mutex touches the table. The slot at which the scan resumes after a wait is the
 parameter `restart`: the code sets the index to 0 and the loop then increments it, so the
 literal value is 1, while the comment beside it intends 0.
 */
module WriteLock {
  import opened Prelude
  import opened Jobs

  datatype Mode =
    | Free
    | Requesting(fd: int)   // about to scan from slot 0
    | Waiting(fd: int)
    | Woken(fd: int)        // about to scan again from slot `restart`
    | Writing(fd: int)

  datatype Lock = Lock(restart: nat, table: seq<int>, modes: seq<Mode>)

  datatype Event =
    | Request(t: nat, fd: int)
    | Scan(t: nat)
    | Spurious(t: nat)
    | Release(t: nat)

  const INTENDED: nat := 0
  const LITERAL: nat := 1

  predicate WellFormed(s: Lock) {
    |s.table| == |s.modes|
  }

  ghost predicate Init(s: Lock) {
    && WellFormed(s)
    && (forall t :: 0 <= t < |s.table| ==> s.table[t] == VOID_FD)
    && (forall t :: 0 <= t < |s.modes| ==> s.modes[t] == Free)
  }

  /** The loop's verdict when it starts at slot `from`: somebody else writes on fd. */
  predicate Taken(table: seq<int>, me: nat, fd: int, from: nat) {
    exists i :: from <= i < |table| && i != me && table[i] == fd
  }

  function ScanStart(s: Lock, t: nat): nat
    requires t < |s.modes|
  {
    if s.modes[t].Woken? then s.restart else 0
  }

  predicate Enabled(s: Lock, e: Event) {
    && WellFormed(s)
    && match e
       case Request(t, fd) => t < |s.modes| && s.modes[t].Free? && fd != VOID_FD
       case Scan(t) => t < |s.modes| && (s.modes[t].Requesting? || s.modes[t].Woken?)
       case Spurious(t) => t < |s.modes| && s.modes[t].Waiting?
       case Release(t) => t < |s.modes| && s.modes[t].Writing?
  }

  function WakeAll(modes: seq<Mode>): (r: seq<Mode>)
    ensures |r| == |modes|
    ensures forall t :: 0 <= t < |modes| ==>
      r[t] == if modes[t].Waiting? then Woken(modes[t].fd) else modes[t]
  {
    seq(|modes|, i requires 0 <= i < |modes| => if modes[i].Waiting? then Woken(modes[i].fd) else modes[i])
  }

  function Apply(s: Lock, e: Event): (s': Lock)
    requires Enabled(s, e)
    ensures WellFormed(s') && |s'.modes| == |s.modes| && s'.restart == s.restart
  {
    match e
    case Request(t, fd) => s.(modes := s.modes[t := Requesting(fd)])
    case Scan(t) =>
      var fd := s.modes[t].fd;
      if Taken(s.table, t, fd, ScanStart(s, t)) then
        s.(modes := s.modes[t := Waiting(fd)])
      else
        s.(table := s.table[t := fd], modes := s.modes[t := Writing(fd)])
    case Spurious(t) => s.(modes := s.modes[t := Woken(s.modes[t].fd)])
    case Release(t) => s.(table := s.table[t := VOID_FD], modes := WakeAll(s.modes)[t := Free])
  }

  // ---------------------------------------------------------------- invariant for any restart slot

  /** A slot of the table shows exactly the descriptor its slave is writing on. */
  ghost predicate TableInv(s: Lock) {
    && WellFormed(s)
    && forall t :: 0 <= t < |s.modes| ==>
      && (s.modes[t].Writing? ==> s.table[t] == s.modes[t].fd)
      && (!s.modes[t].Writing? ==> s.table[t] == VOID_FD)
      && (!s.modes[t].Free? ==> s.modes[t].fd != VOID_FD)
  }

  ghost predicate HeldByOther(s: Lock, t: nat, fd: int) {
    exists h :: 0 <= h < |s.modes| && h != t && s.modes[h] == Writing(fd)
  }

  /** Whoever sleeps, sleeps on a descriptor that another slave is writing on right now. */
  ghost predicate SleepInv(s: Lock) {
    forall t :: 0 <= t < |s.modes| && s.modes[t].Waiting? ==> HeldByOther(s, t, s.modes[t].fd)
  }

  /** No descriptor has two writers among the slaves with ids from `first` on. */
  ghost predicate ExclusiveFrom(s: Lock, first: nat) {
    forall t, u | first <= t < |s.modes| && first <= u < |s.modes| ::
      s.modes[t].Writing? && s.modes[t] == s.modes[u] ==> t == u
  }

  ghost predicate Inv(s: Lock) {
    TableInv(s) && SleepInv(s) && ExclusiveFrom(s, s.restart)
  }

  lemma InitInv(s: Lock)
    requires Init(s)
    ensures Inv(s)
  {
  }

  /** Under the table invariant the scan sees exactly the other slaves' writers from its
      starting slot on. */
  lemma TakenMeansHeld(s: Lock, t: nat, fd: int, from: nat)
    requires TableInv(s) && t < |s.modes| && fd != VOID_FD
    ensures Taken(s.table, t, fd, from) <==>
            exists h :: from <= h < |s.modes| && h != t && s.modes[h] == Writing(fd)
  {
    if Taken(s.table, t, fd, from) {
      var i :| from <= i < |s.table| && i != t && s.table[i] == fd;
      assert s.modes[i] == Writing(fd);
    }
    if h :| from <= h < |s.modes| && h != t && s.modes[h] == Writing(fd) {
      assert s.table[h] == fd;
    }
  }

  lemma ScanKeepsInv(s: Lock, t: nat)
    requires Inv(s) && Enabled(s, Scan(t))
    ensures Inv(Apply(s, Scan(t)))
  {
    var s' := Apply(s, Scan(t));
    var fd := s.modes[t].fd;
    TakenMeansHeld(s, t, fd, ScanStart(s, t));
    forall u | 0 <= u < |s'.modes| && s'.modes[u].Waiting?
      ensures HeldByOther(s', u, s'.modes[u].fd)
    {
      var h :| 0 <= h < |s.modes| && h != u && s.modes[h] == Writing(s'.modes[u].fd);
      assert s'.modes[h] == s.modes[h];
    }
  }

  lemma StepKeepsInv(s: Lock, e: Event)
    requires Inv(s) && Enabled(s, e)
    ensures Inv(Apply(s, e))
  {
    var s' := Apply(s, e);
    match e
    case Scan(t) => ScanKeepsInv(s, t);
    case Release(t) =>
    case _ =>
      forall u | 0 <= u < |s'.modes| && s'.modes[u].Waiting?
        ensures HeldByOther(s', u, s'.modes[u].fd)
      {
        var h :| 0 <= h < |s.modes| && h != u && s.modes[h] == Writing(s.modes[u].fd);
        assert s'.modes[h] == s.modes[h];
      }
  }

  // ---------------------------------------------------------------- runs

  ghost predicate Next(s: Lock, s': Lock) {
    exists e: Event :: Enabled(s, e) && s' == Apply(s, e)
  }

  ghost predicate IsRun(run: seq<Lock>) {
    && |run| > 0 && Init(run[0])
    && forall i :: 0 <= i < |run| - 1 ==> Next(run[i], run[i + 1])
  }

  lemma {:induction false} RunInv(run: seq<Lock>, i: nat)
    requires IsRun(run) && i < |run|
    ensures Inv(run[i]) && run[i].restart == run[0].restart
  {
    if i == 0 {
      InitInv(run[0]);
    } else {
      RunInv(run, i - 1);
      assert Next(run[i - 1], run[i - 1 + 1]);
      var e :| Enabled(run[i - 1], e) && run[i] == Apply(run[i - 1], e);
      StepKeepsInv(run[i - 1], e);
    }
  }

  /** With the scan restarting at the first slot, no two slaves ever write on one descriptor. */
  lemma IntendedRestartExcludes(run: seq<Lock>, i: nat, t: nat, u: nat)
    requires IsRun(run) && run[0].restart == INTENDED && i < |run|
    requires t < u < |run[i].modes| && run[i].modes[t].Writing? && run[i].modes[u].Writing?
    ensures run[i].modes[t].fd != run[i].modes[u].fd
  {
    RunInv(run, i);
  }

  /** With the restart the code has, two writers on one descriptor are possible only if one of
      them is slave 0. */
  lemma LiteralRestartExcludes(run: seq<Lock>, i: nat, t: nat, u: nat)
    requires IsRun(run) && run[0].restart == LITERAL && i < |run|
    requires t < u < |run[i].modes| && run[i].modes[t].Writing? && run[i].modes[u].Writing?
    requires run[i].modes[t].fd == run[i].modes[u].fd
    ensures t == 0
  {
    RunInv(run, i);
  }

  /** Exactly when a successful scan puts two writers on one descriptor, for the restart the
      code has and starting from a state without such a pair: the scanning slave has waited, is
      not slave 0, and slave 0 writes on the descriptor it wants. */
  lemma LiteralScanBreachesIff(s: Lock, t: nat)
    requires Inv(s) && s.restart == LITERAL && ExclusiveFrom(s, 0) && Enabled(s, Scan(t))
    ensures !ExclusiveFrom(Apply(s, Scan(t)), 0) <==>
            s.modes[t].Woken? && t != 0 && s.modes[0] == Writing(s.modes[t].fd)
  {
    var fd := s.modes[t].fd;
    var s' := Apply(s, Scan(t));
    TakenMeansHeld(s, t, fd, ScanStart(s, t));
    if s.modes[t].Woken? && t != 0 && s.modes[0] == Writing(fd) {
      assert s'.modes[0] == s'.modes[t] == Writing(fd);
    }
  }

  /** A scan from slot 0, which is what every slave does before its first wait, is safe for any
      restart slot. */
  lemma FreshScanIsSafe(s: Lock, t: nat)
    requires Inv(s) && Enabled(s, Scan(t)) && s.modes[t].Requesting?
    ensures Apply(s, Scan(t)).modes[t].Writing? <==> !HeldByOther(s, t, s.modes[t].fd)
  {
    TakenMeansHeld(s, t, s.modes[t].fd, 0);
  }

  lemma TakesStep(s: Lock, e: Event, s': Lock)
    requires Enabled(s, e) && s' == Apply(s, e)
    ensures Next(s, s')
  {
  }

  /** Slave 0 writes on 7 and slave 2 on 8. */
  lemma TwoWriters() returns (run: seq<Lock>)
    ensures IsRun(run) && run[0].restart == LITERAL
    ensures run[|run| - 1] == Lock(LITERAL, [7, VOID_FD, 8], [Writing(7), Free, Writing(8)])
  {
    var a := Lock(LITERAL, [VOID_FD, VOID_FD, VOID_FD], [Free, Free, Free]);
    var b := Lock(LITERAL, [VOID_FD, VOID_FD, VOID_FD], [Requesting(7), Free, Free]);
    var c := Lock(LITERAL, [7, VOID_FD, VOID_FD], [Writing(7), Free, Free]);
    var d := Lock(LITERAL, [7, VOID_FD, VOID_FD], [Writing(7), Free, Requesting(8)]);
    var e := Lock(LITERAL, [7, VOID_FD, 8], [Writing(7), Free, Writing(8)]);
    assert Next(a, b) by { TakesStep(a, Request(0, 7), b); }
    assert Next(b, c) by { TakesStep(b, Scan(0), c); }
    assert Next(c, d) by { TakesStep(c, Request(2, 8), d); }
    assert Next(d, e) by { TakesStep(d, Scan(2), e); }
    run := [a, b, c, d, e];
  }

  lemma OneMore(run: seq<Lock>, e: Event, s: Lock)
    requires IsRun(run) && Enabled(run[|run| - 1], e) && s == Apply(run[|run| - 1], e)
    ensures IsRun(run + [s])
  {
    TakesStep(run[|run| - 1], e, s);
  }

  /** The breach is reachable without any spurious wakeup: slave 0 writes on 7, slave 2 on 8,
      slave 1 waits for 7, the release of 8 wakes it, and its rescan skips slot 0. */
  lemma LiteralRestartBreach() returns (run: seq<Lock>)
    ensures IsRun(run) && run[0].restart == LITERAL
    ensures var last := run[|run| - 1];
      |last.modes| == 3 && last.modes[0] == Writing(7) && last.modes[1] == Writing(7)
  {
    var f := Lock(LITERAL, [7, VOID_FD, 8], [Writing(7), Requesting(7), Writing(8)]);
    var g := Lock(LITERAL, [7, VOID_FD, 8], [Writing(7), Waiting(7), Writing(8)]);
    var h := Lock(LITERAL, [7, VOID_FD, VOID_FD], [Writing(7), Woken(7), Free]);
    var k := Lock(LITERAL, [7, 7, VOID_FD], [Writing(7), Writing(7), Free]);
    run := TwoWriters();
    OneMore(run, Request(1, 7), f);
    run := run + [f];
    assert f.table[0] == 7;
    OneMore(run, Scan(1), g);
    run := run + [g];
    OneMore(run, Release(2), h);
    run := run + [h];
    OneMore(run, Scan(1), k);
    run := run + [k];
  }

  // ---------------------------------------------------------------- progress

  /** Every sleeper sleeps on a descriptor that a slave which does not sleep is writing on, for
      any restart slot; the writer's release leaves nobody asleep. So there is no wait cycle and
      no missed broadcast. */
  lemma SleeperHasActiveWriter(run: seq<Lock>, i: nat, t: nat) returns (h: nat)
    requires IsRun(run) && i < |run| && t < |run[i].modes| && run[i].modes[t].Waiting?
    ensures h < |run[i].modes| && run[i].modes[h] == Writing(run[i].modes[t].fd)
    ensures Enabled(run[i], Release(h))
    ensures forall u :: 0 <= u < |run[i].modes| ==> !Apply(run[i], Release(h)).modes[u].Waiting?
  {
    RunInv(run, i);
    h :| 0 <= h < |run[i].modes| && h != t && run[i].modes[h] == Writing(run[i].modes[t].fd);
  }

  /** What one send still costs, in a pool of n slaves: a release pays for every sleeper it
      sends through another scan. */
  function Rank(m: Mode, n: nat): nat {
    match m
    case Free => 0
    case Writing(_) => n + 1
    case Waiting(_) => n + 2
    case Woken(_) => n + 3
    case Requesting(_) => n + 4
  }

  /** A scan or a release costs the stepping slave more than it can cost all others together. */
  lemma RankFalls(s: Lock, e: Event)
    requires Enabled(s, e) && (e.Scan? || e.Release?)
    ensures var n := |s.modes|; var s' := Apply(s, e);
      if e.Scan? then
        && Rank(s'.modes[e.t], n) < Rank(s.modes[e.t], n)
        && forall u :: 0 <= u < n && u != e.t ==> s'.modes[u] == s.modes[u]
      else
        && Rank(s'.modes[e.t], n) + n < Rank(s.modes[e.t], n)
        && forall u :: 0 <= u < n && u != e.t ==> Rank(s'.modes[u], n) <= Rank(s.modes[u], n) + 1
  {
  }
}
