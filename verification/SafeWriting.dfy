/**
 `start_safe_writing` and `stop_safe_writing` as they stand in the source, over the shared table.

 The other slaves act whenever the running one does not hold the mutex. What they do then is
 given by `schedule`, an arbitrary list of bursts of steps; steps that are not possible at that
 moment are skipped. Whatever the schedule, the table only ever goes through a run of WriteLock,
 so everything proved there about runs holds of this code.
 */
module SafeWriting {
  import opened Prelude
  import opened Jobs
  import opened WriteLock

  lemma SleepsOnRival(run: seq<Lock>, me: nat)
    requires IsRun(run) && me < |run[|run| - 1].modes| && run[|run| - 1].modes[me].Waiting?
    ensures HeldByOther(run[|run| - 1], me, run[|run| - 1].modes[me].fd)
  {
    RunInv(run, |run| - 1);
  }

  class WritingTable {
    const writingFd: array<int>
    const restart: nat
    var modes: seq<Mode>
    var schedule: seq<seq<Event>>
    ghost var trace: seq<Lock>

    ghost function View(): Lock
      reads this, writingFd
    {
      Lock(restart, writingFd[..], modes)
    }

    ghost predicate Valid()
      reads this, writingFd
    {
      && writingFd.Length == |modes|
      && IsRun(trace) && trace[|trace| - 1] == View()
      && trace[0].restart == restart
    }

    constructor (slaves: nat, restart: nat, schedule: seq<seq<Event>>)
      ensures Valid() && Init(View()) && fresh(writingFd)
      ensures |modes| == slaves && this.restart == restart && this.schedule == schedule
    {
      writingFd := new int[slaves](_ => VOID_FD);
      this.restart := restart;
      modes := seq(slaves, _ => Free);
      this.schedule := schedule;
      new;
      trace := [View()];
    }

    /** The table and the modes have just made the step e. */
    ghost method Record(e: Event)
      requires IsRun(trace) && Enabled(trace[|trace| - 1], e) && View() == Apply(trace[|trace| - 1], e)
      requires writingFd.Length == |modes| && trace[0].restart == restart
      modifies this`trace
      ensures Valid() && trace == old(trace) + [View()]
    {
      TakesStep(trace[|trace| - 1], e, View());
      trace := trace + [View()];
    }

    method OtherStep(e: Event)
      requires Valid() && Enabled(View(), e)
      modifies this`modes, this`trace, writingFd
      ensures Valid() && View() == Apply(old(View()), e) && old(trace) <= trace
    {
      var after := Apply(Lock(restart, writingFd[..], modes), e);
      modes := after.modes;
      forall i | 0 <= i < writingFd.Length {
        writingFd[i] := after.table[i];
      }
      assert writingFd[..] == after.table;
      Record(e);
    }

    /** The next burst of the others. It can wake slave `me`, and nothing else about it changes. */
    method Yield(me: nat)
      requires Valid() && me < |modes|
      modifies this`modes, this`schedule, this`trace, writingFd
      ensures Valid() && |modes| == old(|modes|) && old(trace) <= trace
      ensures |schedule| == if old(schedule) == [] then 0 else old(|schedule|) - 1
      ensures modes[me] == old(modes[me]) || (old(modes[me]).Waiting? && modes[me] == Woken(old(modes[me]).fd))
    {
      if schedule == [] {
        return;
      }
      var burst := schedule[0];
      schedule := schedule[1..];
      for i := 0 to |burst|
        invariant Valid() && |modes| == old(|modes|) && old(trace) <= trace
        invariant schedule == old(schedule)[1..]
        invariant modes[me] == old(modes[me]) || (old(modes[me]).Waiting? && modes[me] == Woken(old(modes[me]).fd))
      {
        if burst[i].t != me && Enabled(Lock(restart, writingFd[..], modes), burst[i]) {
          OtherStep(burst[i]);
        }
      }
    }

    /** The scan found a writer: sleeps until woken; fails only if the schedule ends first. */
    method WaitForWriter(me: nat, fd: int) returns (woken: bool)
      requires Valid() && me < |modes| && (modes[me] == Requesting(fd) || modes[me] == Woken(fd))
      requires Taken(writingFd[..], me, fd, ScanStart(View(), me))
      modifies this`modes, this`schedule, this`trace, writingFd
      ensures Valid() && |modes| == old(|modes|) && old(trace) <= trace
      ensures woken ==> modes[me] == Woken(fd) && |schedule| < old(|schedule|)
      ensures !woken ==> modes[me] == Waiting(fd) && schedule == [] && HeldByOther(View(), me, fd)
    {
      modes := modes[me := Waiting(fd)];
      Record(Scan(me));
      while modes[me].Waiting?
        invariant Valid() && |modes| == old(|modes|) && old(trace) <= trace
        invariant |schedule| <= old(|schedule|)
        invariant modes[me] == Waiting(fd) || modes[me] == Woken(fd)
        invariant modes[me].Woken? ==> |schedule| < old(|schedule|)
        decreases |schedule|
      {
        if schedule == [] {
          SleepsOnRival(trace, me);
          return false;
        }
        Yield(me);
      }
      Yield(me);   // others may take the mutex first
      return true;
    }

    /** The scan came to its end. */
    method BecomeWriter(me: nat, fd: int)
      requires Valid() && me < |modes| && (modes[me] == Requesting(fd) || modes[me] == Woken(fd))
      requires !Taken(writingFd[..], me, fd, ScanStart(View(), me))
      modifies this`modes, this`trace, writingFd
      ensures Valid() && |modes| == old(|modes|) && old(trace) <= trace
      ensures modes[me] == Writing(fd) && writingFd[me] == fd
      ensures forall h :: restart <= h < |modes| && h != me ==> modes[h] != Writing(fd)
    {
      RunInv(trace, |trace| - 1);
      TakenMeansHeld(View(), me, fd, ScanStart(View(), me));
      writingFd[me] := fd;
      modes := modes[me := Writing(fd)];
      Record(Scan(me));
    }

    /** The scan loop. After a wait the index becomes `restart` - 1 and is then incremented; in the
        source that is 0 and then 1. */
    method StartSafeWriting(fd: int, me: nat) returns (acquired: bool)
      requires Valid() && me < |modes| && modes[me].Free? && fd != VOID_FD
      modifies this`modes, this`schedule, this`trace, writingFd
      ensures Valid() && |modes| == old(|modes|) && old(trace) <= trace
      ensures acquired ==> modes[me] == Writing(fd) && writingFd[me] == fd
      ensures acquired ==> forall h :: restart <= h < |modes| && h != me ==> modes[h] != Writing(fd)
      ensures !acquired ==> schedule == [] && modes[me] == Waiting(fd) && HeldByOther(View(), me, fd)
    {
      modes := modes[me := Requesting(fd)];
      Record(Request(me, fd));
      Yield(me);
      var i := 0;
      while i < writingFd.Length
        invariant Valid() && |modes| == old(|modes|) && old(trace) <= trace
        invariant modes[me] == Requesting(fd) || modes[me] == Woken(fd)
        invariant ScanStart(View(), me) <= i
        invariant forall k :: ScanStart(View(), me) <= k < i && k < writingFd.Length && k != me ==> writingFd[k] != fd
        decreases |schedule|, writingFd.Length - i
      {
        if i != me && writingFd[i] == fd {
          assert Taken(writingFd[..], me, fd, ScanStart(View(), me)) by { assert writingFd[..][i] == fd; }
          var woken := WaitForWriter(me, fd);
          if !woken {
            return false;
          }
          i := restart - 1;
        }
        i := i + 1;
      }
      BecomeWriter(me, fd);
      return true;
    }

    method StopSafeWriting(me: nat)
      requires Valid() && me < |modes| && modes[me].Writing?
      modifies this`modes, this`schedule, this`trace, writingFd
      ensures Valid() && |modes| == old(|modes|) && old(trace) <= trace
      ensures modes[me] == Free && writingFd[me] == VOID_FD
      ensures forall u :: 0 <= u < |modes| ==> !modes[u].Waiting?
    {
      Yield(me);
      writingFd[me] := VOID_FD;
      modes := WakeAll(modes)[me := Free];
      Record(Release(me));
    }
  }
}
