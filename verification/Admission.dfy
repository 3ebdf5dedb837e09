/**
 The admission table `critic_zone`: which operation each slave is serving, and for which
 descriptor. `check_op_consistence` and `clean_critic_zone` each run under one mutex, so each
 is one step. A slot keeps its contents until its own slave is admitted again or cleans it; the
 branch for unknown operations cleans nothing, and needs no step here because it changes
 nothing.
 */
module Admission {
  import opened Jobs

  /** `since` is history: the time at which the slot was filled. */
  datatype Slot = Slot(wop: WorkOp, fd: int, since: nat)

  datatype Zone = Zone(slots: seq<Slot>, clock: nat)

  datatype Event =
    | Check(t: nat, wop: WorkOp, fd: int)
    | Clean(t: nat)

  ghost predicate Init(s: Zone) {
    forall i :: 0 <= i < |s.slots| ==> s.slots[i].fd == VOID_FD
  }

  /** What an operation of slave t finds in slot i that forbids it. */
  predicate Conflict(slot: Slot, wop: WorkOp, fd: int) {
    slot.fd == fd && (wop == Ending || (wop == Generic && slot.wop == Signup))
  }

  predicate Admissible(slots: seq<Slot>, t: nat, wop: WorkOp, fd: int) {
    forall i :: 0 <= i < |slots| && i != t ==> !Conflict(slots[i], wop, fd)
  }

  predicate Enabled(s: Zone, e: Event) {
    e.t < |s.slots| && (e.Check? ==> e.fd != VOID_FD)
  }

  function Apply(s: Zone, e: Event): (s': Zone)
    requires Enabled(s, e)
    ensures |s'.slots| == |s.slots|
  {
    match e
    case Check(t, wop, fd) =>
      if Admissible(s.slots, t, wop, fd) then
        Zone(s.slots[t := Slot(wop, fd, s.clock)], s.clock + 1)
      else s
    case Clean(t) => s.(slots := s.slots[t := s.slots[t].(fd := VOID_FD)])
  }

  /** Of two slots for one descriptor, the later one is never an ending, and never a generic
      operation when the earlier one is a signup. */
  predicate OrderedPair(a: Slot, b: Slot) {
    a.fd == b.fd && a.fd != VOID_FD && a.since < b.since ==>
      b.wop != Ending && (b.wop == Generic ==> a.wop != Signup)
  }

  ghost predicate Inv(s: Zone) {
    && (forall i :: 0 <= i < |s.slots| && s.slots[i].fd != VOID_FD ==> s.slots[i].since < s.clock)
    && (forall i, j | 0 <= i < |s.slots| && 0 <= j < |s.slots| && i != j ::
          OrderedPair(s.slots[i], s.slots[j])
          && (s.slots[i].fd == s.slots[j].fd != VOID_FD ==> s.slots[i].since != s.slots[j].since))
  }

  lemma InitInv(s: Zone)
    requires Init(s)
    ensures Inv(s)
  {
  }

  lemma StepKeepsInv(s: Zone, e: Event)
    requires Inv(s) && Enabled(s, e)
    ensures Inv(Apply(s, e))
  {
    var s' := Apply(s, e);
    if e.Check? && Admissible(s.slots, e.t, e.wop, e.fd) {
      forall i | 0 <= i < |s.slots| && i != e.t
        ensures OrderedPair(s'.slots[i], s'.slots[e.t]) && OrderedPair(s'.slots[e.t], s'.slots[i])
      {
        assert !Conflict(s.slots[i], e.wop, e.fd);
      }
    }
  }

  ghost predicate Next(s: Zone, s': Zone) {
    exists e: Event :: Enabled(s, e) && s' == Apply(s, e)
  }

  ghost predicate IsRun(run: seq<Zone>) {
    && |run| > 0 && Init(run[0])
    && forall i :: 0 <= i < |run| - 1 ==> Next(run[i], run[i + 1])
  }

  lemma {:induction false} RunInv(run: seq<Zone>, i: nat)
    requires IsRun(run) && i < |run|
    ensures Inv(run[i])
  {
    if i == 0 {
      InitInv(run[0]);
    } else {
      RunInv(run, i - 1);
      assert Next(run[i - 1], run[i - 1 + 1]);
      var e :| Enabled(run[i - 1], e) && run[i] == Apply(run[i - 1], e);
      StepKeepsInv(run[i - 1], e);
    }
  }

  /** Over all interleavings, stale slots included: a later slot on the same descriptor is never
      an ending, and never generic behind a signup. */
  lemma LaterSlotIsCompatible(run: seq<Zone>, k: nat, i: nat, j: nat)
    requires IsRun(run) && k < |run| && i < |run[k].slots| && j < |run[k].slots| && i != j
    requires run[k].slots[i].fd == run[k].slots[j].fd != VOID_FD
    requires run[k].slots[i].since <= run[k].slots[j].since
    ensures run[k].slots[j].wop != Ending
    ensures run[k].slots[j].wop == Generic ==> run[k].slots[i].wop != Signup
  {
    RunInv(run, k);
    assert OrderedPair(run[k].slots[i], run[k].slots[j]);
  }

  /** At most one slot per descriptor holds a disconnection or an unregistration. */
  lemma OneEndingPerDescriptor(run: seq<Zone>, k: nat, i: nat, j: nat)
    requires IsRun(run) && k < |run| && i < |run[k].slots| && j < |run[k].slots|
    requires run[k].slots[i].fd == run[k].slots[j].fd != VOID_FD
    requires run[k].slots[i].wop == Ending && run[k].slots[j].wop == Ending
    ensures i == j
  {
    RunInv(run, k);
    assert i != j ==> OrderedPair(run[k].slots[i], run[k].slots[j]) && OrderedPair(run[k].slots[j], run[k].slots[i]);
  }

  /** Exactly what stands in the way of an ending: any other slot on its descriptor, whatever it
      holds and however stale. */
  lemma EndingAdmittedIff(s: Zone, t: nat, fd: int)
    requires t < |s.slots| && fd != VOID_FD
    ensures Admissible(s.slots, t, Ending, fd) <==>
            forall i :: 0 <= i < |s.slots| && i != t ==> s.slots[i].fd != fd
  {
    forall i | 0 <= i < |s.slots| ensures Conflict(s.slots[i], Ending, fd) <==> s.slots[i].fd == fd {}
  }

  /** Exactly what an admitted ending leaves open to the other slaves on its descriptor: another
      ending is refused, while signups and generic operations still get in. */
  lemma AdmittedDuringEndingIff(s: Zone, t: nat, u: nat, fd: int, wop: WorkOp)
    requires t < |s.slots| && u < |s.slots| && t != u && fd != VOID_FD
    requires Admissible(s.slots, t, Ending, fd)
    ensures Admissible(Apply(s, Check(t, Ending, fd)).slots, u, wop, fd) <==> wop != Ending
  {
    EndingAdmittedIff(s, t, fd);
    var s' := Apply(s, Check(t, Ending, fd));
    assert Conflict(s'.slots[t], wop, fd) <==> wop == Ending;
  }

  // ---------------------------------------------------------------- the table in place

  /** The shared table itself. The two arrays are the two fields of its entries. */
  class CriticZone {
    const wops: array<WorkOp>
    const fds: array<int>
    ghost var times: seq<nat>
    ghost var clock: nat

    ghost predicate Valid()
      reads this, wops, fds
    {
      wops.Length == fds.Length == |times|
    }

    ghost function View(): Zone
      reads this, wops, fds
      requires Valid()
    {
      Zone(seq(|times|, i requires 0 <= i < |times| reads this, wops, fds requires Valid() =>
             Slot(wops[i], fds[i], times[i])), clock)
    }

    constructor (slaves: nat)
      ensures Valid() && fresh(wops) && fresh(fds)
      ensures |View().slots| == slaves && Init(View())
    {
      wops := new WorkOp[slaves](_ => Generic);
      fds := new int[slaves](_ => VOID_FD);
      times := seq(slaves, _ => 0);
      clock := 0;
    }

    /** The loop leaves at the first conflict; otherwise it records the operation. */
    method CheckOpConsistence(wop: WorkOp, fd: int, myId: nat) returns (admitted: bool)
      requires Valid() && Enabled(View(), Check(myId, wop, fd))
      modifies this, wops, fds
      ensures Valid()
      ensures admitted <==> Admissible(old(View()).slots, myId, wop, fd)
      ensures View() == Apply(old(View()), Check(myId, wop, fd))
    {
      ghost var before := View();
      for i := 0 to fds.Length
        invariant View() == before && Valid()
        invariant forall k :: 0 <= k < i && k != myId ==> !Conflict(before.slots[k], wop, fd)
      {
        if i != myId && fds[i] == fd {
          assert before.slots[i] == Slot(wops[i], fds[i], times[i]);
          if wop == Generic && wops[i] == Signup {
            assert Conflict(before.slots[i], wop, fd);
            return false;
          }
          if wop == Ending {
            assert Conflict(before.slots[i], wop, fd);
            return false;
          }
        }
      }
      wops[myId] := wop;
      fds[myId] := fd;
      times := times[myId := clock];
      clock := clock + 1;
      assert View().slots == before.slots[myId := Slot(wop, fd, before.clock)];
      return true;
    }

    method CleanCriticZone(myId: nat)
      requires Valid() && Enabled(View(), Clean(myId))
      modifies fds
      ensures Valid()
      ensures View() == Apply(old(View()), Clean(myId))
    {
      ghost var before := View();
      fds[myId] := VOID_FD;
      assert View().slots == before.slots[myId := before.slots[myId].(fd := VOID_FD)];
    }
  }
}
