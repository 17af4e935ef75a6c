/** Closing or destroying the last object that leads to a handle closes the handle. */
module SharingClosing {
  import opened LockedSections
  import opened SmartPointers
  import opened DeviceSharing
  import opened Overlays
  import opened SharingOwnership
  import opened SharingLocks
  import opened SharingRuns
  import opened SharingTheorems
  import opened SharingEffects
  import LockedThreads

  /* ---------- reachable states stay reachable ---------- */

  lemma {:induction false} RunsThenStep(s: State, trace: Trace, t: nat, e: Event)
    requires Runs(s, trace) && Enabled(After(s, trace), t, e)
    ensures Runs(s, trace + [(t, e)]) && After(s, trace + [(t, e)]) == Step(After(s, trace), t, e)
    decreases |trace|
  {
    hide Step, Enabled;
    var longer := trace + [(t, e)];
    if |trace| == 0 {
      assert longer[0] == (t, e) && longer[1..] == [];
    } else {
      assert longer[0] == trace[0] && longer[1..] == trace[1..] + [(t, e)];
      RunsThenStep(Step(s, trace[0].0, trace[0].1), trace[1..], t, e);
    }
  }

  lemma ReachableStep(s: State, t: nat, e: Event)
    requires Reachable(s) && Enabled(s, t, e)
    ensures Reachable(Step(s, t, e))
  {
    hide Step, Enabled, Runs, After;
    var start: State, trace: Trace :| Initial(start) && Runs(start, trace) && After(start, trace) == s;
    RunsThenStep(start, trace, t, e);
  }

  /* ---------- a destruction left alone ---------- */

  /** Nothing but the pointer of thread `t` and members of children may have gone, and only `t` moved. */
  ghost predicate Kept(s: State, s': State, t: nat) {
    && |s'.threads| == |s.threads|
    && (forall u | 0 <= u < |s.threads| && u != t :: s'.threads[u] == s.threads[u])
    && (forall x: Slot | !x.Member? && x != Local(t) :: At(s'.heap, x) == At(s.heap, x))
    && (forall x: Slot | x.Member? :: At(s'.heap, x) == None || At(s'.heap, x) == At(s.heap, x))
    && s.heap.closes.Keys <= s'.heap.closes.Keys
  }

  lemma KeptTwice(s: State, m: State, s': State, t: nat)
    requires Kept(s, m, t) && Kept(m, s', t)
    ensures Kept(s, s', t)
  {
    forall x: Slot | x.Member? ensures At(s'.heap, x) == None || At(s'.heap, x) == At(s.heap, x) {
      assert At(m.heap, x) == None || At(m.heap, x) == At(s.heap, x);
    }
  }

  predicate InDestruction(p: Phase) {
    p.Dropping? || p.ClosingBus? || p.LeavingDevice? || p.ClosingHandle?
  }

  /** Steps to go. */
  function Distance(p: Phase): nat {
    match p
    case Dropping => 4
    case ClosingBus(_) => 3
    case LeavingDevice(_) => 2
    case ClosingHandle(_) => 1
    case _ => 0
  }

  function NextOf(p: Phase): Event
    requires InDestruction(p)
  {
    match p
    case Dropping => Release
    case ClosingBus(_) => BusClose
    case LeavingDevice(_) => LeaveDevice
    case ClosingHandle(_) => HandleClose
  }

  ghost predicate Nearer(s: State, s': State, t: nat) {
    && t < |s.threads| && t < |s'.threads| && Kept(s, s', t)
    && (s'.threads[t].Idle? || InDestruction(s'.threads[t]))
    && Distance(s'.threads[t]) < Distance(s.threads[t])
  }

  lemma ReleaseNearer(s: State, t: nat)
    requires Reachable(s) && Enabled(s, t, Release)
    ensures Nearer(s, Step(s, t, Release), t)
  {
    ReleaseDestroysLast(s, t);
    assert s.threads[t].Dropping?;
    hide Step, Reachable, Enabled;
  }

  lemma LeaveNearer(s: State, t: nat)
    requires Reachable(s) && Enabled(s, t, LeaveDevice)
    ensures Nearer(s, Step(s, t, LeaveDevice), t)
  {
    LeavingDestroysLast(s, t);
    assert s.threads[t].LeavingDevice?;
    hide Step, Reachable, Enabled;
  }

  lemma CloseNearer(s: State, t: nat, e: Event)
    requires Enabled(s, t, e) && (e == BusClose || e == HandleClose)
    ensures Nearer(s, Step(s, t, e), t)
  {
  }

  lemma DestructionStep(s: State, t: nat)
    requires Reachable(s) && t < |s.threads| && InDestruction(s.threads[t])
    ensures Enabled(s, t, NextOf(s.threads[t])) && Nearer(s, Step(s, t, NextOf(s.threads[t])), t)
  {
    hide Reachable, Step, Nearer;
    match s.threads[t]
    case Dropping => ReleaseNearer(s, t);
    case LeavingDevice(_) => LeaveNearer(s, t);
    case ClosingBus(_) => CloseNearer(s, t, BusClose);
    case ClosingHandle(_) => CloseNearer(s, t, HandleClose);
  }

  /** A thread that drops a pointer and is left alone gets to its end. */
  lemma {:induction false} DestructionEnds(s: State, t: nat) returns (trace: Trace)
    requires Reachable(s) && t < |s.threads| && (s.threads[t].Idle? || InDestruction(s.threads[t]))
    ensures Runs(s, trace) && LockedThreads.OnlyBy(trace, t)
    ensures var s' := After(s, trace);
            Reachable(s') && Kept(s, s', t) && t < |s'.threads| && s'.threads[t].Idle?
    decreases Distance(s.threads[t])
  {
    hide Reachable, Step, Enabled, Kept;
    if s.threads[t].Idle? {
      trace := [];
      KeptHere(s, t);
    } else {
      var e := NextOf(s.threads[t]);
      DestructionStep(s, t);
      ReachableStep(s, t, e);
      var next := Step(s, t, e);
      var rest := DestructionEnds(next, t);
      trace := [(t, e)] + rest;
      LockedThreads.RunsFirst(s, t, e, rest);
      KeptTwice(s, next, After(next, rest), t);
    }
  }

  lemma KeptHere(s: State, t: nat)
    ensures Kept(s, s, t)
  {
  }

  /* ---------- who else leads to the handle ---------- */

  ghost predicate LedOtherwise(h: Heap, a: nat, handle: nat) {
    exists x :: x != Object(a) && Leads(h, x, handle)
  }

  lemma LeadsAt(s: State, x: Slot, handle: nat)
    requires Reachable(s)
    ensures Leads(s.heap, x, handle)
            <==> && !x.Member? && At(s.heap, x).Some?
                 && var r := At(s.heap, x).value;
                    r == Dev(handle) || (r.Kid? && At(s.heap, Member(r)) == Some(Dev(handle)))
  {
    hide LocksOk, Known, Counted;
    ReachableInvariant(s);
  }

  /** The child of a block that somebody points to has its device. */
  lemma ChildHasMember(s: State, x: Slot)
    requires Reachable(s) && At(s.heap, x).Some? && At(s.heap, x).value.Kid?
    ensures At(s.heap, Member(At(s.heap, x).value)).Some?
  {
    hide LocksOk, Known;
    ReachableInvariant(s);
    CountedIsLive(s.heap);
    hide Counted, Reachable;
  }

  lemma AtWorkAt(s: State, u: nat, handle: nat)
    requires Reachable(s) && u < |s.threads|
    ensures s.threads[u].ClosingBus? || s.threads[u].LeavingDevice? ==> At(s.heap, Member(s.threads[u].kid)).Some?
    ensures AtWork(s.heap, s.threads[u], handle)
            <==> match s.threads[u]
                 case Guarded(d, _) => d == handle
                 case ClosingHandle(d) => d == handle
                 case ClosingBus(k) => At(s.heap, Member(k)) == Some(Dev(handle))
                 case LeavingDevice(k) => At(s.heap, Member(k)) == Some(Dev(handle))
                 case _ => false
  {
    hide LocksOk, Known, Counted;
    ReachableInvariant(s);
    assert PhaseOk(s.heap, u, s.threads[u]);
    hide Reachable;
  }

  /** From a state in which the thread was idle to one in which it is again, object `a` having been emptied. */
  ghost predicate Emptied(s: State, s': State, t: nat, a: nat) {
    && Reachable(s) && Reachable(s') && t < |s.threads| && |s'.threads| == |s.threads|
    && s.threads[t].Idle? && s'.threads[t].Idle?
    && (forall u | 0 <= u < |s.threads| && u != t :: s'.threads[u] == s.threads[u])
    && At(s'.heap, Object(a)) == None && At(s.heap, Local(t)) == None && At(s'.heap, Local(t)) == None
    && (forall x: Slot | !x.Member? && x != Local(t) && x != Object(a) :: At(s'.heap, x) == At(s.heap, x))
    && (forall x: Slot | x.Member? :: At(s'.heap, x) == None || At(s'.heap, x) == At(s.heap, x))
  }

  lemma LeadsAfter(s: State, s': State, t: nat, a: nat, x: Slot, handle: nat)
    requires Emptied(s, s', t, a)
    ensures Leads(s'.heap, x, handle) <==> x != Object(a) && Leads(s.heap, x, handle)
  {
    hide Reachable, Leads;
    LeadsAt(s, x, handle);
    LeadsAt(s', x, handle);
    if !x.Member? && At(s'.heap, x).Some? && At(s'.heap, x).value.Kid? {
      ChildHasMember(s', x);
    }
  }

  lemma AtWorkAfter(s: State, s': State, t: nat, a: nat, u: nat, handle: nat)
    requires Emptied(s, s', t, a) && u < |s.threads|
    ensures AtWork(s'.heap, s'.threads[u], handle) <==> AtWork(s.heap, s.threads[u], handle)
  {
    hide Reachable, AtWork;
    AtWorkAt(s, u, handle);
    AtWorkAt(s', u, handle);
  }

  lemma LedAfter(s: State, s': State, t: nat, a: nat, handle: nat)
    requires Emptied(s, s', t, a)
    ensures Led(s'.heap, handle) <==> LedOtherwise(s.heap, a, handle)
    ensures BeingDone(s', handle) <==> BeingDone(s, handle)
  {
    hide Leads, AtWork;
    if x :| Leads(s'.heap, x, handle) {
      LeadsAfter(s, s', t, a, x, handle);
    }
    if x :| x != Object(a) && Leads(s.heap, x, handle) {
      LeadsAfter(s, s', t, a, x, handle);
    }
    if u :| 0 <= u < |s.threads| && AtWork(s.heap, s.threads[u], handle) {
      AtWorkAfter(s, s', t, a, u, handle);
    }
    if u :| 0 <= u < |s'.threads| && AtWork(s'.heap, s'.threads[u], handle) {
      AtWorkAfter(s, s', t, a, u, handle);
    }
  }

  /** The run that closes object `a` and then only finishes what that began. */
  lemma CloseAndFinish(s: State, t: nat, a: nat, e: Event, handle: nat) returns (trace: Trace)
    requires Reachable(s) && Enabled(s, t, e) && (e == Reset(a) || e == Destroy(a)) && Leads(s.heap, Object(a), handle)
    ensures |trace| > 0 && trace[0] == (t, e) && Runs(s, trace) && LockedThreads.OnlyBy(trace, t)
    ensures var s' := After(s, trace);
            && t < |s'.threads| && s'.threads[t].Idle? && Dev(handle) in s'.heap.closes
            && (s'.heap.closes[Dev(handle)] == 1 <==> !LedOtherwise(s.heap, a, handle) && !BeingDone(s, handle))
            && (s'.heap.closes[Dev(handle)] == 0 <==> LedOtherwise(s.heap, a, handle) || BeingDone(s, handle))
  {
    assert t < |s.threads| && s.threads[t].Idle?;
    LeadsIsKnown(s, a, handle);
    CloseEmpties(s, t, a, e);
    ReachableStep(s, t, e);
    hide Reachable, Enabled, Step, Leads, Led, BeingDone, LedOtherwise;
    var next := Step(s, t, e);
    KeysStay(s, t, e);
    var rest := DestructionEnds(next, t);
    trace := [(t, e)] + rest;
    LockedThreads.RunsFirst(s, t, e, rest);
    var s' := After(next, rest);
    IdleHasNoLocal(s, t);
    IdleHasNoLocal(s', t);
    assert Emptied(s, s', t, a);
    LedAfter(s, s', t, a, handle);
    OpenIffLed(s', handle);
  }

  /** A thread that closes or destroys an object that leads to a handle, and is left alone, ends with the handle
      closed, once, iff no other pointer leads to it and no other thread is about to own it or to let go of it;
      otherwise the handle stays open. */
  lemma LastCloseClosesIff(s: State, t: nat, a: nat, e: Event, handle: nat)
    requires Reachable(s) && Enabled(s, t, e) && (e == Reset(a) || e == Destroy(a)) && Leads(s.heap, Object(a), handle)
    ensures exists trace: Trace ::
              && |trace| > 0 && trace[0] == (t, e) && Runs(s, trace) && LockedThreads.OnlyBy(trace, t)
              && var s' := After(s, trace);
                 && t < |s'.threads| && s'.threads[t].Idle? && Dev(handle) in s'.heap.closes
                 && s'.heap.closes[Dev(handle)]
                    == if LedOtherwise(s.heap, a, handle) || BeingDone(s, handle) then 0 else 1
  {
    var trace := CloseAndFinish(s, t, a, e, handle);
    hide Reachable, Enabled, Step, Leads, LedOtherwise, BeingDone;
  }

  lemma KeysStay(s: State, t: nat, e: Event)
    requires Enabled(s, t, e) && (e.Reset? || e.Destroy?)
    ensures Step(s, t, e).heap.closes == s.heap.closes
  {
  }

  lemma LeadsIsKnown(s: State, a: nat, handle: nat)
    requires Reachable(s) && Leads(s.heap, Object(a), handle)
    ensures Dev(handle) in s.heap.closes
  {
    hide LocksOk, Known;
    ReachableInvariant(s);
    CountedIsLive(s.heap);
    LedIsOpen(s, Object(a), handle);
  }
}
