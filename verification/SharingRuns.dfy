/** Both invariants along every run. */
module SharingRuns {
  import opened LockedSections
  import opened SmartPointers
  import opened DeviceSharing
  import opened SharingOwnership
  import opened SharingLocks

  ghost predicate Invariant(s: State) {
    Sound(s) && Locked(s)
  }

  /** The handle that a thread with a job is working on is one that was opened. */
  lemma JobHandleKnown(s: State, handle: nat)
    requires Sound(s) && Locked(s) && Dev(handle) in s.heap.counts
    ensures handle in s.locks.history
  {
    assert Dev(handle) in s.heap.closes;
  }

  lemma ReachedIsCounted(h: Heap, a: nat, handle: nat)
    requires Live(h) && Reaches(h, a, handle)
    ensures Dev(handle) in h.counts && h.counts[Dev(handle)] > 0
  {
  }

  lemma AcquireEffect(s: State, t: nat)
    requires Enabled(s, t, Acquire)
    requires s.threads[t].handle in s.locks.history && s.threads[t].handle in s.locks.hardware
    ensures var s', p := Step(s, t, Acquire), s.threads[t];
            && s'.locks == AcquiredBy(s.locks, t, p, s.clock) && s'.clock == s.clock + 1
            && s'.threads == s.threads[t := Holding(p.handle, p.job, Running(p.section.body, p.section.start))]
            && s'.heap == s.heap
  {
  }

  lemma NativeEffect(s: State, t: nat)
    requires Enabled(s, t, Native)
    requires s.threads[t].handle in s.locks.history && s.threads[t].handle in s.locks.hardware
    requires s.threads[t].handle in s.locks.holder && s.locks.holder[s.threads[t].handle] == t
    ensures var s', p := Step(s, t, Native), s.threads[t];
            && s'.locks == AfterNative(s.locks, p) && s'.clock == s.clock + 1
            && s'.threads == s.threads[t := p.(exec := Advance(p.exec, s.locks.hardware[p.handle]).1)]
            && s'.heap == s.heap
  {
  }

  lemma UnlockEffect(s: State, t: nat)
    requires Enabled(s, t, Unlock)
    requires s.threads[t].handle in s.locks.history && s.threads[t].handle in s.locks.hardware
    requires |s.locks.history[s.threads[t].handle]| > 0
    ensures var s', p := Step(s, t, Unlock), s.threads[t];
            && s'.locks == AfterUnlock(s.locks, p, s.clock) && s'.clock == s.clock + 1
            && s'.threads == s.threads[t := HeapStep(s, t, Unlock).1]
            && !Involved(HeapStep(s, t, Unlock).1)
            && s'.heap.closes == s.heap.closes
  {
  }

  /** A thread that waits for or holds a mutex has its log; a holder is in it. */
  lemma HolderHasLog(s: State, t: nat)
    requires Locked(s) && t < |s.threads| && Involved(s.threads[t])
    ensures var handle := s.threads[t].handle;
            && handle in s.locks.history && handle in s.locks.hardware
            && (s.threads[t].Holding? ==>
                 handle in s.locks.holder && s.locks.holder[handle] == t && |s.locks.history[handle]| > 0)
  {
    assert s.threads[t].handle in s.locks.history;
    assert LogOk(s.locks, s.threads, s.threads[t].handle);
  }

  lemma AcquireLocked(s: State, t: nat)
    requires Locked(s) && Enabled(s, t, Acquire)
    ensures Locked(Step(s, t, Acquire))
  {
    hide LocksOk, Step;
    HolderHasLog(s, t);
    AcquireEffect(s, t);
    AcquireOk(s.locks, s.threads, t, s.clock);
  }

  lemma NativeLocked(s: State, t: nat)
    requires Locked(s) && Enabled(s, t, Native)
    ensures Locked(Step(s, t, Native))
  {
    hide LocksOk, Step;
    HolderHasLog(s, t);
    NativeEffect(s, t);
    NativeOk(s.locks, s.threads, t, s.clock);
  }

  lemma UnlockLocked(s: State, t: nat)
    requires Locked(s) && Enabled(s, t, Unlock)
    ensures Locked(Step(s, t, Unlock))
  {
    hide LocksOk, Step;
    HolderHasLog(s, t);
    UnlockEffect(s, t);
    UnlockOk(s.locks, s.threads, t, HeapStep(s, t, Unlock).1, s.clock);
  }

  lemma OpenLocked(s: State, t: nat, e: Event)
    requires Locked(s) && Enabled(s, t, e) && e.Open?
    ensures Locked(Step(s, t, e))
  {
    hide LocksOk;
    OpenOk(s.locks, s.threads, t, e.handle, e.hardware, Guarded(e.handle, e.setup), s.clock);
  }

  lemma CallLocked(s: State, t: nat, e: Event)
    requires Invariant(s) && Enabled(s, t, e) && (e.Call? || e.MakeChild? || e.MakePoller?)
    ensures Locked(Step(s, t, e))
  {
    hide Counted, Owned, LocksOk;
    CountedIsLive(s.heap);
    if e.Call? {
      ReachedIsCounted(s.heap, e.name, HandleOf(s.heap, e.name));
      JobHandleKnown(s, HandleOf(s.heap, e.name));
    } else {
      var handle :| HoldsDevice(s.heap, e.name, handle);
      ReachedIsCounted(s.heap, e.name, handle);
      JobHandleKnown(s, handle);
    }
    hide LocksOk;
    QuietOk(s.locks, s.threads, t, HeapStep(s, t, e).1, s.clock);
  }

  /** What the remaining steps have in common. */
  ghost predicate Quiet(s: State, t: nat, s': State)
    requires t < |s.threads|
  {
    && s'.locks == s.locks && s'.clock == s.clock + 1
    && |s'.threads| == |s.threads| && s'.threads == s.threads[t := s'.threads[t]]
    && !s.threads[t].Holding? && !s'.threads[t].Holding?
    && (Involved(s'.threads[t]) ==> Involved(s.threads[t]) && s'.threads[t].handle == s.threads[t].handle)
    && (s'.threads[t].Waiting? ==> s'.threads[t].invoked <= s.clock)
    && (forall r | r in s'.heap.closes && r.Dev? && r !in s.heap.closes ::
          Involved(s.threads[t]) && r.handle == s.threads[t].handle)
  }

  lemma SetUpQuiet(s: State, t: nat, e: Event)
    requires Enabled(s, t, e)
    requires e.Refuse? || e.NoStateMemory? || e.BuildState? || e.ReleaseGuard? || e.BusClose? || e.HandleClose?
    ensures Quiet(s, t, Step(s, t, e))
  {
  }

  lemma MoveQuiet(s: State, t: nat, e: Event)
    requires Enabled(s, t, e)
    requires || e.CopyNew? || e.MoveNew? || e.CopyAssign? || e.MoveAssign? || e.Reset? || e.Destroy?
             || e.Publish? || e.Release? || e.LeaveDevice?
    ensures Quiet(s, t, Step(s, t, e))
  {
  }

  lemma QuietLocked(s: State, t: nat, s': State)
    requires Locked(s) && t < |s.threads| && Quiet(s, t, s')
    ensures Locked(s')
  {
    hide LocksOk;
    if Involved(s.threads[t]) { HolderHasLog(s, t); }
    QuietOk(s.locks, s.threads, t, s'.threads[t], s.clock);
  }

  lemma StepInvariant(s: State, t: nat, e: Event)
    requires Invariant(s) && Enabled(s, t, e)
    ensures Invariant(Step(s, t, e))
  {
    hide Sound, Locked, Step, Quiet;
    StepSound(s, t, e);
    if e.Acquire? { AcquireLocked(s, t); }
    else if e.Native? { NativeLocked(s, t); }
    else if e.Unlock? { UnlockLocked(s, t); }
    else if e.Open? { OpenLocked(s, t, e); }
    else if e.Call? || e.MakeChild? || e.MakePoller? { CallLocked(s, t, e); }
    else if e.Refuse? || e.NoStateMemory? || e.BuildState? || e.ReleaseGuard? || e.BusClose? || e.HandleClose? {
      SetUpQuiet(s, t, e);
      QuietLocked(s, t, Step(s, t, e));
    } else {
      MoveQuiet(s, t, e);
      QuietLocked(s, t, Step(s, t, e));
    }
  }

  lemma {:induction false} RunInvariant(s: State, trace: Trace)
    requires Invariant(s) && Runs(s, trace)
    ensures Invariant(After(s, trace))
    decreases |trace|
  {
    if |trace| > 0 {
      StepInvariant(s, trace[0].0, trace[0].1);
      RunInvariant(Step(s, trace[0].0, trace[0].1), trace[1..]);
    }
  }

  /** A state that some run from nothing ends in. */
  ghost predicate Reachable(s: State) {
    exists start: State, trace: Trace :: Initial(start) && Runs(start, trace) && After(start, trace) == s
  }

  lemma ReachableInvariant(s: State)
    requires Reachable(s)
    ensures Invariant(s)
  {
    var start: State, trace: Trace :| Initial(start) && Runs(start, trace) && After(start, trace) == s;
    InitialSound(start);
    InitialLocked(start);
    RunInvariant(start, trace);
  }
}
