/** A thread of the transition system runs a section as the operation that it belongs to does. */
module LockedThreads {
  import opened LockedSections
  import opened DeviceSharing
  import LockDiscipline
  import opened SharingLocks
  import opened SharingRuns

  ghost predicate OnlyBy(trace: Trace, t: nat) {
    forall i | 0 <= i < |trace| :: trace[i].0 == t
  }

  /** The mutex is free again, the hardware is `now`, and the last section of the history ended this way. */
  ghost predicate Ended(s: State, handle: nat, now: Hardware, count: nat, section: Section, outcome: Outcome) {
    && handle in s.locks.hardware && handle in s.locks.history && handle !in s.locks.holder
    && s.locks.hardware[handle] == now && |s.locks.history[handle]| == count > 0
    && var last := s.locks.history[handle][count - 1];
       last.section == section && last.progress.Done? && last.progress.outcome == outcome
  }

  lemma UnlockEnds(s: State, t: nat)
    requires Locked(s) && Enabled(s, t, Unlock)
    ensures var handle, exec := s.threads[t].handle, s.threads[t].exec;
            && handle in s.locks.history && handle in s.locks.hardware && |s.locks.history[handle]| > 0
            && var log := s.locks.history[handle];
               Ended(Step(s, t, Unlock), handle, s.locks.hardware[handle], |log|, log[|log| - 1].section,
                     OutcomeOf(exec))
  {
    hide LocksOk, HeapStep;
    HolderHasLog(s, t);
    UnlockEffect(s, t);
  }

  /** A holder left alone completes its section. */
  lemma {:induction false} HolderCompletes(s: State, t: nat) returns (trace: Trace)
    requires Locked(s) && t < |s.threads| && s.threads[t].Holding?
    ensures Runs(s, trace) && OnlyBy(trace, t)
    ensures var handle := s.threads[t].handle;
            && handle in s.locks.history && handle in s.locks.hardware && |s.locks.history[handle]| > 0
            && var log := s.locks.history[handle];
               var (now, outcome) := Complete(s.threads[t].exec, s.locks.hardware[handle]);
               Ended(After(s, trace), handle, now, |log|, log[|log| - 1].section, outcome)
    decreases if s.threads[t].exec.Running? then |s.threads[t].exec.rest| + 1 else 0
  {
    hide LocksOk, Locked, Step, HeapStep, Ended;
    HolderHasLog(s, t);
    if Finishing(s.threads[t].exec) {
      UnlockEnds(s, t);
      trace := [(t, Unlock)];
      RunsOne(s, t, Unlock);
    } else {
      var next := Step(s, t, Native);
      NativeEffect(s, t);
      NativeLocked(s, t);
      var rest := HolderCompletes(next, t);
      trace := [(t, Native)] + rest;
      RunsFirst(s, t, Native, rest);
    }
  }

  lemma RunsOne(s: State, t: nat, e: Event)
    requires Enabled(s, t, e)
    ensures Runs(s, [(t, e)]) && After(s, [(t, e)]) == Step(s, t, e)
  {
    assert [(t, e)][1..] == [];
  }

  lemma RunsFirst(s: State, t: nat, e: Event, rest: Trace)
    requires Enabled(s, t, e) && Runs(Step(s, t, e), rest)
    ensures Runs(s, [(t, e)] + rest) && After(s, [(t, e)] + rest) == After(Step(s, t, e), rest)
  {
    assert ([(t, e)] + rest)[1..] == rest;
  }

  /** A waiter left alone at a free mutex runs its section atomically. */
  lemma WaiterCompletes(s: State, t: nat) returns (trace: Trace)
    requires Locked(s) && t < |s.threads| && s.threads[t].Waiting? && s.threads[t].handle !in s.locks.holder
    ensures Runs(s, trace) && OnlyBy(trace, t)
    ensures var handle, section := s.threads[t].handle, s.threads[t].section;
            && handle in s.locks.history && handle in s.locks.hardware
            && var (now, outcome) := Atomic(section, s.locks.hardware[handle]);
               Ended(After(s, trace), handle, now, |s.locks.history[handle]| + 1, section, outcome)
  {
    hide LocksOk, Locked, Step, HeapStep, Ended;
    HolderHasLog(s, t);
    var next := Step(s, t, Acquire);
    AcquireEffect(s, t);
    AcquireLocked(s, t);
    var rest := HolderCompletes(next, t);
    trace := [(t, Acquire)] + rest;
    RunsFirst(s, t, Acquire, rest);
  }

  /** An operation whose local code has computed where its section starts, and whose thread waits for a free
      mutex with that section: left alone, the thread leaves the hardware and ends the section as the shape of
      the operation says. */
  lemma ThreadFollowsShape(s: State, t: nat, shape: LockDiscipline.Shape, l: Locals)
    returns (trace: Trace, outcome: Outcome)
    requires Reachable(s) && t < |s.threads| && s.threads[t].Waiting? && s.threads[t].handle !in s.locks.holder
    requires shape.locks && LockDiscipline.ComputeAll(shape.before, l).Ok?
    requires s.threads[t].section == Section(LockDiscipline.ComputeAll(shape.before, l).locals, shape.section)
    ensures Runs(s, trace) && OnlyBy(trace, t)
    ensures var handle := s.threads[t].handle;
            && handle in s.locks.hardware && handle in s.locks.history
            && var (now, ending) := LockDiscipline.Staged(shape, s.locks.hardware[handle], l);
               && Ended(After(s, trace), handle, now, |s.locks.history[handle]| + 1, s.threads[t].section, outcome)
               && ending == match outcome
                            case Threw(error) => LockDiscipline.Raised(error)
                            case Returned(l') => LockDiscipline.EndOf(LockDiscipline.ComputeAll(shape.after, l'))
  {
    hide Locked, Runs, After, Ended, Atomic, Reachable;
    LocksOfReachable(s, t);
    trace := WaiterCompletes(s, t);
    outcome := Atomic(s.threads[t].section, s.locks.hardware[s.threads[t].handle]).1;
  }

  lemma LocksOfReachable(s: State, t: nat)
    requires Reachable(s) && t < |s.threads| && s.threads[t].Waiting?
    ensures Locked(s) && s.threads[t].handle in s.locks.hardware
  {
    hide LocksOk, Reachable;
    ReachableInvariant(s);
    HolderHasLog(s, t);
  }
}
