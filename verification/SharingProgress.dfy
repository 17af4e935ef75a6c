/** Nothing gets stuck, and finitely many operations take finitely many steps. */
module SharingProgress {
  import opened LockedSections
  import opened SmartPointers
  import opened DeviceSharing
  import opened SharingOwnership
  import opened SharingLocks
  import opened SharingRuns

  /* ---------- deadlock freedom ---------- */

  /** There is always a name left for a new object. */
  lemma FreshName(objects: map<nat, Sort>) returns (b: nat)
    ensures b !in objects
  {
    b := FreshFor(objects.Keys);
  }

  lemma FreshFor(used: set<nat>) returns (b: nat)
    ensures forall n | n in used :: n < b
    decreases used
  {
    if used == {} {
      b := 0;
    } else {
      var m :| m in used;
      var c := FreshFor(used - {m});
      b := if m < c then c else m + 1;
      assert forall n | n in used :: n == m || n in used - {m};
    }
  }

  /** A busy thread that does not wait for a mutex can go on. */
  lemma BusyCanStep(s: State, t: nat) returns (e: Event)
    requires t < |s.threads| && !s.threads[t].Idle? && !s.threads[t].Waiting?
    ensures Enabled(s, t, e) && !Begins(e)
  {
    match s.threads[t]
    case Guarded(_, _) => e := BuildState;
    case Doubled(_, _) => e := ReleaseGuard;
    case Holding(_, _, exec) => if Finishing(exec) { e := Unlock; } else { e := Native; }
    case Publishing => var b := FreshName(s.heap.objects); e := Publish(b);
    case Dropping => e := Release;
    case ClosingBus(_) => e := BusClose;
    case LeavingDevice(_) => e := LeaveDevice;
    case ClosingHandle(_) => e := HandleClose;
  }

  lemma FreeMutexCanBeTaken(s: State, t: nat)
    requires t < |s.threads| && s.threads[t].Waiting? && s.threads[t].handle !in s.locks.holder
    ensures Enabled(s, t, Acquire)
  {
  }

  /** No deadlock: while any thread is in the middle of an operation, some thread can take a step of
      an operation that is already under way. */
  lemma DeadlockFree(s: State, t: nat) returns (u: nat, e: Event)
    requires Reachable(s) && t < |s.threads| && !s.threads[t].Idle?
    ensures Enabled(s, u, e) && !Begins(e)
  {
    hide Sound;
    ReachableInvariant(s);
    var handle := if s.threads[t].Waiting? then s.threads[t].handle else 0;
    assert handle in s.locks.holder ==>
             s.locks.holder[handle] < |s.threads| && s.threads[s.locks.holder[handle]].Holding?;
    hide Reachable, Locked, Enabled;
    if s.threads[t].Waiting? {
      if handle in s.locks.holder {
        u := s.locks.holder[handle];
        e := BusyCanStep(s, u);
      } else {
        u, e := t, Acquire;
        FreeMutexCanBeTaken(s, t);
      }
    } else {
      u := t;
      e := BusyCanStep(s, t);
    }
  }

  /* ---------- termination ---------- */

  /** Steps that a thread still needs for the operation it is in. */
  ghost function Left(p: Phase): nat {
    match p
    case Idle => 0
    case Guarded(_, setup) => |setup.body| + 9
    case Doubled(_, setup) => |setup.body| + 8
    case Waiting(_, _, section, _) => |section.body| + 7
    case Holding(_, _, Running(rest, _)) => |rest| + 6
    case Holding(_, _, Finished(_)) => 5
    case Publishing => 1
    case Dropping => 4
    case ClosingBus(_) => 3
    case LeavingDevice(_) => 2
    case ClosingHandle(_) => 1
  }

  ghost function Total(ps: seq<Phase>): nat {
    if |ps| == 0 then 0 else Total(ps[..|ps| - 1]) + Left(ps[|ps| - 1])
  }

  lemma {:induction false} TotalUpdate(ps: seq<Phase>, t: nat, p: Phase)
    requires t < |ps|
    ensures Total(ps[t := p]) + Left(ps[t]) == Total(ps) + Left(p)
  {
    var last := |ps| - 1;
    if t == last {
      assert ps[t := p][..last] == ps[..last];
    } else {
      assert ps[t := p][..last] == ps[..last][t := p];
      TotalUpdate(ps[..last], t, p);
    }
  }

  /** The steps an operation may take, its first one included: known when it begins. */
  ghost function Budget(e: Event): nat {
    match e
    case Open(_, _, setup) => |setup.body| + 10
    case Call(_, section) => |section.body| + 8
    case MakeChild(_, _, _, section) => |section.body| + 8
    case Refuse(_) => 1
    case MakePoller(_, _) => 2
    case CopyNew(_, _) => 1
    case MoveNew(_, _) => 1
    case CopyAssign(_, _) => 5
    case MoveAssign(_, _) => 5
    case Reset(_) => 5
    case Destroy(_) => 5
    case _ => 0
  }

  ghost function Budgets(trace: Trace): nat {
    if |trace| == 0 then 0 else Budget(trace[0].1) + Budgets(trace[1..])
  }

  /** The native steps and the lock steps. */
  lemma SectionStepPays(s: State, t: nat, e: Event)
    requires Invariant(s) && Enabled(s, t, e)
    requires e.NoStateMemory? || e.BuildState? || e.ReleaseGuard? || e.Acquire? || e.Native? || e.Unlock?
    ensures Left(HeapStep(s, t, e).1) < Left(s.threads[t])
  {
    hide Sound, LocksOk;
    if e.Native? { HolderHasLog(s, t); }
  }

  lemma EndStepPays(s: State, t: nat, e: Event)
    requires Enabled(s, t, e) && (e.Publish? || e.Release? || e.BusClose? || e.HandleClose?)
    ensures Left(HeapStep(s, t, e).1) < Left(s.threads[t])
  {
  }

  lemma LeaveDevicePays(s: State, t: nat)
    requires Invariant(s) && Enabled(s, t, LeaveDevice)
    ensures Left(HeapStep(s, t, LeaveDevice).1) < Left(s.threads[t])
  {
    hide Sound, LocksOk;
    MemberIsDevice(s, t);
  }

  /** A child state refers to the state of a device. */
  lemma MemberIsDevice(s: State, t: nat)
    requires Sound(s) && t < |s.threads| && s.threads[t].LeavingDevice?
    ensures Member(s.threads[t].kid) in s.heap.owners && s.heap.owners[Member(s.threads[t].kid)].Dev?
  {
    assert PhaseOk(s.heap, t, s.threads[t]);
  }

  lemma BeginStepPays(s: State, t: nat, e: Event)
    requires Enabled(s, t, e) && Begins(e)
    ensures Left(HeapStep(s, t, e).1) < Budget(e) && Left(s.threads[t]) == 0
  {
  }

  lemma StepPays(s: State, t: nat, e: Event)
    requires Invariant(s) && Enabled(s, t, e)
    ensures Total(Step(s, t, e).threads) + 1 <= Total(s.threads) + Budget(e)
  {
    hide Invariant, HeapStep, LocksStep;
    TotalUpdate(s.threads, t, HeapStep(s, t, e).1);
    if Begins(e) { BeginStepPays(s, t, e); }
    else if e.LeaveDevice? { LeaveDevicePays(s, t); }
    else if e.Publish? || e.Release? || e.BusClose? || e.HandleClose? { EndStepPays(s, t, e); }
    else { SectionStepPays(s, t, e); }
  }

  /** Termination: a run has no more steps than the operations begun in it, and those under way at
      its start, have paid for. */
  lemma {:induction false} RunsAreBounded(s: State, trace: Trace)
    requires Invariant(s) && Runs(s, trace)
    ensures |trace| + Total(After(s, trace).threads) <= Total(s.threads) + Budgets(trace)
    decreases |trace|
  {
    if |trace| > 0 {
      hide Invariant, Step, Enabled;
      var s' := Step(s, trace[0].0, trace[0].1);
      StepPays(s, trace[0].0, trace[0].1);
      StepInvariant(s, trace[0].0, trace[0].1);
      RunsAreBounded(s', trace[1..]);
    }
  }
}
