/** What constructors and factories hand out belongs to the caller alone. */
module SharingResults {
  import opened LockedSections
  import opened SmartPointers
  import opened DeviceSharing
  import opened SharingOwnership
  import opened SharingLocks
  import opened SharingRuns
  import opened SharingTheorems

  /** Local(t) holds a result that was not handed out yet. */
  predicate Making(p: Phase) {
    p.Doubled? || p.Publishing? || ((p.Waiting? || p.Holding?) && !p.job.Method?)
  }

  ghost predicate SoleOwner(h: Heap, w: Slot) {
    w in h.owners && forall x | x in h.owners && h.owners[x] == h.owners[w] :: x == w
  }

  ghost predicate ResultsPrivate(h: Heap, ps: seq<Phase>) {
    forall t: nat | t < |ps| && Making(ps[t]) :: SoleOwner(h, Local(t))
  }

  /** Every pointer of `h'` was there before, points to something new, or comes from a pointer that
      thread `t` may read: one of the user's objects, or its own local variable. */
  ghost predicate FromReadable(h: Heap, h': Heap, t: nat) {
    && (forall u: nat | u != t :: SameSlot(h, h', Local(u)))
    && forall x | x in h'.owners ::
         || SameSlot(h, h', x)
         || h'.owners[x] !in h.counts
         || exists y: Slot :: y in h.owners && h.owners[y] == h'.owners[x] && (y.Object? || y == Local(t))
  }

  /** No pointer is made, at most one is dropped. */
  ghost predicate OnlyDrops(h: Heap, h': Heap, t: nat) {
    forall x | x in h'.owners || (x in h.owners && x.Local? && x != Local(t)) :: SameSlot(h, h', x)
  }

  lemma DropsFromReadable(h: Heap, h': Heap, t: nat)
    requires OnlyDrops(h, h', t)
    ensures FromReadable(h, h', t)
  {
    forall u: nat | u != t ensures SameSlot(h, h', Local(u)) {
    }
  }

  lemma MakeFromReadable(s: State, t: nat, e: Event)
    requires Enabled(s, t, e) && Local(t) !in s.heap.owners
    requires e.MakeChild? || e.MakePoller? || (e.BuildState? && Dev(s.threads[t].handle) !in s.heap.counts)
    ensures FromReadable(s.heap, Step(s, t, e).heap, t)
  {
    if !e.BuildState? {
      assert Object(e.name) in s.heap.owners;
    }
  }

  lemma NewObjectFromReadable(s: State, t: nat, e: Event)
    requires Enabled(s, t, e) && Local(t) !in s.heap.owners && (e.CopyNew? || e.MoveNew?)
    ensures FromReadable(s.heap, Step(s, t, e).heap, t)
  {
    assert Object(e.source).Object?;
  }

  lemma GiveUpFromReadable(s: State, t: nat, e: Event)
    requires Enabled(s, t, e) && Local(t) !in s.heap.owners && (e.Reset? || e.Destroy?)
    ensures FromReadable(s.heap, Step(s, t, e).heap, t)
  {
    assert Object(e.name).Object?;
  }

  lemma AssignHeapFromReadable(h: Heap, t: nat, a: nat, b: nat)
    requires Local(t) !in h.owners && a != b
    ensures FromReadable(h, CopyInto(TakeOut(h, b, t), a, b), t)
    ensures FromReadable(h, Shift(TakeOut(h, b, t), Object(a), Object(b)), t)
  {
    assert Object(a).Object? && Object(b).Object?;
  }

  lemma AssignFromReadable(s: State, t: nat, e: Event)
    requires Enabled(s, t, e) && Local(t) !in s.heap.owners && (e.CopyAssign? || e.MoveAssign?)
    ensures FromReadable(s.heap, Step(s, t, e).heap, t)
  {
    hide FromReadable;
    if e.source == e.target {
      DropsFromReadable(s.heap, s.heap, t);
    } else {
      AssignHeapFromReadable(s.heap, t, e.source, e.target);
    }
  }

  lemma PublishFromReadable(s: State, t: nat, e: Event)
    requires Enabled(s, t, e) && e.Publish?
    ensures FromReadable(s.heap, Step(s, t, e).heap, t)
  {
  }

  lemma EndsOnlyDrop(s: State, t: nat, e: Event)
    requires Enabled(s, t, e)
    requires e.Release? || e.BusClose? || e.LeaveDevice? || e.HandleClose? || e.NoStateMemory?
    ensures OnlyDrops(s.heap, Step(s, t, e).heap, t)
  {
  }

  lemma WorkOnlyDrops(s: State, t: nat, e: Event)
    requires Enabled(s, t, e)
    requires e.Refuse? || e.Open? || e.Call? || e.ReleaseGuard? || e.Acquire? || e.Native? || e.Unlock?
    ensures OnlyDrops(s.heap, Step(s, t, e).heap, t)
  {
  }

  lemma StepFromReadable(s: State, t: nat, e: Event)
    requires Owned(s.heap, s.threads) && Enabled(s, t, e)
    ensures FromReadable(s.heap, Step(s, t, e).heap, t)
  {
    assert PhaseOk(s.heap, t, s.threads[t]);
    assert Begins(e) || e.BuildState? ==> Local(t) !in s.heap.owners;
    assert e.BuildState? ==> Dev(s.threads[t].handle) !in s.heap.counts;
    hide Owned, PhaseOk, Step, FromReadable, OnlyDrops;
    if e.MakeChild? || e.MakePoller? || e.BuildState? { MakeFromReadable(s, t, e); }
    else if e.CopyNew? || e.MoveNew? { NewObjectFromReadable(s, t, e); }
    else if e.Reset? || e.Destroy? { GiveUpFromReadable(s, t, e); }
    else if e.CopyAssign? || e.MoveAssign? { AssignFromReadable(s, t, e); }
    else if e.Publish? { PublishFromReadable(s, t, e); }
    else {
      if e.Release? || e.BusClose? || e.LeaveDevice? || e.HandleClose? || e.NoStateMemory? { EndsOnlyDrop(s, t, e); }
      else { WorkOnlyDrops(s, t, e); }
      DropsFromReadable(s.heap, Step(s, t, e).heap, t);
    }
  }

  /** What other threads are making stays theirs. */
  lemma OthersStayPrivate(h: Heap, h': Heap, ps: seq<Phase>, t: nat, u: nat)
    requires Live(h) && ResultsPrivate(h, ps) && FromReadable(h, h', t) && u < |ps| && u != t && Making(ps[u])
    ensures SoleOwner(h', Local(u))
  {
    assert SoleOwner(h, Local(u));
  }

  /** A new block has the one owner that made it. */
  lemma NewIsPrivate(s: State, t: nat, e: Event)
    requires Live(s.heap) && Enabled(s, t, e) && Local(t) !in s.heap.owners
    requires e.MakeChild? || e.MakePoller? || (e.BuildState? && Dev(s.threads[t].handle) !in s.heap.counts)
    requires Making(HeapStep(s, t, e).1)
    ensures SoleOwner(Step(s, t, e).heap, Local(t))
  {
  }

  /** Only these steps leave a thread with a result in its hands. */
  lemma MakersPhase(s: State, t: nat, e: Event)
    requires Enabled(s, t, e) && Making(HeapStep(s, t, e).1)
    requires !e.MakeChild? && !e.MakePoller? && !e.BuildState?
    ensures Making(s.threads[t]) && Step(s, t, e).heap.owners == s.heap.owners
  {
  }

  lemma StepKeepsPrivate(s: State, t: nat, e: Event)
    requires Sound(s) && ResultsPrivate(s.heap, s.threads) && Enabled(s, t, e)
    ensures var s' := Step(s, t, e); ResultsPrivate(s'.heap, s'.threads)
  {
    CountedIsLive(s.heap);
    hide Counted;
    assert PhaseOk(s.heap, t, s.threads[t]);
    StepFromReadable(s, t, e);
    assert Begins(e) || e.BuildState? ==> Local(t) !in s.heap.owners;
    assert e.BuildState? ==> Dev(s.threads[t].handle) !in s.heap.counts;
    hide Owned, PhaseOk, FromReadable, HeapStep, LocksStep;
    var s' := Step(s, t, e);
    forall u: nat | u < |s.threads| && Making(s'.threads[u]) ensures SoleOwner(s'.heap, Local(u)) {
      if u != t { OthersStayPrivate(s.heap, s'.heap, s.threads, t, u); }
      else if e.MakeChild? || e.MakePoller? || e.BuildState? { NewIsPrivate(s, t, e); }
      else {
        MakersPhase(s, t, e);
        assert SoleOwner(s.heap, Local(t));
      }
    }
  }

  lemma {:induction false} RunKeepsPrivate(s: State, trace: Trace)
    requires Sound(s) && ResultsPrivate(s.heap, s.threads) && Runs(s, trace)
    ensures var s' := After(s, trace); ResultsPrivate(s'.heap, s'.threads)
    decreases |trace|
  {
    hide Sound, ResultsPrivate, Enabled, Step;
    if |trace| > 0 {
      StepSound(s, trace[0].0, trace[0].1);
      StepKeepsPrivate(s, trace[0].0, trace[0].1);
      RunKeepsPrivate(Step(s, trace[0].0, trace[0].1), trace[1..]);
    }
  }

  lemma ReachablePrivate(s: State)
    requires Reachable(s)
    ensures ResultsPrivate(s.heap, s.threads)
  {
    var start: State, trace: Trace :| Initial(start) && Runs(start, trace) && After(start, trace) == s;
    InitialSound(start);
    RunKeepsPrivate(start, trace);
  }

  /** A constructor or factory that returns leaves its block with exactly one owner, the new object. */
  lemma ResultHasOneOwner(s: State, t: nat, b: nat)
    requires Reachable(s) && Enabled(s, t, Publish(b))
    ensures Local(t) in s.heap.owners
    ensures var s', r := Step(s, t, Publish(b)), s.heap.owners[Local(t)];
            && r in s'.heap.counts && s'.heap.counts[r] == 1 && Holders(s'.heap, r) == {Object(b)}
            && b in s'.heap.objects && s'.heap.objects[b] == SortOf(r)
  {
    hide Owned, Locked, LocksStep, Live;
    ReachablePrivate(s);
    assert SoleOwner(s.heap, Local(t));
    ReachableInvariant(s);
    StepInvariant(s, t, Publish(b));
    var s', r := Step(s, t, Publish(b)), s.heap.owners[Local(t)];
    PublishMoves(s, t, b);
    hide Reachable, Step;
    assert Holders(s'.heap, r) == {Object(b)};
  }

  lemma PublishMoves(s: State, t: nat, b: nat)
    requires Enabled(s, t, Publish(b)) && Local(t) in s.heap.owners
    ensures var s' := Step(s, t, Publish(b));
            && s'.heap.owners == (s.heap.owners - {Local(t)})[Object(b) := s.heap.owners[Local(t)]]
            && s'.heap.counts == s.heap.counts
            && s'.heap.objects == s.heap.objects[b := SortOf(s.heap.owners[Local(t)])]
  {
  }

  /** A constructor or factory that throws, from whatever call in its section, has let go of the
      mutex and is the only owner of what it made: dropping that destroys it at once. */
  lemma FailureCleansUp(s: State, t: nat)
    requires Reachable(s) && Enabled(s, t, Unlock) && Making(s.threads[t]) && OutcomeOf(s.threads[t].exec).Threw?
    ensures var s' := Step(s, t, Unlock);
            && s'.threads[t] == Dropping && s.threads[t].handle !in s'.locks.holder
            && Enabled(s', t, Release) && Local(t) in s'.heap.owners
            && var r, s'' := s'.heap.owners[Local(t)], Step(s', t, Release);
               && s''.threads[t] == (if r.Dev? then ClosingHandle(r.handle) else ClosingBus(r))
               && r.Dev? == s.threads[t].job.Construct?
  {
    hide Owned, Locked, LocksStep, HeapStep;
    ReachablePrivate(s);
    assert SoleOwner(s.heap, Local(t));
    ReachableInvariant(s);
    MakerHolds(s, t);
    HolderHasLog(s, t);
    hide Reachable, Step;
    var r := s.heap.owners[Local(t)];
    assert Holders(s.heap, r) == {Local(t)};
    UnlockThenRelease(s, t);
  }

  lemma MakerHolds(s: State, t: nat)
    requires Sound(s) && t < |s.threads| && s.threads[t].Holding? && !s.threads[t].job.Method?
    ensures Local(t) in s.heap.owners && s.heap.owners[Local(t)] in s.heap.counts
    ensures s.heap.owners[Local(t)].Dev? == s.threads[t].job.Construct?
  {
    assert PhaseOk(s.heap, t, s.threads[t]);
  }

  lemma UnlockThenRelease(s: State, t: nat)
    requires Enabled(s, t, Unlock) && Making(s.threads[t]) && OutcomeOf(s.threads[t].exec).Threw?
    requires s.threads[t].handle in s.locks.history && |s.locks.history[s.threads[t].handle]| > 0
    requires s.threads[t].handle in s.locks.hardware
    requires Local(t) in s.heap.owners && s.heap.owners[Local(t)] in s.heap.counts
    requires s.heap.counts[s.heap.owners[Local(t)]] == 1
    ensures var s' := Step(s, t, Unlock);
            && s'.threads[t] == Dropping && s.threads[t].handle !in s'.locks.holder && s'.heap == s.heap
            && Enabled(s', t, Release)
            && var r, s'' := s'.heap.owners[Local(t)], Step(s', t, Release);
               s''.threads[t] == (if r.Dev? then ClosingHandle(r.handle) else ClosingBus(r))
  {
  }
}
