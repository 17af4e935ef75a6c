/** What the shared state guarantees, for any number of threads, objects and devices. */
module SharingTheorems {
  import opened LockedSections
  import opened SmartPointers
  import opened DeviceSharing
  import opened SharingOwnership
  import opened SharingLocks
  import opened SharingRuns

  /* ---------- ownership ---------- */

  /** No native resource is ever closed twice. */
  lemma ClosedAtMostOnce(s: State, r: Ref)
    requires Reachable(s) && r in s.heap.closes
    ensures s.heap.closes[r] <= 1
  {
    hide LocksOk, Known, Counted;
    ReachableInvariant(s);
    if r !in s.heap.counts && InHands(s.threads, r) {
      var t :| 0 <= t < |s.threads| && r in Claim(s.threads[t]);
      assert PhaseOk(s.heap, t, s.threads[t]);
    }
  }

  /** The handle that a job works on has an owner and is open. */
  lemma JobHandleOpen(s: State, t: nat)
    requires Sound(s) && t < |s.threads| && (s.threads[t].Waiting? || s.threads[t].Holding?)
    ensures var d := Dev(s.threads[t].handle);
            d in s.heap.counts && s.heap.counts[d] > 0 && d in s.heap.closes && s.heap.closes[d] == 0
  {
    hide Counted;
    CountedIsLive(s.heap);
    assert PhaseOk(s.heap, t, s.threads[t]);
  }

  /** Whoever waits for a mutex, holds it or makes a native call under it does so on an open handle,
      whatever other threads have closed, moved or dropped in the meantime. */
  lemma NoUseAfterClose(s: State, t: nat)
    requires Reachable(s) && t < |s.threads| && (s.threads[t].Waiting? || s.threads[t].Holding?)
    ensures var d := Dev(s.threads[t].handle);
            d in s.heap.closes && s.heap.closes[d] == 0 && Holders(s.heap, d) != {}
  {
    hide LocksOk, Owned;
    ReachableInvariant(s);
    JobHandleOpen(s, t);
  }

  /** A step that closes a handle finds it open and unowned, its mutex free and unwanted, and no SMBus
      binding left that uses it. */
  lemma ClosedWithTheLastOwner(s: State, t: nat, handle: nat)
    requires Reachable(s) && Enabled(s, t, HandleClose) && s.threads[t].handle == handle
    ensures Dev(handle) in s.heap.closes && s.heap.closes[Dev(handle)] == 0
    ensures Step(s, t, HandleClose).heap.closes == s.heap.closes[Dev(handle) := 1]
    ensures Holders(s.heap, Dev(handle)) == {}
    ensures handle !in s.locks.holder
    ensures forall u | 0 <= u < |s.threads| && (s.threads[u].Waiting? || s.threads[u].Holding?) ::
              s.threads[u].handle != handle
    ensures forall k | k in s.heap.bound :: s.heap.bound[k] != handle
  {
    ReachableInvariant(s);
    CloseFindsHandleOpen(s, t, handle);
    CloseFindsMutexFree(s, t, handle);
  }

  lemma CloseFindsHandleOpen(s: State, t: nat, handle: nat)
    requires Sound(s) && Enabled(s, t, HandleClose) && s.threads[t].handle == handle
    ensures Dev(handle) in s.heap.counts && s.heap.counts[Dev(handle)] == 0
    ensures Dev(handle) in s.heap.closes && s.heap.closes[Dev(handle)] == 0
    ensures Step(s, t, HandleClose).heap.closes == s.heap.closes[Dev(handle) := 1]
    ensures Holders(s.heap, Dev(handle)) == {}
    ensures forall k | k in s.heap.bound :: s.heap.bound[k] != handle
  {
    assert PhaseOk(s.heap, t, s.threads[t]);
    PositiveIffOwned(s.heap, Dev(handle));
  }

  lemma CloseFindsMutexFree(s: State, t: nat, handle: nat)
    requires Sound(s) && HolderOk(s.locks, s.threads)
    requires Dev(handle) in s.heap.counts && s.heap.counts[Dev(handle)] == 0
    ensures handle !in s.locks.holder
    ensures forall u | 0 <= u < |s.threads| && (s.threads[u].Waiting? || s.threads[u].Holding?) ::
              s.threads[u].handle != handle
  {
    hide Sound;
    forall u | 0 <= u < |s.threads| && (s.threads[u].Waiting? || s.threads[u].Holding?)
      ensures s.threads[u].handle != handle
    {
      JobHandleOpen(s, u);
    }
  }

  /** A pointer of an object or a local one leads to a handle, directly or through a child state. */
  ghost predicate Leads(h: Heap, w: Slot, handle: nat) {
    && w in h.owners && !w.Member?
    && (|| h.owners[w] == Dev(handle)
        || (Member(h.owners[w]) in h.owners && h.owners[Member(h.owners[w])] == Dev(handle)))
  }

  /** A thread has the handle in a guard, or is destroying its state or that of a child of it. */
  ghost predicate AtWork(h: Heap, p: Phase, handle: nat) {
    match p
    case Guarded(d, _) => d == handle
    case ClosingHandle(d) => d == handle
    case ClosingBus(kid) => Member(kid) in h.owners && h.owners[Member(kid)] == Dev(handle)
    case LeavingDevice(kid) => Member(kid) in h.owners && h.owners[Member(kid)] == Dev(handle)
    case _ => false
  }

  ghost predicate Led(h: Heap, handle: nat) {
    exists w :: Leads(h, w, handle)
  }

  ghost predicate BeingDone(s: State, handle: nat) {
    exists t :: 0 <= t < |s.threads| && AtWork(s.heap, s.threads[t], handle)
  }

  lemma LedIsOpen(s: State, w: Slot, handle: nat)
    requires Owned(s.heap, s.threads) && Live(s.heap) && Leads(s.heap, w, handle)
    ensures Dev(handle) in s.heap.closes && s.heap.closes[Dev(handle)] == 0
  {
  }

  lemma BeingDoneIsOpen(s: State, t: nat, handle: nat)
    requires Owned(s.heap, s.threads) && Live(s.heap) && t < |s.threads| && AtWork(s.heap, s.threads[t], handle)
    ensures Dev(handle) in s.heap.closes && s.heap.closes[Dev(handle)] == 0
  {
    assert PhaseOk(s.heap, t, s.threads[t]);
  }

  /** Whoever owns a block: a slot that is not a member, if it is a child state. */
  lemma OwnerOf(h: Heap, r: Ref) returns (w: Slot)
    requires Counted(h) && Shape(h) && r in h.counts && h.counts[r] > 0
    ensures w in h.owners && h.owners[w] == r
    ensures r.Kid? ==> !w.Member?
  {
    PositiveIffOwned(h, r);
    w :| w in h.owners && h.owners[w] == r;
  }

  lemma OpenIsLed(s: State, handle: nat)
    requires Sound(s) && Dev(handle) in s.heap.closes && s.heap.closes[Dev(handle)] == 0
    ensures Led(s.heap, handle) || BeingDone(s, handle)
  {
    var d := Dev(handle);
    if d !in s.heap.counts || s.heap.counts[d] == 0 {
      assert InHands(s.threads, d);
      var t :| 0 <= t < |s.threads| && d in Claim(s.threads[t]);
      assert PhaseOk(s.heap, t, s.threads[t]);
      assert AtWork(s.heap, s.threads[t], handle);
    } else {
      var w := OwnerOf(s.heap, d);
      if w.Member? {
        MemberIsLed(s, w.kid, handle);
      } else {
        assert Leads(s.heap, w, handle);
      }
    }
  }

  lemma MemberIsLed(s: State, k: Ref, handle: nat)
    requires Sound(s) && Member(k) in s.heap.owners && s.heap.owners[Member(k)] == Dev(handle)
    ensures Led(s.heap, handle) || BeingDone(s, handle)
  {
    if s.heap.counts[k] == 0 {
      var t :| 0 <= t < |s.threads| && k in Claim(s.threads[t]);
      assert AtWork(s.heap, s.threads[t], handle);
    } else {
      var w := OwnerOf(s.heap, k);
      assert Leads(s.heap, w, handle);
    }
  }

  /** In every reachable state, whatever other threads are doing, a handle is open exactly while an object or
      a running operation still leads to it, or a thread is about to own it or to let go of it: nothing
      leaks and nothing is closed too early. */
  lemma OpenIffLed(s: State, handle: nat)
    requires Reachable(s) && Dev(handle) in s.heap.closes
    ensures s.heap.closes[Dev(handle)] == 0 <==> Led(s.heap, handle) || BeingDone(s, handle)
    ensures s.heap.closes[Dev(handle)] == 1 <==> !Led(s.heap, handle) && !BeingDone(s, handle)
  {
    hide LocksOk, Known;
    ReachableInvariant(s);
    ClosedAtMostOnce(s, Dev(handle));
    CountedIsLive(s.heap);
    hide Counted, Owned, Live, Reachable, Leads, AtWork;
    if w :| Leads(s.heap, w, handle) {
      LedIsOpen(s, w, handle);
    }
    if t :| 0 <= t < |s.threads| && AtWork(s.heap, s.threads[t], handle) {
      BeingDoneIsOpen(s, t, handle);
    }
    if s.heap.closes[Dev(handle)] == 0 {
      OpenIsLed(s, handle);
    }
  }

  ghost predicate AllIdle(s: State) {
    forall t | 0 <= t < |s.threads| :: s.threads[t].Idle?
  }

  lemma IdleHasNoLocals(s: State)
    requires Owned(s.heap, s.threads) && AllIdle(s)
    ensures forall w | w in s.heap.owners :: !w.Local?
  {
    forall t: nat | t < |s.threads| ensures Local(t) !in s.heap.owners {
      assert PhaseOk(s.heap, t, s.threads[t]);
    }
  }

  /** In particular, with no operation under way, exactly while one of the user's objects leads to it. */
  lemma OpenIffReachable(s: State, handle: nat)
    requires Reachable(s) && AllIdle(s) && Dev(handle) in s.heap.closes
    ensures s.heap.closes[Dev(handle)] == 0 <==> exists a :: Reaches(s.heap, a, handle)
    ensures s.heap.closes[Dev(handle)] == 1 <==> !exists a :: Reaches(s.heap, a, handle)
  {
    hide LocksOk, Known, Counted;
    ReachableInvariant(s);
    OpenIffLed(s, handle);
    IdleHasNoLocals(s);
    ClosedAtMostOnce(s, Dev(handle));
    hide Reachable, Owned;
    assert !BeingDone(s, handle);
    if w :| Leads(s.heap, w, handle) {
      assert Reaches(s.heap, w.name, handle);
    }
    if a :| Reaches(s.heap, a, handle) {
      assert Leads(s.heap, Object(a), handle);
    }
  }

  /* ---------- SMBus bindings ---------- */

  /** A binding in force belongs to a child state that was not torn down, and uses an open handle. */
  lemma BindingUsesOpenHandle(s: State, k: Ref)
    requires Reachable(s) && k in s.heap.bound
    ensures k in s.heap.counts && k in s.heap.closes && s.heap.closes[k] == 0
    ensures Dev(s.heap.bound[k]) in s.heap.counts && Dev(s.heap.bound[k]) in s.heap.closes
    ensures s.heap.closes[Dev(s.heap.bound[k])] == 0
  {
    hide LocksOk;
    ReachableInvariant(s);
    CountedIsLive(s.heap);
  }

  /** The two steps of tearing down an SMBus child: its own close call comes first and concerns
      nothing else; the shared handle can only be closed by a later step. */
  lemma BusClosesBeforeHandle(s: State, t: nat)
    requires Reachable(s) && Enabled(s, t, BusClose) && s.threads[t].kid.Kid? && s.threads[t].kid.kind == Smbus
    ensures var k, s' := s.threads[t].kid, Step(s, t, BusClose);
            && k in s.heap.closes && s.heap.closes[k] == 0 && s'.heap.closes == s.heap.closes[k := 1]
            && k !in s'.heap.bound && s'.threads[t] == LeavingDevice(k)
            && Member(k) in s'.heap.owners && s'.heap.owners[Member(k)].Dev?
            && s'.heap.owners[Member(k)] in s'.heap.closes && s'.heap.closes[s'.heap.owners[Member(k)]] == 0
            && s'.heap.counts == s.heap.counts && s'.heap.owners == s.heap.owners
  {
    hide LocksOk;
    ReachableInvariant(s);
    CountedIsLive(s.heap);
    hide Counted;
    ClosingBusFacts(s, t);
    hide Owned, Live, Reachable;
  }

  lemma ClosingBusFacts(s: State, t: nat)
    requires Live(s.heap) && Owned(s.heap, s.threads) && t < |s.threads| && s.threads[t].ClosingBus?
    ensures var k := s.threads[t].kid;
            && k in s.heap.closes && s.heap.closes[k] == 0 && Member(k) in s.heap.owners
            && s.heap.owners[Member(k)].Dev? && s.heap.owners[Member(k)] in s.heap.closes
            && s.heap.closes[s.heap.owners[Member(k)]] == 0
  {
    assert PhaseOk(s.heap, t, s.threads[t]);
  }

  /** In every reachable state an SMBus child is unclosed exactly while an object or a running operation has a
      copy of it, or a thread has come to the close call in its destruction. */
  lemma BusOpenIffHeld(s: State, k: Ref)
    requires Reachable(s) && k in s.heap.closes && k.Kid? && k.kind == Smbus
    ensures s.heap.closes[k] == 0
            <==> || (exists w :: w in s.heap.owners && !w.Member? && s.heap.owners[w] == k)
                 || (exists t :: 0 <= t < |s.threads| && s.threads[t] == ClosingBus(k))
    ensures s.heap.closes[k] <= 1
  {
    hide LocksOk, Known;
    ReachableInvariant(s);
    ClosedAtMostOnce(s, k);
    CountedIsLive(s.heap);
    if w :| w in s.heap.owners && !w.Member? && s.heap.owners[w] == k {
      assert s.heap.counts[k] > 0;
    }
    if t :| 0 <= t < |s.threads| && s.threads[t] == ClosingBus(k) {
      assert PhaseOk(s.heap, t, s.threads[t]);
    }
    if s.heap.closes[k] == 0 {
      UnclosedIsHeld(s, k);
    }
  }

  lemma UnclosedIsHeld(s: State, k: Ref)
    requires Sound(s) && k in s.heap.closes && s.heap.closes[k] == 0 && k.Kid? && k.kind == Smbus
    ensures || (exists w :: w in s.heap.owners && !w.Member? && s.heap.owners[w] == k)
            || (exists t :: 0 <= t < |s.threads| && s.threads[t] == ClosingBus(k))
  {
    if k in s.heap.counts && s.heap.counts[k] > 0 {
      var w := OwnerOf(s.heap, k);
    } else {
      assert InHands(s.threads, k);
      var t :| 0 <= t < |s.threads| && k in Claim(s.threads[t]);
      assert PhaseOk(s.heap, t, s.threads[t]);
    }
  }

  /** In particular, with no operation under way, exactly while one of its copies is left, whether its binding
      was ever made or its initialization failed. */
  lemma BusOpenIffCopied(s: State, k: Ref)
    requires Reachable(s) && AllIdle(s) && k in s.heap.closes && k.Kid? && k.kind == Smbus
    ensures s.heap.closes[k] == 0 <==> exists a :: Object(a) in s.heap.owners && s.heap.owners[Object(a)] == k
    ensures s.heap.closes[k] <= 1
  {
    hide LocksOk, Known, Counted;
    ReachableInvariant(s);
    BusOpenIffHeld(s, k);
    IdleHasNoLocals(s);
    hide Reachable, Owned;
    if w :| w in s.heap.owners && !w.Member? && s.heap.owners[w] == k {
      assert w == Object(w.name);
    }
  }

  /* ---------- the mutex ---------- */

  /** Two threads never hold the mutex of the same handle. */
  lemma MutualExclusion(s: State, t: nat, u: nat)
    requires Reachable(s) && t < |s.threads| && u < |s.threads|
    requires s.threads[t].Holding? && s.threads[u].Holding? && s.threads[t].handle == s.threads[u].handle
    ensures t == u
  {
    hide Sound;
    ReachableInvariant(s);
  }

  /** The sections of a handle that have ended, in the order in which they got the mutex. */
  ghost function Ended(s: State, handle: nat): seq<Entry>
    requires handle in s.locks.history
  {
    var log := s.locks.history[handle];
    if handle in s.locks.holder && |log| > 0 then log[..|log| - 1] else log
  }

  /** Linearizability.  Whatever the interleaving, every section that has ended gave its caller what
      it would have given had the sections run one at a time in the order they got the mutex, a throw
      included; a free device is in the state that this sequential run ends in; a device in use will be,
      when the section under way completes. */
  lemma Linearizable(s: State, handle: nat)
    requires Reachable(s) && handle in s.locks.history
    ensures handle in s.locks.first && handle in s.locks.hardware
    ensures var log, ended := s.locks.history[handle], Ended(s, handle);
            && AllDone(ended)
            && Replay(s.locks.first[handle], Sections(ended)).1 == Outcomes(ended)
            && (handle !in s.locks.holder ==>
                 ended == log && s.locks.hardware[handle] == Replay(s.locks.first[handle], Sections(ended)).0)
            && (handle in s.locks.holder ==>
                 var t := s.locks.holder[handle];
                 && |log| == |ended| + 1 && t < |s.threads| && s.threads[t].Holding? && s.threads[t].handle == handle
                 && Complete(s.threads[t].exec, s.locks.hardware[handle])
                    == Atomic(log[|ended|].section, Replay(s.locks.first[handle], Sections(ended)).0))
  {
    hide Sound;
    ReachableInvariant(s);
    hide Reachable, Known, TimesOk, Complete, Atomic, Replay;
    assert LogOk(s.locks, s.threads, handle);
  }

  /** A section that gave the mutex back before the other got it. */
  predicate Apart(a: Entry, b: Entry) {
    a.progress.Done? && a.acquired < a.progress.released < b.acquired
  }

  /** A section that ended before the other was called. */
  predicate EndedBeforeCalled(a: Entry, b: Entry) {
    a.progress.Done? && a.progress.released < b.invoked
  }

  /** Sections do not overlap, and one that ended before another was called comes first. */
  ghost predicate RealTime(log: seq<Entry>) {
    && (forall i, j | 0 <= i < j < |log| :: Apart(log[i], log[j]))
    && (forall i, j | 0 <= i < |log| && 0 <= j < |log| && EndedBeforeCalled(log[i], log[j]) :: i < j)
  }

  lemma LogIsRealTime(log: seq<Entry>, clock: nat)
    requires Disjoint(log, clock)
    ensures RealTime(log)
  {
    forall i, j | 0 <= i < j < |log| ensures Apart(log[i], log[j]) {
      assert Precedes(log[i], log[j]) && Timely(log[i], clock);
    }
    forall i, j | 0 <= j <= i < |log| ensures !EndedBeforeCalled(log[i], log[j]) {
      assert Timely(log[i], clock) && Timely(log[j], clock);
      if j < i { assert Precedes(log[j], log[i]); }
    }
  }

  /** The order of the mutex, in which the sections take effect, is an order of real time. */
  lemma LockOrderIsRealTime(s: State, handle: nat)
    requires Reachable(s) && handle in s.locks.history
    ensures RealTime(s.locks.history[handle])
  {
    hide Sound, LogsOk, RealTime;
    ReachableInvariant(s);
    hide Reachable, Known, HolderOk, KeysOk;
    LogIsRealTime(s.locks.history[handle], s.clock);
  }
}
