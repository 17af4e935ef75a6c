/** What each step does to the user's objects, and that closing the last one closes the handle. */
module SharingEffects {
  import opened LockedSections
  import opened SmartPointers
  import opened DeviceSharing
  import opened Overlays
  import opened SharingOwnership
  import opened SharingLocks
  import opened SharingRuns
  import opened SharingTheorems

  /** What a smart pointer points to. */
  function At(h: Heap, x: Slot): Option<Ref> {
    if x in h.owners then Some(h.owners[x]) else None
  }

  lemma IdleHasNoLocal(s: State, t: nat)
    requires Reachable(s) && t < |s.threads| && s.threads[t].Idle?
    ensures At(s.heap, Local(t)) == None
  {
    hide LocksOk, Counted, Known;
    ReachableInvariant(s);
    assert PhaseOk(s.heap, t, s.threads[t]);
  }

  /** `close` and destruction empty their object and leave every other one alone; what was in it is next
      dropped by the thread. */
  lemma CloseEmpties(s: State, t: nat, a: nat, e: Event)
    requires Reachable(s) && Enabled(s, t, e) && (e == Reset(a) || e == Destroy(a))
    ensures var h, s' := s.heap, Step(s, t, e);
            && At(s'.heap, Object(a)) == None && At(s'.heap, Local(t)) == At(h, Object(a))
            && (forall x | x != Object(a) && x != Local(t) :: At(s'.heap, x) == At(h, x))
            && s'.heap.objects == (if e.Destroy? then h.objects - {a} else h.objects)
            && s'.threads == s.threads[t := if At(h, Object(a)).Some? then Dropping else Idle]
  {
    IdleHasNoLocal(s, t);
    hide Reachable;
  }

  /** After a copy both objects own what the source owned; what the target owned is next dropped. */
  lemma CopyShares(s: State, t: nat, a: nat, b: nat, e: Event)
    requires Reachable(s) && Enabled(s, t, e) && (e == CopyNew(a, b) || e == CopyAssign(a, b))
    ensures var h, s' := s.heap, Step(s, t, e);
            && At(s'.heap, Object(a)) == At(s'.heap, Object(b)) == At(h, Object(a))
            && (forall x | x != Object(b) && x != Local(t) :: At(s'.heap, x) == At(h, x))
            && s'.heap.objects == h.objects[b := h.objects[a]]
            && At(s'.heap, Local(t)) == (if e.CopyAssign? && a != b then At(h, Object(b)) else None)
            && s'.threads == s.threads[t := if At(s'.heap, Local(t)).Some? then Dropping else Idle]
  {
    AssignFacts(s, t, a, b, e);
    IdleHasNoLocal(s, t);
    hide Reachable;
    if e.CopyNew? { CopyNewHeap(s, t, a, b); } else { CopyAssignHeap(s, t, a, b); }
  }

  lemma CopyNewHeap(s: State, t: nat, a: nat, b: nat)
    requires Enabled(s, t, CopyNew(a, b)) && Object(b) !in s.heap.owners && Local(t) !in s.heap.owners
    requires Object(a) in s.heap.owners ==> s.heap.owners[Object(a)] in s.heap.counts
    ensures var h, s' := s.heap, Step(s, t, CopyNew(a, b));
            && At(s'.heap, Object(b)) == At(h, Object(a))
            && (forall x | x != Object(b) :: At(s'.heap, x) == At(h, x))
            && s'.heap.objects == h.objects[b := h.objects[a]] && s'.threads == s.threads[t := Idle]
  {
  }

  lemma CopyAssignHeap(s: State, t: nat, a: nat, b: nat)
    requires Enabled(s, t, CopyAssign(a, b)) && Local(t) !in s.heap.owners
    requires Object(a) in s.heap.owners ==> s.heap.owners[Object(a)] in s.heap.counts
    ensures var h, s' := s.heap, Step(s, t, CopyAssign(a, b));
            && At(s'.heap, Object(b)) == At(h, Object(a))
            && (forall x | x != Object(b) && x != Local(t) :: At(s'.heap, x) == At(h, x))
            && s'.heap.objects == h.objects[b := h.objects[a]]
            && At(s'.heap, Local(t)) == (if a != b then At(h, Object(b)) else None)
            && s'.threads == s.threads[t := if At(s'.heap, Local(t)).Some? then Dropping else Idle]
  {
  }

  /** What the invariant says of the two objects. */
  lemma AssignFacts(s: State, t: nat, a: nat, b: nat, e: Event)
    requires Reachable(s) && Enabled(s, t, e)
    requires e == CopyNew(a, b) || e == CopyAssign(a, b) || e == MoveNew(a, b) || e == MoveAssign(a, b)
    ensures Object(a) in s.heap.owners ==> s.heap.owners[Object(a)] in s.heap.counts
    ensures e.CopyNew? || e.MoveNew? ==> Object(b) !in s.heap.owners
  {
    hide LocksOk, Known;
    ReachableInvariant(s);
    CountedIsLive(s.heap);
    hide Reachable, Counted;
  }

  /** After a move the target owns what the source owned, and the source owns nothing; what the target owned
      is next dropped. */
  lemma MoveTransfers(s: State, t: nat, a: nat, b: nat, e: Event)
    requires Reachable(s) && Enabled(s, t, e) && (e == MoveNew(a, b) || e == MoveAssign(a, b))
    ensures var h, s' := s.heap, Step(s, t, e);
            && At(s'.heap, Object(b)) == At(h, Object(a)) && (a != b ==> At(s'.heap, Object(a)) == None)
            && (forall x | x != Object(a) && x != Object(b) && x != Local(t) :: At(s'.heap, x) == At(h, x))
            && s'.heap.objects == h.objects[b := h.objects[a]]
            && At(s'.heap, Local(t)) == (if e.MoveAssign? && a != b then At(h, Object(b)) else None)
            && s'.threads == s.threads[t := if At(s'.heap, Local(t)).Some? then Dropping else Idle]
  {
    AssignFacts(s, t, a, b, e);
    IdleHasNoLocal(s, t);
    hide Reachable;
    if e.MoveNew? { MoveNewHeap(s, t, a, b); } else { MoveAssignHeap(s, t, a, b); }
  }

  lemma MoveNewHeap(s: State, t: nat, a: nat, b: nat)
    requires Enabled(s, t, MoveNew(a, b)) && Object(b) !in s.heap.owners && Local(t) !in s.heap.owners
    ensures var h, s' := s.heap, Step(s, t, MoveNew(a, b));
            && At(s'.heap, Object(b)) == At(h, Object(a)) && At(s'.heap, Object(a)) == None
            && (forall x | x != Object(a) && x != Object(b) :: At(s'.heap, x) == At(h, x))
            && s'.heap.objects == h.objects[b := h.objects[a]] && s'.threads == s.threads[t := Idle]
  {
  }

  lemma MoveAssignHeap(s: State, t: nat, a: nat, b: nat)
    requires Enabled(s, t, MoveAssign(a, b)) && Local(t) !in s.heap.owners
    ensures var h, s' := s.heap, Step(s, t, MoveAssign(a, b));
            && At(s'.heap, Object(b)) == At(h, Object(a)) && (a != b ==> At(s'.heap, Object(a)) == None)
            && (forall x | x != Object(a) && x != Object(b) && x != Local(t) :: At(s'.heap, x) == At(h, x))
            && s'.heap.objects == h.objects[b := h.objects[a]]
            && At(s'.heap, Local(t)) == (if a != b then At(h, Object(b)) else None)
            && s'.threads == s.threads[t := if At(s'.heap, Local(t)).Some? then Dropping else Idle]
  {
  }

  /** A factory makes a child that only the thread owns and that owns the state of the device it was called
      on; an I2C or SMBus factory then waits for the mutex of that device. */
  lemma FactoryMakes(s: State, t: nat, a: nat, id: nat, kind: Kind, section: Section, e: Event)
    requires Reachable(s) && Enabled(s, t, e)
    requires e == MakeChild(a, id, kind, section) || (e == MakePoller(a, id) && kind == Poller)
    ensures var h, s', k := s.heap, Step(s, t, e), Kid(id, kind);
            && At(h, Object(a)).Some? && At(h, Object(a)).value.Dev?
            && At(s'.heap, Local(t)) == Some(k) && At(s'.heap, Member(k)) == At(h, Object(a))
            && (forall x | x != Local(t) && x != Member(k) :: At(s'.heap, x) == At(h, x))
            && s'.heap.objects == h.objects && s'.heap.bound == h.bound
            && s'.threads
               == s.threads[t := if e.MakePoller? then Publishing
                                 else Waiting(At(h, Object(a)).value.handle, Factory(a), section, s.clock)]
  {
    DeviceIsCounted(s, t, e);
    hide Reachable;
  }

  lemma DeviceIsCounted(s: State, t: nat, e: Event)
    requires Reachable(s) && Enabled(s, t, e) && (e.MakeChild? || e.MakePoller?)
    ensures Object(e.name) in s.heap.owners && s.heap.owners[Object(e.name)].Dev?
    ensures s.heap.owners[Object(e.name)] in s.heap.counts
  {
    hide LocksOk, Known;
    ReachableInvariant(s);
    CountedIsLive(s.heap);
    hide Reachable, Counted, Owned;
  }

  /** A method waits for the mutex of the device that its object leads to, and changes no pointer. */
  lemma CallWaits(s: State, t: nat, a: nat, section: Section, handle: nat)
    requires Reachable(s) && Enabled(s, t, Call(a, section)) && Leads(s.heap, Object(a), handle)
    ensures var s' := Step(s, t, Call(a, section));
            s'.heap == s.heap && s'.threads == s.threads[t := Waiting(handle, Method(a), section, s.clock)]
  {
    LeadsReaches(s, a, handle);
    hide Reachable, Leads;
    assert Reaches(s.heap, a, HandleOf(s.heap, a));
  }

  lemma LeadsReaches(s: State, a: nat, handle: nat)
    requires Reachable(s) && Leads(s.heap, Object(a), handle)
    ensures Reaches(s.heap, a, handle)
  {
    hide LocksOk, Known, Counted;
    ReachableInvariant(s);
  }

  /** The guard of the constructor owns a handle that was just opened, and closes it if the state cannot be
      made. */
  lemma GuardOwns(s: State, t: nat, e: Event)
    requires Reachable(s) && Enabled(s, t, e) && (e.Open? || e == NoStateMemory)
    ensures var h, s' := s.heap, Step(s, t, e);
            var d := Dev(if e.Open? then e.handle else s.threads[t].handle);
            && s'.heap.owners == h.owners && s'.heap.objects == h.objects && At(h, Local(t)) == None
            && s'.heap.closes == h.closes[d := if e.Open? then 0 else 1]
            && s'.threads == s.threads[t := if e.Open? then Guarded(e.handle, e.setup) else Idle]
  {
    LocalOfConstructor(s, t);
    hide Reachable;
  }

  /** The state then has the thread as its owner, which goes on to wait for the mutex. */
  lemma StateTakesOver(s: State, t: nat, e: Event)
    requires Reachable(s) && Enabled(s, t, e) && (e == BuildState || e == ReleaseGuard)
    ensures var h, s', d := s.heap, Step(s, t, e), Dev(s.threads[t].handle);
            && At(s'.heap, Local(t)) == Some(d) && s'.heap.objects == h.objects && s'.heap.closes == h.closes[d := 0]
            && (forall x | x != Local(t) :: At(s'.heap, x) == At(h, x))
            && s'.threads == s.threads[t := if e == BuildState then Doubled(d.handle, s.threads[t].setup)
                                            else Waiting(d.handle, Construct, s.threads[t].setup, s.clock)]
  {
    LocalOfConstructor(s, t);
    hide Reachable;
  }

  lemma LocalOfConstructor(s: State, t: nat)
    requires Reachable(s) && t < |s.threads|
    requires s.threads[t].Idle? || s.threads[t].Guarded? || s.threads[t].Doubled?
    ensures s.threads[t].Idle? || s.threads[t].Guarded? ==> Local(t) !in s.heap.owners
    ensures s.threads[t].Guarded? || s.threads[t].Doubled? ==>
              Dev(s.threads[t].handle) in s.heap.closes && s.heap.closes[Dev(s.threads[t].handle)] == 0
    ensures s.threads[t].Doubled? ==>
              Local(t) in s.heap.owners && s.heap.owners[Local(t)] == Dev(s.threads[t].handle)
  {
    hide LocksOk, Known;
    ReachableInvariant(s);
    CountedIsLive(s.heap);
    assert PhaseOk(s.heap, t, s.threads[t]);
    hide Reachable, Counted;
  }

  /** When a section ends, a method is done; a constructor or factory goes on to hand out its result, an SMBus
      child with a binding to its handle, or, if it threw, to drop it without one. */
  lemma SectionReturns(s: State, t: nat)
    requires Reachable(s) && Enabled(s, t, Unlock)
    ensures var h, s', p := s.heap, Step(s, t, Unlock), s.threads[t];
            var threw := OutcomeOf(p.exec).Threw?;
            && s'.heap.owners == h.owners && s'.heap.objects == h.objects && s'.heap.closes == h.closes
            && s'.threads == s.threads[t := if p.job.Method? then Idle else if threw then Dropping else Publishing]
            && (p.job.Factory? ==> At(h, Local(t)).Some? && At(h, Local(t)).value.Kid?)
            && s'.heap.bound
               == if p.job.Factory? && !threw && At(h, Local(t)).value.kind == Smbus
                  then h.bound[At(h, Local(t)).value := p.handle]
                  else h.bound
  {
    FactoryHasChild(s, t);
    hide Reachable;
  }

  lemma FactoryHasChild(s: State, t: nat)
    requires Reachable(s) && t < |s.threads| && s.threads[t].Holding?
    ensures s.threads[t].job.Factory? ==> Local(t) in s.heap.owners && s.heap.owners[Local(t)].Kid?
  {
    hide LocksOk, Counted, Known;
    ReachableInvariant(s);
    assert PhaseOk(s.heap, t, s.threads[t]);
    hide Reachable;
  }

  /** Handing out gives the new object what the thread owned. */
  lemma PublishHandsOut(s: State, t: nat, b: nat)
    requires Reachable(s) && Enabled(s, t, Publish(b))
    ensures var h, s' := s.heap, Step(s, t, Publish(b));
            && At(h, Local(t)).Some? && At(s'.heap, Object(b)) == At(h, Local(t)) && At(s'.heap, Local(t)) == None
            && (forall x | x != Object(b) && x != Local(t) :: At(s'.heap, x) == At(h, x))
            && s'.heap.objects == h.objects[b := if At(h, Local(t)).value.Dev? then DeviceObject
                                                 else ChildObject(At(h, Local(t)).value.kind)]
            && s'.threads == s.threads[t := Idle]
  {
    hide LocksOk, Counted, Known;
    ReachableInvariant(s);
    assert PhaseOk(s.heap, t, s.threads[t]);
    assert Object(b) !in s.heap.owners;
    hide Reachable, Owned;
  }

  /** Dropping a pointer destroys what it pointed to iff no other pointer does. */
  lemma ReleaseDestroysLast(s: State, t: nat)
    requires Reachable(s) && Enabled(s, t, Release)
    ensures var h, s' := s.heap, Step(s, t, Release);
            && At(h, Local(t)).Some? && At(s'.heap, Local(t)) == None
            && (forall x | x != Local(t) :: At(s'.heap, x) == At(h, x))
            && s'.heap.objects == h.objects && s'.heap.closes == h.closes
            && var r := At(h, Local(t)).value;
               s'.threads
               == s.threads[t := if exists x :: x != Local(t) && At(h, x) == Some(r) then Idle
                                 else if r.Dev? then ClosingHandle(r.handle)
                                 else ClosingBus(r)]
  {
    DroppedIsCounted(s, t);
    LastOwner(s.heap, Local(t));
    hide Reachable, Counted;
  }

  lemma DroppedIsCounted(s: State, t: nat)
    requires Reachable(s) && Enabled(s, t, Release)
    ensures Counted(s.heap) && Local(t) in s.heap.owners
  {
    hide LocksOk, Known;
    ReachableInvariant(s);
    assert PhaseOk(s.heap, t, s.threads[t]);
    hide Reachable, Counted;
  }

  /** The last part of the destruction of a child drops its device, and destroys that iff no other pointer
      points to it. */
  lemma LeavingDestroysLast(s: State, t: nat)
    requires Reachable(s) && Enabled(s, t, LeaveDevice)
    ensures var h, s', m := s.heap, Step(s, t, LeaveDevice), Member(s.threads[t].kid);
            && At(h, m).Some? && At(h, m).value.Dev? && At(s'.heap, m) == None
            && (forall x | x != m :: At(s'.heap, x) == At(h, x))
            && s'.heap.objects == h.objects && s'.heap.closes == h.closes
            && s'.threads
               == s.threads[t := if exists x :: x != m && At(h, x) == At(h, m) then Idle
                                 else ClosingHandle(At(h, m).value.handle)]
  {
    LeftIsCounted(s, t);
    LastOwner(s.heap, Member(s.threads[t].kid));
    hide Reachable, Counted;
  }

  lemma LeftIsCounted(s: State, t: nat)
    requires Reachable(s) && Enabled(s, t, LeaveDevice)
    ensures Counted(s.heap) && Member(s.threads[t].kid) in s.heap.owners
    ensures s.heap.owners[Member(s.threads[t].kid)].Dev? && s.threads[t].kid.Kid?
  {
    hide LocksOk, Known;
    ReachableInvariant(s);
    assert PhaseOk(s.heap, t, s.threads[t]);
    hide Reachable, Counted;
  }

  /** No other step changes what any pointer points to. */
  lemma OthersKeepPointers(s: State, t: nat, e: Event)
    requires Enabled(s, t, e) && (e.Refuse? || e.Acquire? || e.Native? || e.BusClose? || e.HandleClose?)
    ensures Step(s, t, e).heap.owners == s.heap.owners && Step(s, t, e).heap.objects == s.heap.objects
  {
  }

  lemma LastOwner(h: Heap, x: Slot)
    requires Counted(h) && x in h.owners
    ensures h.owners[x] in h.counts && h.counts[h.owners[x]] > 0
    ensures h.counts[h.owners[x]] == 1 <==> !exists y :: y != x && At(h, y) == At(h, x)
  {
    var r := h.owners[x];
    assert x in Holders(h, r);
    if y :| y != x && At(h, y) == At(h, x) {
      assert {x, y} <= Holders(h, r);
      SubsetSize({x, y}, Holders(h, r));
    } else {
      assert forall y | y in Holders(h, r) :: At(h, y) == At(h, x);
      assert Holders(h, r) == {x};
    }
  }

  lemma SubsetSize<T>(a: set<T>, b: set<T>)
    requires a <= b
    ensures |a| <= |b|
  {
    assert b == a + (b - a);
  }
}
