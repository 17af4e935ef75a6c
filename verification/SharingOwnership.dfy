/** Who owns what, in every reachable state. */
module SharingOwnership {
  import opened LockedSections
  import opened SmartPointers
  import opened DeviceSharing

  /** The resource a thread alone is responsible for: a fresh handle still in its guard, or a block
      that it is destroying. */
  function Claim(p: Phase): set<Ref> {
    match p
    case Guarded(handle, _) => {Dev(handle)}
    case ClosingBus(kid) => {kid}
    case LeavingDevice(kid) => {kid}
    case ClosingHandle(handle) => {Dev(handle)}
    case _ => {}
  }

  ghost predicate Shape(h: Heap) {
    && (forall k | k in h.counts && k.Kid? :: Member(k) in h.owners)
    && (forall s | s in h.owners && s.Member? :: s.kid.Kid? && s.kid in h.counts && h.owners[s].Dev?)
    && (forall s | s in h.owners && s.Object? ::
          s.name in h.objects && h.objects[s.name] == SortOf(h.owners[s]))
    && (forall k | k in h.bound ::
          k in h.counts && k.Kid? && k.kind == Smbus && k in h.closes && h.closes[k] == 0
          && h.owners[Member(k)] == Dev(h.bound[k]))
  }

  /** Native closes: none while a block exists, at most one ever. */
  ghost predicate ClosedOnce(h: Heap) {
    && (forall r | r in h.counts && r.Dev? :: r in h.closes && h.closes[r] == 0)
    && (forall r | r in h.counts && r.Kid? :: r in h.closes && h.closes[r] <= 1)
    && (forall r | r in h.counts && h.counts[r] > 0 :: h.closes[r] == 0)
  }

  ghost predicate JobOk(h: Heap, t: nat, handle: nat, job: Job) {
    match job
    case Method(a) => Local(t) !in h.owners && Reaches(h, a, handle)
    case Construct => Local(t) in h.owners && h.owners[Local(t)] == Dev(handle)
    case Factory(a) =>
      && HoldsDevice(h, a, handle)
      && Local(t) in h.owners && h.owners[Local(t)].Kid?
      && h.owners[Local(t)].kind != Poller
      && Member(h.owners[Local(t)]) in h.owners && h.owners[Member(h.owners[Local(t)])] == Dev(handle)
  }

  ghost predicate PhaseOk(h: Heap, t: nat, p: Phase) {
    match p
    case Idle => Local(t) !in h.owners
    case Guarded(handle, _) =>
      Local(t) !in h.owners && Dev(handle) !in h.counts && Dev(handle) in h.closes && h.closes[Dev(handle)] == 0
    case Doubled(handle, _) => Local(t) in h.owners && h.owners[Local(t)] == Dev(handle)
    case Waiting(handle, job, _, _) => JobOk(h, t, handle, job)
    case Holding(handle, job, _) => JobOk(h, t, handle, job)
    case Publishing => Local(t) in h.owners
    case Dropping => Local(t) in h.owners
    case ClosingBus(kid) =>
      Local(t) !in h.owners && kid.Kid? && kid in h.counts && h.counts[kid] == 0
      && kid in h.closes && h.closes[kid] == 0
    case LeavingDevice(kid) =>
      && Local(t) !in h.owners && kid.Kid? && kid in h.counts && h.counts[kid] == 0 && kid !in h.bound
      && kid in h.closes && h.closes[kid] == (if kid.kind == Smbus then 1 else 0)
    case ClosingHandle(handle) =>
      Local(t) !in h.owners && Dev(handle) in h.counts && h.counts[Dev(handle)] == 0
  }

  ghost predicate PhasesOk(h: Heap, ps: seq<Phase>) {
    && (forall t: nat | t < |ps| :: PhaseOk(h, t, ps[t]))
    && (forall w | w in h.owners && w.Local? :: w.thread < |ps|)
  }

  ghost predicate InHands(ps: seq<Phase>, r: Ref) {
    exists t :: 0 <= t < |ps| && r in Claim(ps[t])
  }

  /** Claims are exclusive; a block without owners, or a resource without block that was never
      closed, is in some thread's hands. */
  ghost predicate Claims(h: Heap, ps: seq<Phase>) {
    && (forall t, u | 0 <= t < u < |ps| :: Claim(ps[t]) !! Claim(ps[u]))
    && (forall r | r in h.counts && h.counts[r] == 0 :: InHands(ps, r))
    && (forall r | r in h.closes && r !in h.counts ::
          h.closes[r] == (if r.Kid? && r.kind != Smbus then 0 else 1) || InHands(ps, r))
  }

  ghost predicate Fine(h: Heap) {
    Shape(h) && ClosedOnce(h)
  }

  ghost predicate Owned(h: Heap, ps: seq<Phase>) {
    Fine(h) && PhasesOk(h, ps) && Claims(h, ps)
  }

  /* ---------- what one thread does leaves the others alone ---------- */

  ghost predicate SameSlot(h: Heap, h': Heap, s: Slot) {
    (s in h.owners <==> s in h'.owners) && (s in h.owners ==> h.owners[s] == h'.owners[s])
  }

  ghost predicate SameBlock(h: Heap, h': Heap, r: Ref) {
    && (r in h.counts <==> r in h'.counts) && (r in h.counts ==> h.counts[r] == h'.counts[r])
    && (r in h.closes <==> r in h'.closes) && (r in h.closes ==> h.closes[r] == h'.closes[r])
    && (r in h.bound <==> r in h'.bound)
  }

  /** Members of children that somebody still owns. */
  ghost predicate SameMembers(h: Heap, h': Heap) {
    forall s | s in h.owners && h.owners[s].Kid? :: SameSlot(h, h', Member(h.owners[s]))
  }

  lemma PhaseFrame(h: Heap, h': Heap, u: nat, p: Phase)
    requires PhaseOk(h, u, p) && SameMembers(h, h') && SameSlot(h, h', Local(u))
    requires forall a | Uses(p, a) :: SameSlot(h, h', Object(a))
    requires forall r | r in Claim(p) :: SameBlock(h, h', r)
    ensures PhaseOk(h', u, p)
  {
    match p
    case Waiting(_, job, _, _) => if !job.Construct? { JobFrame(h, h', u, p); }
    case Holding(_, job, _) => if !job.Construct? { JobFrame(h, h', u, p); }
    case Guarded(handle, _) => assert Dev(handle) in Claim(p);
    case ClosingBus(kid) => assert kid in Claim(p);
    case LeavingDevice(kid) => assert kid in Claim(p);
    case ClosingHandle(handle) => assert Dev(handle) in Claim(p);
    case _ =>
  }

  lemma JobFrame(h: Heap, h': Heap, u: nat, p: Phase)
    requires (p.Waiting? || p.Holding?) && JobOk(h, u, p.handle, p.job)
    requires SameMembers(h, h') && SameSlot(h, h', Local(u))
    requires forall a | Uses(p, a) :: SameSlot(h, h', Object(a))
    ensures JobOk(h', u, p.handle, p.job)
  {
    if !p.job.Construct? {
      assert Uses(p, p.job.name);
    }
  }

  /** Thread `t` went from `ps[t]` to `p`, and only touched what it may touch. */
  lemma PhasesFrame(h: Heap, h': Heap, ps: seq<Phase>, t: nat, p: Phase)
    requires PhasesOk(h, ps) && t < |ps| && SameMembers(h, h')
    requires forall u: nat | u < |ps| && u != t :: SameSlot(h, h', Local(u))
    requires forall w | w in h'.owners && w.Local? :: w in h.owners || w == Local(t)
    requires forall u: nat, a | u < |ps| && u != t && Uses(ps[u], a) :: SameSlot(h, h', Object(a))
    requires forall u: nat, r | u < |ps| && u != t && r in Claim(ps[u]) :: SameBlock(h, h', r)
    requires PhaseOk(h', t, p)
    ensures PhasesOk(h', ps[t := p])
  {
    forall u: nat | u < |ps| && u != t ensures PhaseOk(h', u, ps[u]) {
      PhaseFrame(h, h', u, ps[u]);
    }
  }

  /** A claim is on a block without owners or on a resource without block. */
  lemma ClaimedIsUnowned(h: Heap, ps: seq<Phase>, u: nat, r: Ref)
    requires PhasesOk(h, ps) && u < |ps| && r in Claim(ps[u])
    ensures r in h.counts ==> h.counts[r] == 0
    ensures r in h.closes || r in h.counts
  {
    assert PhaseOk(h, u, ps[u]);
  }

  lemma ClaimsFrame(h: Heap, h': Heap, ps: seq<Phase>, t: nat, p: Phase)
    requires PhasesOk(h, ps) && Claims(h, ps) && t < |ps|
    requires forall r | r in Claim(p) && r !in Claim(ps[t]) ::
               if r in h.counts then h.counts[r] > 0 else r !in h.closes
    requires forall r | r in h'.counts && h'.counts[r] == 0 ::
               r in Claim(p) || (r in h.counts && h.counts[r] == 0 && r !in Claim(ps[t]))
    requires forall r | r in h'.closes && r !in h'.counts ::
               || h'.closes[r] == (if r.Kid? && r.kind != Smbus then 0 else 1)
               || r in Claim(p)
               || (r in h.closes && r !in h.counts && h.closes[r] == h'.closes[r] && r !in Claim(ps[t]))
    ensures Claims(h', ps[t := p])
  {
    var ps' := ps[t := p];
    forall u: nat, r | u < |ps| && u != t && r in Claim(ps[u]) && r in Claim(p) ensures false {
      ClaimedIsUnowned(h, ps, u, r);
    }
    forall r | r !in Claim(ps[t]) && InHands(ps, r) ensures InHands(ps', r) {
      var u :| 0 <= u < |ps| && r in Claim(ps[u]);
      assert ps'[u] == ps[u];
    }
    forall r | r in Claim(p) ensures InHands(ps', r) {
      assert ps'[t] == p;
    }
  }

  /* ---------- the heap effects of the steps keep the heap fine ---------- */

  lemma AddChildFine(h: Heap, t: nat, k: Ref, d: Ref)
    requires Fine(h) && FreshChild(h, k) && Local(t) !in h.owners
    requires d.Dev? && d in h.counts && h.counts[d] > 0
    ensures Fine(Share(Create(h, Local(t), k), Member(k), d))
  {
  }

  lemma BuildFine(h: Heap, t: nat, d: Ref)
    requires Fine(h) && d.Dev? && d !in h.counts && Local(t) !in h.owners
    ensures Fine(Create(h, Local(t), d))
  {
  }

  lemma DropFine(h: Heap, t: nat)
    requires Fine(h) && Local(t) in h.owners && h.owners[Local(t)] in h.counts && h.counts[h.owners[Local(t)]] > 0
    ensures Fine(Drop(h, Local(t)))
  {
  }

  lemma LeaveDeviceFine(h: Heap, k: Ref)
    requires Fine(h) && k.Kid? && k in h.counts && h.counts[k] == 0 && k !in h.bound
    requires Live(h)
    ensures Fine(Free(Drop(h, Member(k)), k))
  {
  }

  lemma BusCloseFine(h: Heap, k: Ref)
    requires Fine(h) && k.Kid? && k in h.counts && h.counts[k] == 0 && h.closes[k] == 0
    ensures Fine(Close(h, k))
  {
  }

  lemma HandleCloseFine(h: Heap, d: Ref)
    requires Fine(h) && d.Dev? && d in h.counts && h.counts[d] == 0
    ensures Fine(Free(Close(h, d), d))
  {
  }

  lemma GuardCloseFine(h: Heap, d: Ref)
    requires Fine(h) && d.Dev? && d !in h.counts && d in h.closes
    ensures Fine(Close(h, d))
  {
  }

  lemma BindFine(h: Heap, k: Ref, handle: nat)
    requires Fine(h) && k.Kid? && k.kind == Smbus && k in h.counts && h.counts[k] > 0
    requires h.owners[Member(k)] == Dev(handle)
    ensures Fine(h.(bound := h.bound[k := handle]))
  {
  }

  /** Moving a pointer between an object and a local variable, the object table being right for it. */
  lemma MoveFine(h: Heap, from: Slot, to: Slot, objects: map<nat, Sort>)
    requires Fine(h) && !from.Member? && !to.Member? && to !in h.owners
    requires from in h.owners && to.Object? ==> to.name in objects && objects[to.name] == SortOf(h.owners[from])
    requires forall n | Object(n) in h.owners && Object(n) != from :: n in objects && objects[n] == h.objects[n]
    ensures Fine(Shift(h.(objects := objects), from, to))
  {
  }

  lemma CopyFine(h: Heap, a: nat, b: nat, objects: map<nat, Sort>)
    requires Fine(h) && Object(b) !in h.owners
    requires Object(a) in h.owners ==> h.owners[Object(a)] in h.counts && h.counts[h.owners[Object(a)]] > 0
    requires a in objects && b in objects && objects[a] == objects[b]
    requires forall n | Object(n) in h.owners :: n in objects && objects[n] == h.objects[n]
    ensures Fine(CopyInto(h.(objects := objects), a, b))
  {
  }

  /* ---------- every step ---------- */

  /** A step that changes no pointer and no claim. */
  lemma PhaseOnly(h: Heap, ps: seq<Phase>, t: nat, p: Phase)
    requires Owned(h, ps) && t < |ps| && PhaseOk(h, t, p) && Claim(p) == Claim(ps[t])
    ensures Owned(h, ps[t := p])
  {
    PhasesFrame(h, h, ps, t, p);
    ClaimsFrame(h, h, ps, t, p);
  }

  lemma OpenFine(h: Heap, d: Ref)
    requires Fine(h) && d !in h.closes
    ensures Fine(h.(closes := h.closes[d := 0]))
  {
  }

  lemma OpenPhases(h: Heap, ps: seq<Phase>, t: nat, handle: nat, setup: Section)
    requires PhasesOk(h, ps) && t < |ps| && ps[t].Idle?
    requires Dev(handle) !in h.closes && Dev(handle) !in h.counts
    ensures PhasesOk(h.(closes := h.closes[Dev(handle) := 0]), ps[t := Guarded(handle, setup)])
  {
    var h' := h.(closes := h.closes[Dev(handle) := 0]);
    assert PhaseOk(h, t, ps[t]);
    forall u: nat, q | u < |ps| && q in Claim(ps[u]) ensures SameBlock(h, h', q) {
      ClaimedIsUnowned(h, ps, u, q);
    }
    PhasesFrame(h, h', ps, t, Guarded(handle, setup));
  }

  lemma OpenOwned(h: Heap, ps: seq<Phase>, t: nat, handle: nat, setup: Section)
    requires Owned(h, ps) && t < |ps| && ps[t].Idle?
    requires Dev(handle) !in h.closes && Dev(handle) !in h.counts
    ensures Owned(h.(closes := h.closes[Dev(handle) := 0]), ps[t := Guarded(handle, setup)])
  {
    var h' := h.(closes := h.closes[Dev(handle) := 0]);
    OpenFine(h, Dev(handle));
    OpenPhases(h, ps, t, handle, setup);
    ClaimsFrame(h, h', ps, t, Guarded(handle, setup));
  }

  lemma NoStateMemoryOwned(h: Heap, ps: seq<Phase>, t: nat)
    requires Owned(h, ps) && t < |ps| && ps[t].Guarded?
    ensures Dev(ps[t].handle) in h.closes && Owned(Close(h, Dev(ps[t].handle)), ps[t := Idle])
  {
    assert PhaseOk(h, t, ps[t]);
    var d := Dev(ps[t].handle);
    var h' := Close(h, d);
    GuardCloseFine(h, d);
    forall u: nat, q | u < |ps| && u != t && q in Claim(ps[u]) ensures SameBlock(h, h', q) {
      assert d in Claim(ps[t]);
    }
    PhasesFrame(h, h', ps, t, Idle);
    ClaimsFrame(h, h', ps, t, Idle);
  }

  lemma BuildStateOwned(h: Heap, ps: seq<Phase>, t: nat)
    requires Owned(h, ps) && t < |ps| && ps[t].Guarded?
    ensures Owned(Create(h, Local(t), Dev(ps[t].handle)), ps[t := Doubled(ps[t].handle, ps[t].setup)])
  {
    assert PhaseOk(h, t, ps[t]);
    var d := Dev(ps[t].handle);
    var h' := Create(h, Local(t), d);
    var p := Doubled(ps[t].handle, ps[t].setup);
    BuildFine(h, t, d);
    forall u: nat, q | u < |ps| && u != t && q in Claim(ps[u]) ensures SameBlock(h, h', q) {
      assert d in Claim(ps[t]);
    }
    PhasesFrame(h, h', ps, t, p);
    ClaimsFrame(h, h', ps, t, p);
  }

  lemma AddChildPhases(h: Heap, ps: seq<Phase>, t: nat, a: nat, k: Ref, handle: nat, h': Heap, p: Phase)
    requires PhasesOk(h, ps) && t < |ps| && ps[t].Idle? && FreshChild(h, k) && Live(h) && HoldsDevice(h, a, handle)
    requires h' == Share(Create(h, Local(t), k), Member(k), Dev(handle))
    requires p.Publishing? || (p.Waiting? && p.handle == handle && p.job == Factory(a) && k.kind != Poller)
    ensures PhasesOk(h', ps[t := p])
  {
    assert PhaseOk(h, t, ps[t]);
    forall u: nat, q | u < |ps| && u != t && q in Claim(ps[u]) ensures SameBlock(h, h', q) {
      ClaimedIsUnowned(h, ps, u, q);
    }
    PhasesFrame(h, h', ps, t, p);
  }

  lemma AddChildOwned(h: Heap, ps: seq<Phase>, t: nat, a: nat, k: Ref, handle: nat, p: Phase)
    requires Live(h) && Owned(h, ps) && t < |ps| && ps[t].Idle? && FreshChild(h, k) && HoldsDevice(h, a, handle)
    requires p.Publishing? || (p.Waiting? && p.handle == handle && p.job == Factory(a) && k.kind != Poller)
    ensures Owned(Share(Create(h, Local(t), k), Member(k), Dev(handle)), ps[t := p])
  {
    assert PhaseOk(h, t, ps[t]);
    var h' := Share(Create(h, Local(t), k), Member(k), Dev(handle));
    AddChildFine(h, t, k, Dev(handle));
    AddChildPhases(h, ps, t, a, k, handle, h', p);
    hide Fine, PhasesOk, PhaseOk;
    ClaimsFrame(h, h', ps, t, p);
  }

  lemma BindPhases(h: Heap, ps: seq<Phase>, t: nat, h': Heap)
    requires Live(h) && PhasesOk(h, ps) && t < |ps| && ps[t].Holding? && ps[t].job.Factory?
    requires h' == h.(bound := h.bound[h.owners[Local(t)] := ps[t].handle])
    ensures PhasesOk(h', ps[t := Publishing])
  {
    assert PhaseOk(h, t, ps[t]);
    forall u: nat, q | u < |ps| && u != t && q in Claim(ps[u]) ensures SameBlock(h, h', q) {
      ClaimedIsUnowned(h, ps, u, q);
    }
    PhasesFrame(h, h', ps, t, Publishing);
  }

  lemma BindOwned(h: Heap, ps: seq<Phase>, t: nat)
    requires Live(h) && Owned(h, ps) && t < |ps| && ps[t].Holding? && ps[t].job.Factory?
    requires h.owners[Local(t)].kind == Smbus
    ensures Owned(h.(bound := h.bound[h.owners[Local(t)] := ps[t].handle]), ps[t := Publishing])
  {
    assert PhaseOk(h, t, ps[t]);
    var k := h.owners[Local(t)];
    var h' := h.(bound := h.bound[k := ps[t].handle]);
    BindFine(h, k, ps[t].handle);
    BindPhases(h, ps, t, h');
    ClaimsFrame(h, h', ps, t, Publishing);
  }

  lemma TakeOutPhases(h: Heap, ps: seq<Phase>, t: nat, a: nat, h': Heap)
    requires PhasesOk(h, ps) && t < |ps| && ps[t].Idle? && h' == TakeOut(h, a, t)
    requires forall u | 0 <= u < |ps| :: !Uses(ps[u], a)
    ensures PhasesOk(h', ps[t := DropIfAny(h', t)])
  {
    assert PhaseOk(h, t, ps[t]);
    PhasesFrame(h, h', ps, t, DropIfAny(h', t));
  }

  lemma TakeOutOwned(h: Heap, ps: seq<Phase>, t: nat, a: nat)
    requires Owned(h, ps) && t < |ps| && ps[t].Idle?
    requires forall u | 0 <= u < |ps| :: !Uses(ps[u], a)
    ensures Owned(TakeOut(h, a, t), ps[t := DropIfAny(TakeOut(h, a, t), t)])
  {
    assert PhaseOk(h, t, ps[t]);
    var h' := TakeOut(h, a, t);
    MoveFine(h, Object(a), Local(t), h.objects);
    TakeOutPhases(h, ps, t, a, h');
    ClaimsFrame(h, h', ps, t, DropIfAny(h', t));
  }

  /** A change to objects that no running method uses. */
  lemma ObjectsOwned(h: Heap, ps: seq<Phase>, h': Heap)
    requires Owned(h, ps) && Fine(h') && h'.closes == h.closes && h'.bound == h.bound
    requires h'.counts.Keys == h.counts.Keys
    requires forall r | r in h.counts :: (h.counts[r] == 0 <==> h'.counts[r] == 0)
    requires forall s: Slot | !s.Object? :: SameSlot(h, h', s)
    requires forall u, a | 0 <= u < |ps| && Uses(ps[u], a) :: SameSlot(h, h', Object(a))
    ensures Owned(h', ps)
  {
    forall u: nat | u < |ps| ensures PhaseOk(h', u, ps[u]) {
      forall q | q in Claim(ps[u]) ensures SameBlock(h, h', q) {
        ClaimedIsUnowned(h, ps, u, q);
      }
      PhaseFrame(h, h', u, ps[u]);
    }
  }

  lemma MoveOwned(h: Heap, ps: seq<Phase>, a: nat, b: nat)
    requires Owned(h, ps) && Object(b) !in h.owners && a in h.objects && b in h.objects && h.objects[a] == h.objects[b]
    requires forall u | 0 <= u < |ps| :: !Uses(ps[u], a) && !Uses(ps[u], b)
    ensures Owned(Shift(h, Object(a), Object(b)), ps)
  {
    MoveFine(h, Object(a), Object(b), h.objects);
    ObjectsOwned(h, ps, Shift(h, Object(a), Object(b)));
  }

  lemma CopyOwned(h: Heap, ps: seq<Phase>, a: nat, b: nat)
    requires Live(h) && Owned(h, ps) && Object(b) !in h.owners
    requires a in h.objects && b in h.objects && h.objects[a] == h.objects[b]
    requires forall u | 0 <= u < |ps| :: !Uses(ps[u], b)
    ensures Owned(CopyInto(h, a, b), ps)
  {
    CopyFine(h, a, b, h.objects);
    ObjectsOwned(h, ps, CopyInto(h, a, b));
  }

  lemma TableOwned(h: Heap, ps: seq<Phase>, objects: map<nat, Sort>)
    requires Owned(h, ps)
    requires forall n | Object(n) in h.owners :: n in objects && objects[n] == h.objects[n]
    ensures Owned(h.(objects := objects), ps)
  {
    ObjectsOwned(h, ps, h.(objects := objects));
  }

  lemma PublishOwned(h: Heap, ps: seq<Phase>, t: nat, b: nat)
    requires Owned(h, ps) && t < |ps| && ps[t].Publishing? && Object(b) !in h.owners
    requires forall u | 0 <= u < |ps| :: !Uses(ps[u], b)
    requires Local(t) in h.owners && b in h.objects && h.objects[b] == SortOf(h.owners[Local(t)])
    ensures Owned(Shift(h, Local(t), Object(b)), ps[t := Idle])
  {
    var h' := Shift(h, Local(t), Object(b));
    MoveFine(h, Local(t), Object(b), h.objects);
    PhasesFrame(h, h', ps, t, Idle);
    ClaimsFrame(h, h', ps, t, Idle);
  }

  lemma ReleasePhases(h: Heap, ps: seq<Phase>, t: nat, h': Heap, r: Ref)
    requires PhasesOk(h, ps) && t < |ps| && ps[t].Dropping?
    requires h.owners[Local(t)] == r && r in h.counts && h.counts[r] > 0 && h' == Drop(h, Local(t))
    requires r in h.closes && h.closes[r] == 0
    ensures PhasesOk(h', ps[t := AfterDrop(h', r)])
  {
    forall u: nat, q | u < |ps| && u != t && q in Claim(ps[u]) ensures SameBlock(h, h', q) {
      ClaimedIsUnowned(h, ps, u, q);
    }
    PhasesFrame(h, h', ps, t, AfterDrop(h', r));
  }

  lemma ReleaseClaims(h: Heap, ps: seq<Phase>, t: nat, h': Heap, r: Ref)
    requires PhasesOk(h, ps) && Claims(h, ps) && t < |ps| && ps[t].Dropping?
    requires h.owners[Local(t)] == r && r in h.counts && h.counts[r] > 0 && h' == Drop(h, Local(t))
    ensures Claims(h', ps[t := AfterDrop(h', r)])
  {
    ClaimsFrame(h, h', ps, t, AfterDrop(h', r));
  }

  lemma ReleaseOwned(h: Heap, ps: seq<Phase>, t: nat)
    requires Live(h) && Owned(h, ps) && t < |ps| && ps[t].Dropping?
    ensures Local(t) in h.owners
    ensures var h' := Drop(h, Local(t)); Owned(h', ps[t := AfterDrop(h', h.owners[Local(t)])])
  {
    assert PhaseOk(h, t, ps[t]);
    DropFine(h, t);
    var h' := Drop(h, Local(t));
    var r := h.owners[Local(t)];
    ReleasePhases(h, ps, t, h', r);
    ReleaseClaims(h, ps, t, h', r);
  }

  lemma BusCloseOwned(h: Heap, ps: seq<Phase>, t: nat)
    requires Owned(h, ps) && t < |ps| && ps[t].ClosingBus?
    ensures ps[t].kid in h.closes
    ensures var k := ps[t].kid;
            Owned(if k.Kid? && k.kind == Smbus then Close(h, k) else h, ps[t := LeavingDevice(k)])
  {
    assert PhaseOk(h, t, ps[t]);
    var k := ps[t].kid;
    if k.kind == Smbus {
      var h' := Close(h, k);
      BusCloseFine(h, k);
      forall u: nat, q | u < |ps| && u != t && q in Claim(ps[u]) ensures SameBlock(h, h', q) {
        assert k in Claim(ps[t]);
      }
      PhasesFrame(h, h', ps, t, LeavingDevice(k));
      ClaimsFrame(h, h', ps, t, LeavingDevice(k));
    } else {
      PhaseOnly(h, ps, t, LeavingDevice(k));
    }
  }

  lemma LeaveDeviceFrame(h: Heap, ps: seq<Phase>, t: nat, k: Ref, h': Heap)
    requires PhasesOk(h, ps) && Live(h) && t < |ps| && k in Claim(ps[t])
    requires k in h.counts && h.counts[k] == 0 && Member(k) in h.owners && h' == Free(Drop(h, Member(k)), k)
    requires forall u | 0 <= u < |ps| && u != t :: Claim(ps[u]) !! Claim(ps[t])
    ensures SameMembers(h, h')
    ensures forall u: nat, q | u < |ps| && u != t && q in Claim(ps[u]) :: SameBlock(h, h', q)
  {
    forall u: nat, q | u < |ps| && u != t && q in Claim(ps[u]) ensures SameBlock(h, h', q) {
      ClaimedIsUnowned(h, ps, u, q);
    }
  }

  lemma LeaveDevicePhases(h: Heap, ps: seq<Phase>, t: nat, k: Ref, h': Heap)
    requires PhasesOk(h, ps) && Claims(h, ps) && Live(h) && t < |ps| && ps[t] == LeavingDevice(k)
    requires Member(k) in h.owners && h.owners[Member(k)].Dev?
    requires k in h.counts && h.counts[k] == 0 && h' == Free(Drop(h, Member(k)), k)
    ensures PhasesOk(h', ps[t := AfterDrop(h', h.owners[Member(k)])])
  {
    assert PhaseOk(h, t, ps[t]);
    LeaveDeviceFrame(h, ps, t, k, h');
    PhasesFrame(h, h', ps, t, AfterDrop(h', h.owners[Member(k)]));
  }

  lemma LeaveDeviceClaims(h: Heap, ps: seq<Phase>, t: nat, k: Ref, h': Heap)
    requires PhasesOk(h, ps) && Claims(h, ps) && Live(h) && t < |ps| && ps[t] == LeavingDevice(k)
    requires Member(k) in h.owners && h.owners[Member(k)].Dev?
    requires k in h.counts && h.counts[k] == 0 && h' == Free(Drop(h, Member(k)), k)
    ensures Claims(h', ps[t := AfterDrop(h', h.owners[Member(k)])])
  {
    assert PhaseOk(h, t, ps[t]);
    ClaimsFrame(h, h', ps, t, AfterDrop(h', h.owners[Member(k)]));
  }

  lemma LeaveDeviceOwned(h: Heap, ps: seq<Phase>, t: nat)
    requires Live(h) && Owned(h, ps) && t < |ps| && ps[t].LeavingDevice?
    ensures Member(ps[t].kid) in h.owners
    ensures var h' := Free(Drop(h, Member(ps[t].kid)), ps[t].kid);
            Owned(h', ps[t := AfterDrop(h', h.owners[Member(ps[t].kid)])])
  {
    assert PhaseOk(h, t, ps[t]);
    var k := ps[t].kid;
    var h' := Free(Drop(h, Member(k)), k);
    LeaveDeviceFine(h, k);
    LeaveDevicePhases(h, ps, t, k, h');
    LeaveDeviceClaims(h, ps, t, k, h');
  }

  lemma HandleCloseOwned(h: Heap, ps: seq<Phase>, t: nat)
    requires Live(h) && Owned(h, ps) && t < |ps| && ps[t].ClosingHandle?
    ensures Dev(ps[t].handle) in h.closes
    ensures Owned(Free(Close(h, Dev(ps[t].handle)), Dev(ps[t].handle)), ps[t := Idle])
  {
    assert PhaseOk(h, t, ps[t]);
    var d := Dev(ps[t].handle);
    var h' := Free(Close(h, d), d);
    HandleCloseFine(h, d);
    forall u: nat, q | u < |ps| && u != t && q in Claim(ps[u]) ensures SameBlock(h, h', q) {
      assert d in Claim(ps[t]);
    }
    PhasesFrame(h, h', ps, t, Idle);
    ClaimsFrame(h, h', ps, t, Idle);
  }

  /* ---------- steps as events ---------- */

  ghost predicate Sound(s: State) {
    Counted(s.heap) && Owned(s.heap, s.threads)
  }

  lemma StartOwned(s: State, t: nat, e: Event)
    requires Live(s.heap) && Owned(s.heap, s.threads) && Enabled(s, t, e)
    requires e.Refuse? || e.Open? || e.Call? || e.MakeChild? || e.MakePoller?
    ensures var s' := Step(s, t, e); Owned(s'.heap, s'.threads)
  {
    var h, ps := s.heap, s.threads;
    assert PhaseOk(h, t, ps[t]);
    match e
    case Refuse(_) => assert ps[t := Idle] == ps;
    case Open(handle, _, setup) => OpenOwned(h, ps, t, handle, setup);
    case Call(a, section) => PhaseOnly(h, ps, t, Waiting(HandleOf(h, a), Method(a), section, s.clock));
    case MakeChild(a, id, kind, section) =>
      var handle :| HoldsDevice(h, a, handle);
      AddChildOwned(h, ps, t, a, Kid(id, kind), handle, Waiting(handle, Factory(a), section, s.clock));
    case MakePoller(a, id) =>
      var handle :| HoldsDevice(h, a, handle);
      AddChildOwned(h, ps, t, a, Kid(id, Poller), handle, Publishing);
  }

  lemma NewObjectOwned(s: State, t: nat, e: Event)
    requires Live(s.heap) && Owned(s.heap, s.threads) && Enabled(s, t, e) && (e.CopyNew? || e.MoveNew?)
    ensures var s' := Step(s, t, e); Owned(s'.heap, s'.threads)
  {
    var h, ps := s.heap, s.threads;
    var a, b := e.source, e.target;
    NewNameIsUnused(h, ps, b);
    var objects := h.objects[b := h.objects[a]];
    TableOwned(h, ps, objects);
    if e.CopyNew? { CopyOwned(h.(objects := objects), ps, a, b); } else { MoveOwned(h.(objects := objects), ps, a, b); }
    assert ps[t := Idle] == ps;
  }

  lemma GiveUpOwned(s: State, t: nat, e: Event)
    requires Live(s.heap) && Owned(s.heap, s.threads) && Enabled(s, t, e) && (e.Reset? || e.Destroy?)
    ensures var s' := Step(s, t, e); Owned(s'.heap, s'.threads)
  {
    var h, ps := s.heap, s.threads;
    var a := e.name;
    TakeOutOwned(h, ps, t, a);
    var h' := TakeOut(h, a, t);
    if e.Destroy? { TableOwned(h', ps[t := DropIfAny(h', t)], h'.objects - {a}); }
  }

  /** No method runs on an object that does not exist yet. */
  lemma NewNameIsUnused(h: Heap, ps: seq<Phase>, b: nat)
    requires Owned(h, ps) && b !in h.objects
    ensures Object(b) !in h.owners && forall u | 0 <= u < |ps| :: !Uses(ps[u], b)
  {
    forall u | 0 <= u < |ps| ensures !Uses(ps[u], b) {
      assert PhaseOk(h, u, ps[u]);
    }
  }

  /** Taking a pointer out of `b` keeps every block that some other pointer of `h` owns alive. */
  lemma TakeOutLive(h: Heap, b: nat, t: nat)
    requires Live(h)
    ensures Live(TakeOut(h, b, t))
  {
  }

  /** `b` receives a copy of what `a` holds; what `b` held is dropped next. */
  lemma CopyAssignOwned(h: Heap, ps: seq<Phase>, t: nat, a: nat, b: nat)
    requires Live(h) && Owned(h, ps) && t < |ps| && ps[t].Idle? && a != b
    requires a in h.objects && b in h.objects && h.objects[a] == h.objects[b]
    requires forall u | 0 <= u < |ps| :: !Uses(ps[u], b)
    ensures var g := TakeOut(h, b, t); Owned(CopyInto(g, a, b), ps[t := DropIfAny(g, t)])
  {
    TakeOutOwned(h, ps, t, b);
    TakeOutLive(h, b, t);
    CopyOwned(TakeOut(h, b, t), ps[t := DropIfAny(TakeOut(h, b, t), t)], a, b);
  }

  /** `b` takes over what `a` holds; what `b` held is dropped next. */
  lemma MoveAssignOwned(h: Heap, ps: seq<Phase>, t: nat, a: nat, b: nat)
    requires Owned(h, ps) && t < |ps| && ps[t].Idle? && a != b
    requires a in h.objects && b in h.objects && h.objects[a] == h.objects[b]
    requires forall u | 0 <= u < |ps| :: !Uses(ps[u], a) && !Uses(ps[u], b)
    ensures var g := TakeOut(h, b, t); Owned(Shift(g, Object(a), Object(b)), ps[t := DropIfAny(g, t)])
  {
    TakeOutOwned(h, ps, t, b);
    MoveOwned(TakeOut(h, b, t), ps[t := DropIfAny(TakeOut(h, b, t), t)], a, b);
  }

  lemma CopyAssignStepOwned(s: State, t: nat, e: Event)
    requires Live(s.heap) && Owned(s.heap, s.threads) && Enabled(s, t, e) && e.CopyAssign?
    ensures var s' := Step(s, t, e); Owned(s'.heap, s'.threads)
  {
    if e.source == e.target {
      assert s.threads[t := Idle] == s.threads;
    } else {
      CopyAssignOwned(s.heap, s.threads, t, e.source, e.target);
    }
  }

  lemma MoveAssignStepOwned(s: State, t: nat, e: Event)
    requires Owned(s.heap, s.threads) && Enabled(s, t, e) && e.MoveAssign?
    ensures var s' := Step(s, t, e); Owned(s'.heap, s'.threads)
  {
    if e.source == e.target {
      assert s.threads[t := Idle] == s.threads;
    } else {
      MoveAssignOwned(s.heap, s.threads, t, e.source, e.target);
    }
  }

  lemma SetUpStepOwned(s: State, t: nat, e: Event)
    requires Live(s.heap) && Owned(s.heap, s.threads) && Enabled(s, t, e)
    requires e.NoStateMemory? || e.BuildState?
    ensures var s' := Step(s, t, e); Owned(s'.heap, s'.threads)
  {
    assert PhaseOk(s.heap, t, s.threads[t]);
    if e.NoStateMemory? {
      NoStateMemoryOwned(s.heap, s.threads, t);
    } else {
      BuildStateOwned(s.heap, s.threads, t);
    }
  }

  lemma LockStepOwned(s: State, t: nat, e: Event)
    requires Owned(s.heap, s.threads) && Enabled(s, t, e)
    requires e.ReleaseGuard? || e.Acquire? || e.Native?
    ensures var s' := Step(s, t, e); Owned(s'.heap, s'.threads)
  {
    assert PhaseOk(s.heap, t, s.threads[t]);
    PhaseOnly(s.heap, s.threads, t, HeapStep(s, t, e).1);
  }

  lemma UnlockOwned(s: State, t: nat)
    requires Live(s.heap) && Owned(s.heap, s.threads) && Enabled(s, t, Unlock)
    ensures var s' := Step(s, t, Unlock); Owned(s'.heap, s'.threads)
  {
    var h, ps := s.heap, s.threads;
    var p := ps[t];
    assert PhaseOk(h, t, p);
    if p.job.Factory? && !OutcomeOf(p.exec).Threw? && h.owners[Local(t)].kind == Smbus {
      BindOwned(h, ps, t);
    } else {
      PhaseOnly(h, ps, t, HeapStep(s, t, Unlock).1);
    }
  }

  lemma EndStepOwned(s: State, t: nat, e: Event)
    requires Live(s.heap) && Owned(s.heap, s.threads) && Enabled(s, t, e)
    requires e.Publish? || e.Release? || e.BusClose? || e.LeaveDevice? || e.HandleClose?
    ensures var s' := Step(s, t, e); Owned(s'.heap, s'.threads)
  {
    var h, ps := s.heap, s.threads;
    assert PhaseOk(h, t, ps[t]);
    match e
    case Publish(b) =>
      NewNameIsUnused(h, ps, b);
      var objects := h.objects[b := SortOf(h.owners[Local(t)])];
      TableOwned(h, ps, objects);
      PublishOwned(h.(objects := objects), ps, t, b);
    case Release => ReleaseOwned(h, ps, t);
    case BusClose => BusCloseOwned(h, ps, t);
    case LeaveDevice => LeaveDeviceOwned(h, ps, t);
    case HandleClose => HandleCloseOwned(h, ps, t);
  }

  lemma StepOwned(s: State, t: nat, e: Event)
    requires Live(s.heap) && Owned(s.heap, s.threads) && Enabled(s, t, e)
    ensures var s' := Step(s, t, e); Owned(s'.heap, s'.threads)
  {
    if e.Refuse? || e.Open? || e.Call? || e.MakeChild? || e.MakePoller? { StartOwned(s, t, e); }
    else if e.CopyNew? || e.MoveNew? { NewObjectOwned(s, t, e); }
    else if e.Reset? || e.Destroy? { GiveUpOwned(s, t, e); }
    else if e.CopyAssign? { CopyAssignStepOwned(s, t, e); }
    else if e.MoveAssign? { MoveAssignStepOwned(s, t, e); }
    else if e.Unlock? { UnlockOwned(s, t); }
    else if e.Publish? || e.Release? || e.BusClose? || e.LeaveDevice? || e.HandleClose? { EndStepOwned(s, t, e); }
    else if e.NoStateMemory? || e.BuildState? { SetUpStepOwned(s, t, e); }
    else { LockStepOwned(s, t, e); }
  }

  /* ---------- the counts ---------- */

  lemma SameOwnersCounted(h: Heap, h': Heap)
    requires Counted(h) && h'.owners == h.owners && h'.counts == h.counts
    ensures Counted(h')
  {
    forall r ensures Holders(h', r) == Holders(h, r) {}
  }

  lemma CopyIntoCounted(h: Heap, a: nat, b: nat)
    requires Counted(h) && Object(b) !in h.owners
    ensures Counted(CopyInto(h, a, b))
  {
    if Object(a) in h.owners && h.owners[Object(a)] in h.counts { ShareCounted(h, Object(b), h.owners[Object(a)]); }
  }

  lemma ChildCounted(h: Heap, t: nat, k: Ref, d: Ref)
    requires Counted(h) && FreshChild(h, k) && Local(t) !in h.owners && d in h.counts
    ensures Counted(Share(Create(h, Local(t), k), Member(k), d))
  {
    CreateCounted(h, Local(t), k);
    ShareCounted(Create(h, Local(t), k), Member(k), d);
  }

  lemma ObjectsCounted(s: State, t: nat, e: Event)
    requires Counted(s.heap) && Owned(s.heap, s.threads) && Enabled(s, t, e)
    requires e.CopyNew? || e.MoveNew? || e.CopyAssign? || e.MoveAssign? || e.Reset? || e.Destroy?
    ensures Counted(Step(s, t, e).heap)
  {
    var h := s.heap;
    assert PhaseOk(h, t, s.threads[t]);
    if e.CopyNew? || e.MoveNew? {
      NewNameIsUnused(h, s.threads, e.target);
      var g := h.(objects := h.objects[e.target := h.objects[e.source]]);
      SameOwnersCounted(h, g);
      if e.CopyNew? {
        CopyIntoCounted(g, e.source, e.target);
      } else {
        ShiftCounted(g, Object(e.source), Object(e.target));
      }
    } else if e.CopyAssign? || e.MoveAssign? {
      var g := TakeOut(h, e.target, t);
      ShiftCounted(h, Object(e.target), Local(t));
      if e.CopyAssign? {
        CopyIntoCounted(g, e.source, e.target);
      } else {
        ShiftCounted(g, Object(e.source), Object(e.target));
      }
    } else {
      var g := TakeOut(h, e.name, t);
      ShiftCounted(h, Object(e.name), Local(t));
      if e.Destroy? { SameOwnersCounted(g, g.(objects := g.objects - {e.name})); }
    }
  }

  lemma NewBlockCounted(s: State, t: nat, e: Event)
    requires Counted(s.heap) && Owned(s.heap, s.threads) && Enabled(s, t, e)
    requires e.MakeChild? || e.MakePoller? || e.BuildState?
    ensures Counted(Step(s, t, e).heap)
  {
    assert PhaseOk(s.heap, t, s.threads[t]);
    if e.BuildState? {
      CreateCounted(s.heap, Local(t), Dev(s.threads[t].handle));
    } else {
      CountedIsLive(s.heap);
      var k := Kid(e.id, if e.MakeChild? then e.kind else Poller);
      ChildCounted(s.heap, t, k, s.heap.owners[Object(e.name)]);
    }
  }

  lemma TearDownCounted(s: State, t: nat, e: Event)
    requires Counted(s.heap) && Owned(s.heap, s.threads) && Enabled(s, t, e)
    requires e.Publish? || e.Release? || e.LeaveDevice? || e.HandleClose?
    ensures Counted(Step(s, t, e).heap)
  {
    var h, p := s.heap, s.threads[t];
    assert PhaseOk(h, t, p);
    match e
    case Publish(b) =>
      NewNameIsUnused(h, s.threads, b);
      var g := h.(objects := h.objects[b := SortOf(h.owners[Local(t)])]);
      SameOwnersCounted(h, g);
      ShiftCounted(g, Local(t), Object(b));
    case Release => DropCounted(h, Local(t));
    case LeaveDevice =>
      DropCounted(h, Member(p.kid));
      FreeCounted(Drop(h, Member(p.kid)), p.kid);
    case HandleClose =>
      SameOwnersCounted(h, Close(h, Dev(p.handle)));
      FreeCounted(Close(h, Dev(p.handle)), Dev(p.handle));
  }

  /** The remaining steps leave every pointer and every count as it is. */
  lemma OtherStepsCounted(s: State, t: nat, e: Event)
    requires Counted(s.heap) && Enabled(s, t, e)
    requires || e.Refuse? || e.Open? || e.Call? || e.NoStateMemory? || e.ReleaseGuard?
             || e.Acquire? || e.Native? || e.Unlock? || e.BusClose?
    ensures Counted(Step(s, t, e).heap)
  {
    SameOwnersCounted(s.heap, Step(s, t, e).heap);
  }

  lemma StepCounted(s: State, t: nat, e: Event)
    requires Counted(s.heap) && Owned(s.heap, s.threads) && Enabled(s, t, e)
    ensures Counted(Step(s, t, e).heap)
  {
    if e.MakeChild? || e.MakePoller? || e.BuildState? { NewBlockCounted(s, t, e); }
    else if e.Publish? || e.Release? || e.LeaveDevice? || e.HandleClose? { TearDownCounted(s, t, e); }
    else if e.CopyNew? || e.MoveNew? || e.CopyAssign? || e.MoveAssign? || e.Reset? || e.Destroy? {
      ObjectsCounted(s, t, e);
    }
    else { OtherStepsCounted(s, t, e); }
  }

  lemma StepSound(s: State, t: nat, e: Event)
    requires Sound(s) && Enabled(s, t, e)
    ensures Sound(Step(s, t, e))
  {
    CountedIsLive(s.heap);
    StepOwned(s, t, e);
    StepCounted(s, t, e);
  }


  lemma InitialSound(s: State)
    requires Initial(s)
    ensures Sound(s)
  {
  }
}
