/** Threads that open devices, make children, call methods and drop objects, one step at a time.

    A step is what one thread does between two points where another thread may run.  The user keeps
    the usual C++ rule: an object is not moved from, assigned to, closed or destroyed while a method
    runs on it.  Copying such an object is allowed. */
module DeviceSharing {
  import opened LockedSections
  import opened SmartPointers

  /** Why a thread waits for or holds a mutex. */
  datatype Job =
    | Method(name: nat)    // a lock-then-call method of one of the user's objects
    | Construct              // the constructor of Device, once its DeviceState exists
    | Factory(name: nat)   // Device::i2cDevice or Device::smbusDevice

  datatype Phase =
    | Idle
    | Guarded(handle: nat, setup: Section)   // handleGuard owns the new handle
    | Doubled(handle: nat, setup: Section)   // the DeviceState owns it as well
    | Waiting(handle: nat, job: Job, section: Section, invoked: nat)
    | Holding(handle: nat, job: Job, exec: Exec)
    | Publishing                             // Local(t) is about to become a user's object
    | Dropping                               // Local(t) is about to go out of scope
    | ClosingBus(kid: Ref)                   // a child state is being destroyed: its destructor body
    | LeavingDevice(kid: Ref)                // ... and then its `device` member
    | ClosingHandle(handle: nat)             // a DeviceState is being destroyed

  datatype Progress = Pending | Done(outcome: Outcome, released: nat)

  /** One section in the history of a mutex. */
  datatype Entry = Entry(section: Section, invoked: nat, acquired: nat, progress: Progress)

  datatype Locks = Locks(
    holder: map<nat, nat>,             // the locked mutexes, each with its thread
    first: map<nat, Hardware>,         // what `open` delivered
    hardware: map<nat, Hardware>,      // what is there now
    history: map<nat, seq<Entry>>)     // the sections of each mutex, in the order they got it

  datatype State = State(heap: Heap, locks: Locks, threads: seq<Phase>, clock: nat)

  datatype Reason = EmptyObject(name: nat) | BadArgument | OpenFailed | NoMemory

  datatype Event =
    // an idle thread begins an operation
    | Refuse(reason: Reason)
    | Open(handle: nat, hardware: Hardware, setup: Section)
    | Call(name: nat, section: Section)
    | MakeChild(name: nat, id: nat, kind: Kind, section: Section)
    | MakePoller(name: nat, id: nat)
    | CopyNew(source: nat, target: nat)
    | MoveNew(source: nat, target: nat)
    | CopyAssign(source: nat, target: nat)
    | MoveAssign(source: nat, target: nat)
    | Reset(name: nat)
    | Destroy(name: nat)
    // a thread goes on with one
    | NoStateMemory
    | BuildState
    | ReleaseGuard
    | Acquire
    | Native
    | Unlock
    | Publish(name: nat)
    | Release
    | BusClose
    | LeaveDevice
    | HandleClose

  predicate Begins(e: Event) {
    || e.Refuse? || e.Open? || e.Call? || e.MakeChild? || e.MakePoller? || e.CopyNew? || e.MoveNew?
    || e.CopyAssign? || e.MoveAssign? || e.Reset? || e.Destroy?
  }

  function SortOf(r: Ref): Sort {
    match r
    case Dev(_) => DeviceObject
    case Kid(_, kind) => ChildObject(kind)
  }

  /** A method is running on object `a`. */
  predicate Uses(p: Phase, a: nat) {
    (p.Waiting? || p.Holding?) && (p.job == Method(a) || p.job == Factory(a))
  }

  ghost predicate Unused(s: State, a: nat) {
    forall u | 0 <= u < |s.threads| :: !Uses(s.threads[u], a)
  }

  /** The handle an object works on, directly or through its child state. */
  ghost predicate Reaches(h: Heap, a: nat, handle: nat) {
    Object(a) in h.owners &&
    match h.owners[Object(a)]
    case Dev(d) => d == handle
    case Kid(_, _) =>
      var member := Member(h.owners[Object(a)]);
      member in h.owners && h.owners[member] == Dev(handle)
  }

  ghost predicate HoldsDevice(h: Heap, a: nat, handle: nat) {
    Object(a) in h.owners && h.owners[Object(a)] == Dev(handle)
  }

  ghost predicate FreshChild(h: Heap, k: Ref) {
    k.Kid? && k !in h.closes && k !in h.counts && Member(k) !in h.owners
  }

  ghost predicate Copyable(h: Heap, a: nat) {
    a in h.objects && (h.objects[a] == ChildObject(I2c) || h.objects[a] == ChildObject(Smbus))
  }

  ghost predicate Assignable(s: State, source: nat, target: nat) {
    && source in s.heap.objects && target in s.heap.objects
    && s.heap.objects[source] == s.heap.objects[target]
    && Unused(s, target)
  }

  ghost predicate Finishing(e: Exec) {
    e.Finished? || |e.rest| == 0
  }

  ghost function OutcomeOf(e: Exec): Outcome
    requires Finishing(e)
  {
    if e.Finished? then e.outcome else Returned(e.locals)
  }

  ghost predicate Enabled(s: State, t: nat, e: Event)
  {
    t < |s.threads| &&
    var h := s.heap;
    var p := s.threads[t];
    match e
    case Refuse(EmptyObject(a)) => p.Idle? && a in h.objects && Object(a) !in h.owners
    case Refuse(_) => p.Idle?
    case Open(handle, _, _) =>
      p.Idle? && Dev(handle) !in h.closes && Dev(handle) !in h.counts && handle !in s.locks.hardware
    case Call(a, _) => p.Idle? && exists handle :: Reaches(h, a, handle)
    case MakeChild(a, id, kind, _) =>
      p.Idle? && kind != Poller && FreshChild(h, Kid(id, kind)) && exists handle :: HoldsDevice(h, a, handle)
    case MakePoller(a, id) =>
      p.Idle? && FreshChild(h, Kid(id, Poller)) && exists handle :: HoldsDevice(h, a, handle)
    case CopyNew(a, b) => p.Idle? && Copyable(h, a) && b !in h.objects
    case MoveNew(a, b) => p.Idle? && a in h.objects && b !in h.objects && Unused(s, a)
    case CopyAssign(a, b) => p.Idle? && Copyable(h, a) && Assignable(s, a, b)
    case MoveAssign(a, b) => p.Idle? && Unused(s, a) && Assignable(s, a, b)
    case Reset(a) => p.Idle? && a in h.objects && h.objects[a].DeviceObject? && Unused(s, a)
    case Destroy(a) => p.Idle? && a in h.objects && Unused(s, a)
    case NoStateMemory => p.Guarded?
    case BuildState => p.Guarded?
    case ReleaseGuard => p.Doubled?
    case Acquire => p.Waiting? && p.handle !in s.locks.holder
    case Native => p.Holding? && !Finishing(p.exec)
    case Unlock => p.Holding? && Finishing(p.exec)
    case Publish(b) => p.Publishing? && b !in h.objects
    case Release => p.Dropping?
    case BusClose => p.ClosingBus?
    case LeaveDevice => p.LeavingDevice?
    case HandleClose => p.ClosingHandle?
  }

  ghost function HandleOf(h: Heap, a: nat): nat
    requires exists handle :: Reaches(h, a, handle)
    ensures Reaches(h, a, HandleOf(h, a))
  {
    var handle :| Reaches(h, a, handle); handle
  }

  /** The block that has lost its last owner, if `r` is one, is destroyed by the thread that dropped it. */
  ghost function AfterDrop(h: Heap, r: Ref): Phase {
    if r in h.counts && h.counts[r] == 0 then (if r.Dev? then ClosingHandle(r.handle) else ClosingBus(r)) else Idle
  }

  /** Take the pointer out of object `a`; whoever runs this then drops what was in it. */
  function TakeOut(h: Heap, a: nat, t: nat): Heap {
    Shift(h, Object(a), Local(t))
  }

  function DropIfAny(h: Heap, t: nat): Phase {
    if Local(t) in h.owners then Dropping else Idle
  }

  function CopyInto(h: Heap, a: nat, b: nat): Heap {
    if Object(a) in h.owners && h.owners[Object(a)] in h.counts then Share(h, Object(b), h.owners[Object(a)]) else h
  }

  /** The heap and the next phase of thread `t`. */
  ghost function HeapStep(s: State, t: nat, e: Event): (Heap, Phase)
    requires Enabled(s, t, e)
  {
    var h := s.heap;
    var p := s.threads[t];
    match e
    case Refuse(_) => (h, Idle)
    case Open(handle, _, setup) => (h.(closes := h.closes[Dev(handle) := 0]), Guarded(handle, setup))
    case Call(a, section) => (h, Waiting(HandleOf(h, a), Method(a), section, s.clock))
    case MakeChild(a, id, kind, section) =>
      var d := h.owners[Object(a)];
      var k := Kid(id, kind);
      var h' := Create(h, Local(t), k);
      if d !in h'.counts then (h, p)
      else (Share(h', Member(k), d), Waiting(d.handle, Factory(a), section, s.clock))
    case MakePoller(a, id) =>
      var d := h.owners[Object(a)];
      var k := Kid(id, Poller);
      var h' := Create(h, Local(t), k);
      if d !in h'.counts then (h, p) else (Share(h', Member(k), d), Publishing)
    case CopyNew(a, b) => (CopyInto(h.(objects := h.objects[b := h.objects[a]]), a, b), Idle)
    case MoveNew(a, b) => (Shift(h.(objects := h.objects[b := h.objects[a]]), Object(a), Object(b)), Idle)
    case CopyAssign(a, b) =>
      if a == b then (h, Idle) else var h' := CopyInto(TakeOut(h, b, t), a, b); (h', DropIfAny(h', t))
    case MoveAssign(a, b) =>
      if a == b then (h, Idle) else var h' := Shift(TakeOut(h, b, t), Object(a), Object(b)); (h', DropIfAny(h', t))
    case Reset(a) => var h' := TakeOut(h, a, t); (h', DropIfAny(h', t))
    case Destroy(a) => var h' := TakeOut(h, a, t); (h'.(objects := h'.objects - {a}), DropIfAny(h', t))
    case NoStateMemory => if Dev(p.handle) in h.closes then (Close(h, Dev(p.handle)), Idle) else (h, Idle)
    case BuildState => (Create(h, Local(t), Dev(p.handle)), Doubled(p.handle, p.setup))
    case ReleaseGuard => (h, Waiting(p.handle, Construct, p.setup, s.clock))
    case Acquire => (h, Holding(p.handle, p.job, Running(p.section.body, p.section.start)))
    case Native =>
      if p.handle in s.locks.hardware
      then (h, p.(exec := Advance(p.exec, s.locks.hardware[p.handle]).1))
      else (h, p)
    case Unlock =>
      var failed := OutcomeOf(p.exec).Threw?;
      (match p.job
       case Method(_) => (h, Idle)
       case Construct => (h, if failed then Dropping else Publishing)
       case Factory(_) =>
         if failed then (h, Dropping)
         else if Local(t) in h.owners && h.owners[Local(t)].Kid? && h.owners[Local(t)].kind == Smbus
         then (h.(bound := h.bound[h.owners[Local(t)] := p.handle]), Publishing)
         else (h, Publishing))
    case Publish(b) =>
      if Local(t) in h.owners
      then (Shift(h.(objects := h.objects[b := SortOf(h.owners[Local(t)])]), Local(t), Object(b)), Idle)
      else (h, Idle)
    case Release =>
      if Local(t) in h.owners && h.owners[Local(t)] in h.counts && h.counts[h.owners[Local(t)]] > 0
      then var h' := Drop(h, Local(t)); (h', AfterDrop(h', h.owners[Local(t)]))
      else (h, Idle)
    case BusClose =>
      (if p.kid.Kid? && p.kid.kind == Smbus && p.kid in h.closes then Close(h, p.kid) else h, LeavingDevice(p.kid))
    case LeaveDevice =>
      var m := Member(p.kid);
      if m in h.owners && h.owners[m] in h.counts && h.counts[h.owners[m]] > 0
      then var h' := Free(Drop(h, m), p.kid); (h', AfterDrop(h', h.owners[m]))
      else (h, Idle)
    case HandleClose =>
      if Dev(p.handle) in h.closes then (Free(Close(h, Dev(p.handle)), Dev(p.handle)), Idle) else (h, Idle)
  }

  /** `open` adds a free mutex. */
  function WithHandle(l: Locks, handle: nat, hardware: Hardware): Locks {
    l.(first := l.first[handle := hardware], hardware := l.hardware[handle := hardware],
       history := l.history[handle := []])
  }

  /** The three steps inside a mutex change one entry of each map. */
  function WithLog(l: Locks, handle: nat, holder: map<nat, nat>, now: Hardware, log: seq<Entry>): Locks {
    l.(holder := holder, hardware := l.hardware[handle := now], history := l.history[handle := log])
  }

  function AcquiredBy(l: Locks, t: nat, p: Phase, clock: nat): Locks
    requires p.Waiting? && p.handle in l.history && p.handle in l.hardware
  {
    WithLog(l, p.handle, l.holder[p.handle := t], l.hardware[p.handle],
            l.history[p.handle] + [Entry(p.section, p.invoked, clock, Pending)])
  }

  ghost function AfterNative(l: Locks, p: Phase): Locks
    requires p.Holding? && !Finishing(p.exec) && p.handle in l.history && p.handle in l.hardware
  {
    WithLog(l, p.handle, l.holder, Advance(p.exec, l.hardware[p.handle]).0, l.history[p.handle])
  }

  ghost function AfterUnlock(l: Locks, p: Phase, clock: nat): Locks
    requires p.Holding? && Finishing(p.exec) && p.handle in l.history && p.handle in l.hardware
    requires |l.history[p.handle]| > 0
  {
    var log := l.history[p.handle];
    var last := |log| - 1;
    WithLog(l, p.handle, l.holder - {p.handle}, l.hardware[p.handle],
            log[last := log[last].(progress := Done(OutcomeOf(p.exec), clock))])
  }

  ghost function LocksStep(s: State, t: nat, e: Event): Locks
    requires Enabled(s, t, e)
  {
    var l := s.locks;
    var p := s.threads[t];
    match e
    case Open(handle, hardware, _) => WithHandle(l, handle, hardware)
    case Acquire => if p.handle in l.history && p.handle in l.hardware then AcquiredBy(l, t, p, s.clock) else l
    case Native => if p.handle in l.history && p.handle in l.hardware then AfterNative(l, p) else l
    case Unlock =>
      if p.handle in l.history && p.handle in l.hardware && |l.history[p.handle]| > 0
      then AfterUnlock(l, p, s.clock)
      else l
    case _ => l
  }

  ghost function Step(s: State, t: nat, e: Event): State
    requires Enabled(s, t, e)
  {
    var (heap, phase) := HeapStep(s, t, e);
    State(heap, LocksStep(s, t, e), s.threads[t := phase], s.clock + 1)
  }

  /** No object, no handle, and any number of idle threads. */
  ghost predicate Initial(s: State) {
    && s.heap == Heap(map[], map[], map[], map[], map[])
    && s.locks == Locks(map[], map[], map[], map[])
    && forall t | 0 <= t < |s.threads| :: s.threads[t] == Idle
  }

  type Trace = seq<(nat, Event)>

  ghost predicate Runs(s: State, trace: Trace)
    decreases |trace|
  {
    |trace| == 0 ||
    (Enabled(s, trace[0].0, trace[0].1) && Runs(Step(s, trace[0].0, trace[0].1), trace[1..]))
  }

  ghost function After(s: State, trace: Trace): State
    requires Runs(s, trace)
    decreases |trace|
  {
    if |trace| == 0 then s else After(Step(s, trace[0].0, trace[0].1), trace[1..])
  }
}
