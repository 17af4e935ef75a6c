/** The library's operations as programs with scopes: each takes the device mutex at most once, calls
    natively only under it, and lets go of what it owns only after giving it back. */
module LockDiscipline {
  import opened LockedSections

  datatype Computed = Ok(locals: Locals) | Raise(error: Failure)

  /** Code that touches no shared state: checks, conversions, allocations. */
  type Compute = Locals -> Computed

  datatype Code =
    | Local(f: Compute)
    | Native(m: Micro)
    | Then(first: Code, rest: Code)
    | Locked(body: Code)    // a block that begins with a lock_guard
    | Owning(body: Code)    // a block that begins with a shared state, dropped if the block throws
    | Invoke(op: Operation) // a call of another member function

  /** The operations, those that differ in nothing but the native call taken together. */
  datatype Operation =
    | NewDevice
    | NewDefaultDevice
    | MakeI2c
    | MakeDefaultI2c
    | MakeSmbus
    | MakePoller
    | SetFilter
    | ClearFilter
    | LockedMethod(name: nat)   // locks to the end, as setI2cSpeed or I2cDevice::write
    | ScopedMethod(name: nat)   // locks in a block and then converts the result, as readGpio or pollEvents
    | CheckedMethod(name: nat)  // checks the result under the lock, as readBlockData
    | VectorOverload(name: nat) // passes a vector on to a LockedMethod

  /** What the individual steps of the operations do: anything. */
  datatype Parts = Parts(local: (Operation, nat) -> Compute, native: (Operation, nat) -> Micro)

  /** How deep the calls below an operation nest. */
  function Rank(op: Operation): nat {
    match op
    case NewDefaultDevice => 1
    case MakeDefaultI2c => 1
    case ClearFilter => 1
    case VectorOverload(_) => 1
    case _ => 0
  }

  function Depth(c: Code): nat {
    match c
    case Local(_) => 0
    case Native(_) => 0
    case Then(a, b) => if Depth(a) < Depth(b) then Depth(b) else Depth(a)
    case Locked(body) => Depth(body)
    case Owning(body) => Depth(body)
    case Invoke(op) => Rank(op) + 1
  }

  function LocalStep(parts: Parts, op: Operation, i: nat): (c: Code)
    ensures Depth(c) == 0
  {
    Local(parts.local(op, i))
  }

  function NativeStep(parts: Parts, op: Operation, i: nat): (c: Code)
    ensures Depth(c) == 0
  {
    Native(parts.native(op, i))
  }

  /** The three calls of the constructor of Device: best effort release, safe speed, requested speed. */
  function SetUp(parts: Parts): (c: Code)
    ensures Depth(c) == 0
  {
    var speeds := Then(NativeStep(parts, NewDevice, 1), NativeStep(parts, NewDevice, 2));
    assert Depth(speeds) == 0;
    Then(NativeStep(parts, NewDevice, 0), speeds)
  }

  function Body(parts: Parts, op: Operation): (c: Code)
    ensures Depth(c) <= Rank(op)
  {
    match op
    case NewDevice => // check, open, make the state; then set up
      var owned := Owning(Locked(SetUp(parts)));
      assert Depth(owned) == 0;
      var made := Then(LocalStep(parts, op, 2), owned);
      assert Depth(made) == 0;
      Then(LocalStep(parts, op, 0), Then(LocalStep(parts, op, 1), made))
    case NewDefaultDevice => Invoke(NewDevice)
    case MakeI2c => // check, make the state; then convert the byte order, initialize
      var section := Then(LocalStep(parts, op, 2), NativeStep(parts, op, 0));
      assert Depth(section) == 0;
      var owned := Owning(Locked(section));
      assert Depth(owned) == 0;
      Then(LocalStep(parts, op, 0), Then(LocalStep(parts, op, 1), owned))
    case MakeDefaultI2c => Invoke(MakeI2c)
    case MakeSmbus =>
      var owned := Owning(Locked(NativeStep(parts, op, 0)));
      assert Depth(owned) == 0;
      Then(LocalStep(parts, op, 0), Then(LocalStep(parts, op, 1), owned))
    case MakePoller => Then(LocalStep(parts, op, 0), LocalStep(parts, op, 1))
    case SetFilter => Then(LocalStep(parts, op, 0), Then(LocalStep(parts, op, 1), Locked(NativeStep(parts, op, 0))))
    case ClearFilter => Invoke(SetFilter)
    case LockedMethod(_) => Then(LocalStep(parts, op, 0), Locked(NativeStep(parts, op, 0)))
    case ScopedMethod(_) =>
      Then(LocalStep(parts, op, 0), Then(Locked(NativeStep(parts, op, 0)), LocalStep(parts, op, 1)))
    case CheckedMethod(_) =>
      var section := Then(NativeStep(parts, op, 0), LocalStep(parts, op, 1));
      assert Depth(section) == 0;
      Then(LocalStep(parts, op, 0), Locked(section))
    case VectorOverload(name) => Invoke(LockedMethod(name))
  }

  /** How a program ends: normally, by an exception, or by one of three mistakes. */
  datatype Ending =
    | Fell(locals: Locals)
    | Raised(error: Failure)
    | Deadlock      // it locks the mutex that it holds
    | Race          // it calls natively without the mutex
    | UnsafeDrop    // it lets go of a shared state, and perhaps destroys its mutex, while it holds that

  /** A program run by one thread.  Leaving a block, also by an exception, undoes what it began with. */
  ghost function Run(parts: Parts, c: Code, h: Hardware, l: Locals, held: bool): (Hardware, Ending)
    decreases Depth(c), c
  {
    match c
    case Local(f) => (match f(l) case Ok(l') => (h, Fell(l')) case Raise(error) => (h, Raised(error)))
    case Native(m) =>
      if !held then (h, Race)
      else (match m(h, l) case Next(h', l') => (h', Fell(l')) case Fail(h', error) => (h', Raised(error)))
    case Then(a, b) =>
      var (h', e) := Run(parts, a, h, l, held);
      if e.Fell? then Run(parts, b, h', e.locals, held) else (h', e)
    case Locked(body) => if held then (h, Deadlock) else Run(parts, body, h, l, true)
    case Owning(body) =>
      var (h', e) := Run(parts, body, h, l, held);
      (h', if e.Raised? && held then UnsafeDrop else e)
    case Invoke(op) => Run(parts, Body(parts, op), h, l, held)
  }

  /* ----- The shape of an operation ----- */

  /** Local code, then perhaps one section under the mutex, then local code again. */
  datatype Shape = Shape(before: seq<Compute>, locks: bool, section: seq<Micro>, after: seq<Compute>)

  ghost function ComputeAll(fs: seq<Compute>, l: Locals): Computed {
    if fs == [] then Ok(l)
    else match fs[0](l) case Ok(l') => ComputeAll(fs[1..], l') case Raise(error) => Raise(error)
  }

  ghost function EndOf(r: Computed): Ending {
    match r case Ok(l) => Fell(l) case Raise(error) => Raised(error)
  }

  ghost function EndOfSection(o: Outcome): Ending {
    match o case Returned(l) => Fell(l) case Threw(error) => Raised(error)
  }

  /** A shape run as the transition system does: refuse, or wait with a section of which the start is what
      the local code has computed, run it, and go on with what it returned. */
  ghost function Staged(s: Shape, h: Hardware, l: Locals): (Hardware, Ending) {
    match ComputeAll(s.before, l)
    case Raise(error) => (h, Raised(error))
    case Ok(start) =>
      if !s.locks then (h, Fell(start))
      else
        var (h', outcome) := Atomic(Section(start, s.section), h);
        match outcome
        case Threw(error) => (h', Raised(error))
        case Returned(l') => (h', EndOf(ComputeAll(s.after, l')))
  }

  /** Local code only. */
  ghost predicate Straight(parts: Parts, c: Code)
    decreases Depth(c), c
  {
    match c
    case Local(_) => true
    case Native(_) => false
    case Then(a, b) => Straight(parts, a) && Straight(parts, b)
    case Locked(_) => false
    case Owning(body) => Straight(parts, body)
    case Invoke(op) => Straight(parts, Body(parts, op))
  }

  /** Code fit to run under the mutex. */
  ghost predicate Inner(parts: Parts, c: Code)
    decreases Depth(c), c
  {
    match c
    case Local(_) => true
    case Native(_) => true
    case Then(a, b) => Inner(parts, a) && Inner(parts, b)
    case Locked(_) => false
    case Owning(_) => false
    case Invoke(op) => Inner(parts, Body(parts, op))
  }

  /** Exactly one section on every path that gets so far. */
  ghost predicate Single(parts: Parts, c: Code)
    decreases Depth(c), c
  {
    match c
    case Local(_) => false
    case Native(_) => false
    case Then(a, b) => (Straight(parts, a) && Single(parts, b)) || (Single(parts, a) && Straight(parts, b))
    case Locked(body) => Inner(parts, body)
    case Owning(body) => Single(parts, body)
    case Invoke(op) => Single(parts, Body(parts, op))
  }

  ghost function Computes(parts: Parts, c: Code): seq<Compute>
    requires Straight(parts, c)
    decreases Depth(c), c
  {
    match c
    case Local(f) => [f]
    case Then(a, b) => Computes(parts, a) + Computes(parts, b)
    case Owning(body) => Computes(parts, body)
    case Invoke(op) => Computes(parts, Body(parts, op))
  }

  ghost function Lifted(f: Compute): Micro {
    (h, l) => match f(l) case Ok(l') => Next(h, l') case Raise(error) => Fail(h, error)
  }

  ghost function Micros(parts: Parts, c: Code): seq<Micro>
    requires Inner(parts, c)
    decreases Depth(c), c
  {
    match c
    case Local(f) => [Lifted(f)]
    case Native(m) => [m]
    case Then(a, b) => Micros(parts, a) + Micros(parts, b)
    case Invoke(op) => Micros(parts, Body(parts, op))
  }

  ghost function Unfold(parts: Parts, c: Code): Shape
    requires Straight(parts, c) || Single(parts, c)
    decreases Depth(c), c
  {
    if Straight(parts, c) then Shape(Computes(parts, c), false, [], [])
    else
      match c
      case Then(a, b) =>
        if Straight(parts, a) then
          var s := Unfold(parts, b); s.(before := Computes(parts, a) + s.before)
        else
          var s := Unfold(parts, a); s.(after := s.after + Computes(parts, b))
      case Locked(body) => Shape([], true, Micros(parts, body), [])
      case Owning(body) => Unfold(parts, body)
      case Invoke(op) => Unfold(parts, Body(parts, op))
  }

  lemma {:induction false} ComputeConcat(a: seq<Compute>, b: seq<Compute>, l: Locals)
    ensures ComputeAll(a + b, l)
            == match ComputeAll(a, l) case Ok(l') => ComputeAll(b, l') case Raise(error) => Raise(error)
    decreases |a|
  {
    if a == [] {
      assert a + b == b;
    } else {
      assert (a + b)[0] == a[0] && (a + b)[1..] == a[1..] + b;
      match a[0](l)
      case Ok(l') => ComputeConcat(a[1..], b, l');
      case Raise(_) =>
    }
  }

  lemma {:induction false} CompleteConcat(a: seq<Micro>, b: seq<Micro>, h: Hardware, l: Locals)
    ensures var (h', outcome) := Complete(Running(a, l), h);
            Complete(Running(a + b, l), h)
            == match outcome
               case Returned(l') => Complete(Running(b, l'), h')
               case Threw(error) => (h', Threw(error))
    decreases |a|
  {
    if a == [] {
      assert a + b == b;
    } else {
      assert (a + b)[0] == a[0] && (a + b)[1..] == a[1..] + b;
      match a[0](h, l)
      case Next(h', l') => CompleteConcat(a[1..], b, h', l');
      case Fail(_, _) =>
    }
  }

  lemma {:induction false} RunStraight(parts: Parts, c: Code, h: Hardware, l: Locals)
    requires Straight(parts, c)
    ensures Run(parts, c, h, l, false) == (h, EndOf(ComputeAll(Computes(parts, c), l)))
    decreases Depth(c), c
  {
    match c
    case Local(f) =>
      assert [f][1..] == [];
    case Then(a, b) =>
      RunStraight(parts, a, h, l);
      ComputeConcat(Computes(parts, a), Computes(parts, b), l);
      var r := ComputeAll(Computes(parts, a), l);
      if r.Ok? { RunStraight(parts, b, h, r.locals); }
    case Owning(body) => RunStraight(parts, body, h, l);
    case Invoke(op) => RunStraight(parts, Body(parts, op), h, l);
  }

  lemma OneMicro(m: Micro, h: Hardware, l: Locals)
    ensures Complete(Running([m], l), h)
            == match m(h, l)
               case Next(h', l') => (h', Returned(l'))
               case Fail(h', error) => (h', Threw(error))
  {
    assert [m][1..] == [];
  }

  lemma {:induction false} RunInner(parts: Parts, c: Code, h: Hardware, l: Locals)
    requires Inner(parts, c)
    ensures var (h', outcome) := Complete(Running(Micros(parts, c), l), h);
            Run(parts, c, h, l, true) == (h', EndOfSection(outcome))
    decreases Depth(c), c
  {
    match c
    case Local(f) => OneMicro(Lifted(f), h, l);
    case Native(m) => OneMicro(m, h, l);
    case Then(a, b) =>
      RunInner(parts, a, h, l);
      CompleteConcat(Micros(parts, a), Micros(parts, b), h, l);
      var (h', outcome) := Complete(Running(Micros(parts, a), l), h);
      if outcome.Returned? { RunInner(parts, b, h', outcome.locals); }
    case Invoke(op) => RunInner(parts, Body(parts, op), h, l);
  }

  lemma {:induction false} SingleLocks(parts: Parts, c: Code)
    requires Single(parts, c)
    ensures !Straight(parts, c) && Unfold(parts, c).locks
    decreases Depth(c), c
  {
    match c
    case Locked(_) =>
    case Owning(body) => SingleLocks(parts, body);
    case Invoke(op) => SingleLocks(parts, Body(parts, op));
    case Then(a, b) =>
      if Straight(parts, a) && Single(parts, b) { SingleLocks(parts, b); } else { SingleLocks(parts, a); }
  }

  /** A program of the right form behaves as its shape does. */
  lemma {:induction false} RunIsStaged(parts: Parts, c: Code, h: Hardware, l: Locals)
    requires Straight(parts, c) || Single(parts, c)
    ensures Run(parts, c, h, l, false) == Staged(Unfold(parts, c), h, l)
    decreases Depth(c), c
  {
    if Straight(parts, c) {
      RunStraight(parts, c, h, l);
    } else {
      match c
      case Locked(body) => RunInner(parts, body, h, l);
      case Owning(body) => RunIsStaged(parts, body, h, l);
      case Invoke(op) => RunIsStaged(parts, Body(parts, op), h, l);
      case Then(a, b) =>
        if Straight(parts, a) {
          RunStraight(parts, a, h, l);
          ComputeConcat(Computes(parts, a), Unfold(parts, b).before, l);
          var r := ComputeAll(Computes(parts, a), l);
          if r.Ok? { RunIsStaged(parts, b, h, r.locals); }
        } else {
          RunIsStaged(parts, a, h, l);
          SingleLocks(parts, a);
          var (h', e) := Run(parts, a, h, l, false);
          if e.Fell? { RunStraight(parts, b, h', e.locals); }
          AfterMore(Unfold(parts, a), Computes(parts, b), h, l);
        }
    }
  }

  lemma AfterMore(s: Shape, more: seq<Compute>, h: Hardware, l: Locals)
    requires s.locks
    ensures var (h', e) := Staged(s, h, l);
            Staged(s.(after := s.after + more), h, l)
            == (h', if e.Fell? then EndOf(ComputeAll(more, e.locals)) else e)
  {
    var start := ComputeAll(s.before, l);
    if start.Ok? {
      var (_, outcome) := Atomic(Section(start.locals, s.section), h);
      if outcome.Returned? { ComputeConcat(s.after, more, outcome.locals); }
    }
  }

  /* ----- The operations of the library ----- */

  lemma StepsFit(parts: Parts, op: Operation)
    ensures forall i: nat :: Straight(parts, LocalStep(parts, op, i)) && Inner(parts, LocalStep(parts, op, i))
    ensures forall i: nat :: Inner(parts, NativeStep(parts, op, i))
  {
  }

  lemma ThenFits(parts: Parts, a: Code, b: Code)
    ensures Inner(parts, Then(a, b)) <==> Inner(parts, a) && Inner(parts, b)
  {
  }

  lemma FactoryFits(parts: Parts, op: Operation, section: Code)
    requires Inner(parts, section)
    ensures Single(parts, Owning(Locked(section)))
    ensures Single(parts, Then(LocalStep(parts, op, 1), Owning(Locked(section))))
  {
    assert Single(parts, Locked(section));
  }

  lemma BodiesFit(parts: Parts, op: Operation)
    ensures if op.MakePoller? then Straight(parts, Body(parts, op)) else Single(parts, Body(parts, op))
    decreases Rank(op)
  {
    StepsFit(parts, op);
    match op
    case NewDevice =>
      ThenFits(parts, NativeStep(parts, op, 1), NativeStep(parts, op, 2));
      ThenFits(parts, NativeStep(parts, op, 0), Then(NativeStep(parts, op, 1), NativeStep(parts, op, 2)));
      FactoryFits(parts, op, SetUp(parts));
      var made := Then(LocalStep(parts, op, 2), Owning(Locked(SetUp(parts))));
      assert Single(parts, made);
      assert Single(parts, Then(LocalStep(parts, op, 1), made));
    case MakeI2c =>
      ThenFits(parts, LocalStep(parts, op, 2), NativeStep(parts, op, 0));
      FactoryFits(parts, op, Then(LocalStep(parts, op, 2), NativeStep(parts, op, 0)));
    case MakeSmbus => FactoryFits(parts, op, NativeStep(parts, op, 0));
    case CheckedMethod(_) => ThenFits(parts, NativeStep(parts, op, 0), LocalStep(parts, op, 1));
    case NewDefaultDevice => BodiesFit(parts, NewDevice);
    case MakeDefaultI2c => BodiesFit(parts, MakeI2c);
    case ClearFilter => BodiesFit(parts, SetFilter);
    case VectorOverload(name) => BodiesFit(parts, LockedMethod(name));
    case _ =>
  }

  /** Whatever its steps do and wherever they throw, every operation, one that calls another included, is
      local code, one section under the mutex and local code again: the shape that the steps of a thread
      follow.  Only the factory of pollers takes no lock. */
  lemma OperationsUnfold(parts: Parts, op: Operation, h: Hardware, l: Locals)
    ensures Straight(parts, Invoke(op)) || Single(parts, Invoke(op))
    ensures Unfold(parts, Invoke(op)).locks <==> !op.MakePoller?
    ensures Run(parts, Invoke(op), h, l, false) == Staged(Unfold(parts, Invoke(op)), h, l)
  {
    BodiesFit(parts, op);
    RunIsStaged(parts, Invoke(op), h, l);
    if !op.MakePoller? {
      SingleLocks(parts, Invoke(op));
    }
  }

  /** So no operation locks a mutex that it holds, calls natively without it, or lets go of a shared state
      under it, also when it throws. */
  lemma OperationsKeepDiscipline(parts: Parts, op: Operation, h: Hardware, l: Locals)
    ensures var e := Run(parts, Invoke(op), h, l, false).1; e.Fell? || e.Raised?
  {
    OperationsUnfold(parts, op, h, l);
  }

  /* ----- The mistakes that the form excludes ----- */

  /** An overload that took the mutex before it delegates would deadlock, whenever the callee gets to lock. */
  lemma LockedOverloadDeadlocks(parts: Parts, h: Hardware, l: Locals)
    requires ComputeAll([parts.local(SetFilter, 0), parts.local(SetFilter, 1)], l).Ok?
    ensures Run(parts, Locked(Invoke(SetFilter)), h, l, false).1 == Deadlock
  {
    var first := parts.local(SetFilter, 0)(l);
    assert first.Ok?;
    assert [parts.local(SetFilter, 0), parts.local(SetFilter, 1)][1..] == [parts.local(SetFilter, 1)];
    var second := parts.local(SetFilter, 1)(first.locals);
    assert second.Ok?;
    var locked := Locked(NativeStep(parts, SetFilter, 0));
    assert Run(parts, locked, h, second.locals, true).1 == Deadlock;
    assert Run(parts, Then(LocalStep(parts, SetFilter, 1), locked), h, first.locals, true).1 == Deadlock;
    assert Run(parts, Body(parts, SetFilter), h, l, true).1 == Deadlock;
  }

  /** A factory that made its child after taking the mutex would drop it under the mutex, if and only if the
      initialization throws. */
  lemma SwappedScopesDropUnderLock(m: Micro, parts: Parts, h: Hardware, l: Locals)
    ensures var swapped := Run(parts, Locked(Owning(Native(m))), h, l, false).1;
            var proper := Run(parts, Owning(Locked(Native(m))), h, l, false).1;
            if m(h, l).Fail? then swapped == UnsafeDrop && proper == Raised(m(h, l).error)
            else swapped == proper == Fell(m(h, l).locals)
  {
    assert Run(parts, Native(m), h, l, true).1
        == if m(h, l).Fail? then Raised(m(h, l).error) else Fell(m(h, l).locals);
    assert Run(parts, Owning(Native(m)), h, l, true).1
        == if m(h, l).Fail? then UnsafeDrop else Fell(m(h, l).locals);
  }
}
