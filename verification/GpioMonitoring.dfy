/** The monitor: a timer switch and a poll that emits signals, whose handlers may call the monitor again. */
module GpioMonitoring {
  import opened GpioEvents
  import opened GpioPolling
  import opened GpioTimeline

  const DEFAULT_MAX_EVENTS_PER_POLL := 4

  /** One call, or one thing that happens to the native side.  A call that emits signals carries what the
      handlers of those signals do, so a whole re-entrant run is a tree of these. */
  datatype Act =
    | Start(on: Handler)
    | Stop(on: Handler)
    | Poll(each: seq<Handler>)
    | SetFilter(filter: Filter)
    | ClearFilter
    | SetMaxEvents(limit: nat)
    | Arrive(event: NativeEvent)
    | Inject(code: ErrorCode)

  /** What the handlers of one signal do.  Signals of a poll beyond the handlers listed are not acted on. */
  datatype Handler = Handler(acts: seq<Act>)

  /** A signal as it was emitted; those of a poll carry the position of that poll in the history. */
  datatype Sent = Started | Stopped | FromPoll(poll: nat, signal: Signal)

  /** `attached` tells whether the poller has device state; it does not change. */
  datatype State = State(
    attached: bool, active: bool, maxEvents: nat, source: Source,
    trace: seq<Sent>, history: Timeline)

  /** The history of a queue that was filled and not polled. */
  function Queued(queue: seq<NativeEvent>): Timeline {
    seq(|queue|, i requires 0 <= i < |queue| => Arrived(queue[i]))
  }

  /** What happened to a poller before the monitor got it, as far as polls can tell. */
  function Past(f: Filter, queue: seq<NativeEvent>, error: ErrorCode): Timeline {
    [Filtered(f)] + Queued(queue) + [Injected(error)]
  }

  /** A new monitor over a poller with this filter, these events queued and this error pending. */
  function Starting(layout: Layout, attached: bool, f: Filter, queue: seq<NativeEvent>, error: ErrorCode): State {
    State(
      attached, false, DEFAULT_MAX_EVENTS_PER_POLL, Source(MaskUpTo(layout, f, 4), queue, error),
      [], Past(f, queue, error))
  }

  function Note(s: State, e: Entry): State {
    s.(history := s.history + [e])
  }

  function Emitted(s: State, signal: Sent): State {
    s.(trace := s.trace + [signal])
  }

  /** Without device state the filter call throws, and the caller is taken to handle that. */
  function Refiltered(layout: Layout, s: State, f: Filter): State {
    if s.attached then Note(s.(source := s.source.(mask := MaskUpTo(layout, f, 4))), Filtered(f)) else s
  }

  function PollResult(layout: Layout, s: State): Result<seq<GpioEvent>> {
    if s.attached then Polled(layout, s.source, s.maxEvents).1 else Failure(NoState)
  }

  /** The state in which a poll emits its first signal. */
  function Drained(layout: Layout, s: State): State {
    if s.attached then Note(s.(source := Polled(layout, s.source, s.maxEvents).0), PolledOnce) else Note(s, Refused)
  }

  function Do(layout: Layout, s: State, a: Act): State
    decreases a
  {
    match a
    case Start(on) =>
      if s.active then s else DoAll(layout, Emitted(s.(active := true), Started), on.acts)
    case Stop(on) =>
      if !s.active then s else DoAll(layout, Emitted(s.(active := false), Stopped), on.acts)
    case Poll(each) =>
      EmitAll(layout, Drained(layout, s), |s.history|, SignalsOf(PollResult(layout, s)), each)
    case SetFilter(f) => Refiltered(layout, s, f)
    case ClearFilter => Refiltered(layout, s, NO_FILTER)
    case SetMaxEvents(limit) => Note(s.(maxEvents := limit), Limited(limit))
    case Arrive(e) => Note(s.(source := s.source.(queue := s.source.queue + [e])), Arrived(e))
    case Inject(code) => Note(s.(source := s.source.(nextError := code)), Injected(code))
  }

  function DoAll(layout: Layout, s: State, acts: seq<Act>): State
    decreases acts
  {
    if acts == [] then s else DoAll(layout, Do(layout, s, acts[0]), acts[1..])
  }

  function Rest(handlers: seq<Handler>): seq<Handler> {
    if handlers == [] then [] else handlers[1..]
  }

  /** One signal of a poll and its handler, the first one listed. */
  function EmitOne(layout: Layout, s: State, poll: nat, signal: Signal, handlers: seq<Handler>): State
    decreases handlers, 0
  {
    var heard := Emitted(s, FromPoll(poll, signal));
    if handlers == [] then heard else DoAll(layout, heard, handlers[0].acts)
  }

  function EmitAll(layout: Layout, s: State, poll: nat, signals: seq<Signal>, handlers: seq<Handler>): State
    decreases handlers, 1 + |signals|
  {
    if signals == [] then s
    else EmitAll(layout, EmitOne(layout, s, poll, signals[0], handlers), poll, signals[1..], Rest(handlers))
  }

  lemma EmitPair(layout: Layout, s: State, poll: nat, events: seq<GpioEvent>, i: nat, handlers: seq<Handler>)
    requires i < |events|
    ensures |Paired(events)| == 2 * |events|
    ensures
      var first := EmitOne(layout, s, poll, GpioEventSignal(events[i]), handlers);
      var second := EmitOne(layout, first, poll, EdgeSignal(events[i]), Rest(handlers));
      EmitAll(layout, s, poll, Paired(events)[2 * i..], handlers)
      == EmitAll(layout, second, poll, Paired(events)[2 * i + 2..], Rest(Rest(handlers)))
  {
    hide Paired, EmitOne, Rest;
    PairedAt(events, i);
    var signals := Paired(events)[2 * i..];
    assert signals[0] == GpioEventSignal(events[i]) && signals[1..][0] == EdgeSignal(events[i]);
    assert signals[1..][1..] == Paired(events)[2 * i + 2..];
    var first := EmitOne(layout, s, poll, signals[0], handlers);
    assert EmitAll(layout, s, poll, signals, handlers) == EmitAll(layout, first, poll, signals[1..], Rest(handlers));
  }

  lemma EmitError(layout: Layout, s: State, poll: nat, error: PollError, handlers: seq<Handler>)
    ensures EmitAll(layout, s, poll, [ErrorOccurred(error)], handlers)
            == EmitOne(layout, s, poll, ErrorOccurred(error), handlers)
  {
    hide EmitOne;
    assert [ErrorOccurred(error)][1..] == [];
  }

  lemma EmitNothing(layout: Layout, s: State, poll: nat, handlers: seq<Handler>)
    ensures EmitAll(layout, s, poll, [], handlers) == s
  {
  }

  class GpioMonitor {
    const poller: GpioPoller
    var active: bool
    var maxEvents: nat
    ghost var trace: seq<Sent>
    ghost var history: Timeline

    ghost predicate Valid()
      reads poller.native
    {
      poller.native.nextError <= 0
    }

    ghost function View(): State
      reads this, poller, poller.native
    {
      State(poller.attached, active, maxEvents, poller.View(), trace, history)
    }

    /** Any poller will do, whatever was done with it before. */
    constructor (poller: GpioPoller)
      requires poller.Valid() && poller.native.nextError <= 0
      ensures this.poller == poller && Valid() && !active && maxEvents == 4
      ensures View() == Starting(poller.layout, poller.attached, poller.filter,
                                 poller.native.queue, poller.native.nextError)
    {
      this.poller, active, maxEvents, trace := poller, false, DEFAULT_MAX_EVENTS_PER_POLL, [];
      history := Past(poller.filter, poller.native.queue, poller.native.nextError);
    }

    method Start(on: Handler)
      requires Valid()
      modifies this, poller, poller.native
      ensures Valid() && View() == Do(poller.layout, old(View()), Act.Start(on))
      decreases Act.Start(on), 0
    {
      if active {
        return;
      }
      active := true;
      trace := trace + [Started];
      Run(on.acts);
    }

    method Stop(on: Handler)
      requires Valid()
      modifies this, poller, poller.native
      ensures Valid() && View() == Do(poller.layout, old(View()), Act.Stop(on))
      decreases Act.Stop(on), 0
    {
      if !active {
        return;
      }
      active := false;
      trace := trace + [Stopped];
      Run(on.acts);
    }

    /** `ok` tells that nothing was thrown. */
    method SetFilter(f: Filter) returns (ok: bool)
      requires Valid()
      modifies this, poller
      ensures Valid() && View() == Do(poller.layout, old(View()), Act.SetFilter(f))
      ensures ok == old(poller.attached)
      ensures if ok then poller.filter == f && poller.mask == MaskUpTo(poller.layout, f, 4)
              else poller.filter == old(poller.filter) && poller.mask == old(poller.mask)
    {
      ok := poller.SetFilter(f);
      history := if ok then history + [Filtered(f)] else history;
    }

    method ClearFilter() returns (ok: bool)
      requires Valid()
      modifies this, poller
      ensures Valid() && View() == Do(poller.layout, old(View()), Act.ClearFilter)
      ensures ok == old(poller.attached)
      ensures if ok then poller.filter == NO_FILTER && poller.mask == 0
              else poller.filter == old(poller.filter) && poller.mask == old(poller.mask)
    {
      EmptyMask(poller.layout);
      ok := poller.ClearFilter();
      history := if ok then history + [Filtered(NO_FILTER)] else history;
    }

    method SetMaxEventsPerPoll(limit: nat)
      requires Valid()
      modifies this
      ensures Valid() && View() == Do(poller.layout, old(View()), SetMaxEvents(limit))
      ensures maxEvents == limit && active == old(active)
    {
      maxEvents := limit;
      history := history + [Limited(limit)];
    }

    method PollOnce(each: seq<Handler>)
      requires Valid()
      modifies this, poller, poller.native
      ensures Valid() && View() == Do(poller.layout, old(View()), Poll(each))
      decreases Poll(each), 0
    {
      ghost var position, start := |history|, View();
      var result := poller.PollEvents(maxEvents);
      history := history + [if poller.attached then PolledOnce else Refused];
      assert View() == Drained(poller.layout, start);
      hide EmitAll, EmitOne, Drained, Polled, Paired;
      match result
      case Failure(error) =>
        EmitError(poller.layout, View(), position, error, each);
        Emit(position, ErrorOccurred(error), each);
      case Success(events) =>
        EmitEvents(position, events, each);
    }

    /** The signals are emitted one after the other; the handlers that run in between may poll again. */
    method EmitEvents(ghost position: nat, events: seq<GpioEvent>, each: seq<Handler>)
      requires Valid()
      modifies this, poller, poller.native
      ensures Valid() && View() == EmitAll(poller.layout, old(View()), position, Paired(events), each)
      decreases each, 1
    {
      hide EmitAll, EmitOne, Paired;
      PairedLength(events);
      assert Paired(events)[0..] == Paired(events);
      var handlers := each;
      for i := 0 to |events|
        invariant Valid() && |Paired(events)| == 2 * |events|
        invariant |handlers| <= |each| && handlers == each[|each| - |handlers|..]
        invariant EmitAll(poller.layout, View(), position, Paired(events)[2 * i..], handlers)
                  == EmitAll(poller.layout, old(View()), position, Paired(events), each)
      {
        EmitPair(poller.layout, View(), position, events, i, handlers);
        Emit(position, GpioEventSignal(events[i]), handlers);
        handlers := Rest(handlers);
        Emit(position, EdgeSignal(events[i]), handlers);
        handlers := Rest(handlers);
      }
      assert Paired(events)[2 * |events|..] == [];
      EmitNothing(poller.layout, View(), position, handlers);
    }

    method Emit(ghost position: nat, signal: Signal, handlers: seq<Handler>)
      requires Valid()
      modifies this, poller, poller.native
      ensures Valid() && View() == EmitOne(poller.layout, old(View()), position, signal, handlers)
      decreases handlers, 0
    {
      trace := trace + [FromPoll(position, signal)];
      if handlers != [] {
        Run(handlers[0].acts);
      }
    }

    /** What the handlers of one signal do, in order. */
    method Run(acts: seq<Act>)
      requires Valid()
      modifies this, poller, poller.native
      ensures Valid() && View() == DoAll(poller.layout, old(View()), acts)
      decreases acts
    {
      if acts != [] {
        Perform(acts[0]);
        Run(acts[1..]);
      }
    }

    method Perform(a: Act)
      requires Valid()
      modifies this, poller, poller.native
      ensures Valid() && View() == Do(poller.layout, old(View()), a)
      decreases a, 1
    {
      match a
      case Start(on) => Start(on);
      case Stop(on) => Stop(on);
      case Poll(each) => PollOnce(each);
      case SetFilter(f) => var _ := SetFilter(f);
      case ClearFilter => var _ := ClearFilter();
      case SetMaxEvents(limit) => SetMaxEventsPerPoll(limit);
      case Arrive(e) =>
        poller.native.QueueEvent(e);
        history := history + [Arrived(e)];
      case Inject(code) =>
        poller.native.FailNext(code);
        history := history + [Injected(code)];
    }
  }
}
