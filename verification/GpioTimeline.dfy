/** What the monitor owes its listeners, told from the history alone: the typed filter, the limit and the
    arrivals, without the native mask and queue. */
module GpioTimeline {
  import opened GpioEvents
  import opened GpioPolling

  /** Native errors are negative; injecting 0 withdraws a pending one. */
  type ErrorCode = c: int | c <= 0 witness 0

  datatype Entry =
    | Arrived(event: NativeEvent)
    | Injected(code: ErrorCode)
    | Filtered(filter: Filter)
    | Limited(limit: nat)
    | PolledOnce
    | Refused // a poll of a poller without device state

  type Timeline = seq<Entry>

  datatype Signal =
    | GpioEventSignal(event: GpioEvent)
    | RisingEdge(pin: Pin)
    | FallingEdge(pin: Pin)
    | ErrorOccurred(error: PollError)

  function Before(t: Timeline): Timeline
    requires t != []
  {
    t[..|t| - 1]
  }

  function Last(t: Timeline): Entry
    requires t != []
  {
    t[|t| - 1]
  }

  /** The filter set last; at first there is none. */
  function CurrentFilter(t: Timeline): Filter {
    if t == [] then NO_FILTER
    else if Last(t).Filtered? then Last(t).filter
    else CurrentFilter(Before(t))
  }

  /** The limit set last; at first it is four. */
  function CurrentLimit(t: Timeline): nat {
    if t == [] then 4
    else if Last(t).Limited? then Last(t).limit
    else CurrentLimit(Before(t))
  }

  /** The error injected last, unless a poll has reported it already. */
  function PendingError(t: Timeline): ErrorCode {
    if t == [] then 0
    else
      match Last(t)
      case Injected(code) => code
      case PolledOnce => 0
      case _ => PendingError(Before(t))
  }

  /** The events that arrived since the last poll that reached the queue. */
  function Pending(t: Timeline): seq<NativeEvent> {
    if t == [] then []
    else
      match Last(t)
      case Arrived(event) => Pending(Before(t)) + [event]
      case PolledOnce => if PendingError(Before(t)) == 0 then [] else Pending(Before(t))
      case _ => Pending(Before(t))
  }

  /** Whether a typed filter asks for an event.  On the pins that exist the mask plays no part. */
  predicate Asks(layout: Layout, f: Filter, e: NativeEvent) {
    if e.gpio < 4 then SelectsNothing(f) || Selects(f, e.gpio, if e.kind.Rise? then Rising else Falling)
    else Accepts(layout, MaskUpTo(layout, f, 4), e)
  }

  function Asked(layout: Layout, f: Filter, events: seq<NativeEvent>): seq<NativeEvent> {
    if events == [] then []
    else
      var last := events[|events| - 1];
      Asked(layout, f, events[..|events| - 1]) + if Asks(layout, f, last) then [last] else []
  }

  /** What a poll at this point of the history delivers. */
  function Delivery(layout: Layout, t: Timeline): Result<seq<GpioEvent>> {
    if PendingError(t) != 0 then Failure(Native(PendingError(t)))
    else
      Translate(Take(Asked(layout, CurrentFilter(t), Pending(t)), Min(CurrentLimit(t), MAX_EVENTS_PER_POLL)))
  }

  function EdgeSignal(e: GpioEvent): Signal {
    if e.edge == Rising then RisingEdge(e.pin) else FallingEdge(e.pin)
  }

  /** Each event, followed by its own edge. */
  function Paired(events: seq<GpioEvent>): seq<Signal> {
    if events == [] then []
    else Paired(events[..|events| - 1]) + [GpioEventSignal(events[|events| - 1]), EdgeSignal(events[|events| - 1])]
  }

  /** All of the events or exactly one error. */
  function SignalsOf(r: Result<seq<GpioEvent>>): seq<Signal> {
    match r
    case Success(events) => Paired(events)
    case Failure(error) => [ErrorOccurred(error)]
  }

  /** The signals that a poll at this point of the history owes. */
  function Batch(layout: Layout, t: Timeline): seq<Signal> {
    SignalsOf(Delivery(layout, t))
  }

  /** The signals that an entry of the history owes. */
  function Owes(layout: Layout, before: Timeline, e: Entry): seq<Signal> {
    match e
    case PolledOnce => Batch(layout, before)
    case Refused => SignalsOf(Failure(NoState))
    case _ => []
  }

  function AllBatches(layout: Layout, t: Timeline): seq<Signal> {
    if t == [] then [] else AllBatches(layout, Before(t)) + Owes(layout, Before(t), Last(t))
  }

  /** The events that the polls of a history deliver, one poll after the other. */
  function Delivered(layout: Layout, t: Timeline): seq<GpioEvent> {
    if t == [] then []
    else
      Delivered(layout, Before(t))
      + if Last(t).PolledOnce? && Delivery(layout, Before(t)).Success? then Delivery(layout, Before(t)).value else []
  }

  /** The events carried by a sequence of signals. */
  function EventsIn(signals: seq<Signal>): seq<GpioEvent> {
    if signals == [] then []
    else
      var last := signals[|signals| - 1];
      var before := EventsIn(signals[..|signals| - 1]);
      if last.GpioEventSignal? then before + [last.event] else before
  }

  lemma NoteSplits(h: Timeline, e: Entry)
    ensures Before(h + [e]) == h && Last(h + [e]) == e
  {
  }

  /** What one more entry does to the four things a poll depends on. */
  lemma NoteMeans(h: Timeline, e: Entry)
    ensures CurrentFilter(h + [e]) == if e.Filtered? then e.filter else CurrentFilter(h)
    ensures CurrentLimit(h + [e]) == if e.Limited? then e.limit else CurrentLimit(h)
    ensures PendingError(h + [e]) == if e.Injected? then e.code else if e.PolledOnce? then 0 else PendingError(h)
    ensures Pending(h + [e])
            == if e.Arrived? then Pending(h) + [e.event]
               else if e.PolledOnce? && PendingError(h) == 0 then []
               else Pending(h)
  {
    NoteSplits(h, e);
  }

  /** The native filter passes what the typed filter asks for. */
  lemma {:induction false} AcceptedIsAsked(layout: Layout, f: Filter, events: seq<NativeEvent>)
    requires layout.Valid()
    ensures Accepted(layout, MaskUpTo(layout, f, 4), events) == Asked(layout, f, events)
  {
    hide Accepts, MaskUpTo;
    if events != [] {
      AcceptedIsAsked(layout, f, events[..|events| - 1]);
      var last := events[|events| - 1];
      if last.gpio < 4 {
        MaskIsFaithful(layout, f, last);
      }
    }
  }

  lemma {:induction false} EventsInConcat(a: seq<Signal>, b: seq<Signal>)
    ensures EventsIn(a + b) == EventsIn(a) + EventsIn(b)
  {
    if b == [] {
      assert a + b == a;
    } else {
      EventsInConcat(a, b[..|b| - 1]);
      assert (a + b)[..|a + b| - 1] == a + b[..|b| - 1];
    }
  }

  lemma EventsInOne(signal: Signal)
    ensures EventsIn([signal]) == if signal.GpioEventSignal? then [signal.event] else []
  {
    assert [signal][..0] == [];
  }

  lemma {:induction false} EventsInPaired(events: seq<GpioEvent>)
    ensures EventsIn(Paired(events)) == events
  {
    if events != [] {
      var rest, last := events[..|events| - 1], events[|events| - 1];
      EventsInPaired(rest);
      hide EventsIn;
      EventsInConcat(Paired(rest), [GpioEventSignal(last), EdgeSignal(last)]);
      EventsInConcat([GpioEventSignal(last)], [EdgeSignal(last)]);
      EventsInOne(GpioEventSignal(last));
      EventsInOne(EdgeSignal(last));
      assert [GpioEventSignal(last)] + [EdgeSignal(last)] == [GpioEventSignal(last), EdgeSignal(last)];
    }
  }

  /** The events among the signals of all the polls are the events that the polls deliver. */
  lemma {:induction false} BatchesDeliver(layout: Layout, t: Timeline)
    ensures EventsIn(AllBatches(layout, t)) == Delivered(layout, t)
  {
    hide Delivery;
    if t != [] {
      BatchesDeliver(layout, Before(t));
      EventsInConcat(AllBatches(layout, Before(t)), Owes(layout, Before(t), Last(t)));
      EventsInOne(ErrorOccurred(NoState));
      if Last(t).PolledOnce? {
        match Delivery(layout, Before(t))
        case Success(events) => EventsInPaired(events);
        case Failure(error) => EventsInOne(ErrorOccurred(error));
      }
    }
  }

  lemma {:induction false} PairedAt(events: seq<GpioEvent>, i: nat)
    requires i < |events|
    ensures |Paired(events)| == 2 * |events|
    ensures Paired(events)[2 * i] == GpioEventSignal(events[i]) && Paired(events)[2 * i + 1] == EdgeSignal(events[i])
  {
    if |events| > 1 {
      PairedAt(events[..|events| - 1], if i < |events| - 1 then i else 0);
    }
  }

  lemma PairedLength(events: seq<GpioEvent>)
    ensures |Paired(events)| == 2 * |events|
  {
    if events != [] {
      PairedAt(events, 0);
    }
  }

  /** A batch is all or nothing: every event followed by its own edge, or exactly one error. */
  lemma AllOrNothing(r: Result<seq<GpioEvent>>)
    ensures r.Failure? ==> SignalsOf(r) == [ErrorOccurred(r.error)]
    ensures r.Success? ==> |SignalsOf(r)| == 2 * |r.value|
    ensures r.Success? ==>
              forall i | 0 <= i < |r.value| ::
                SignalsOf(r)[2 * i] == GpioEventSignal(r.value[i]) && SignalsOf(r)[2 * i + 1] == EdgeSignal(r.value[i])
  {
    if r.Success? {
      PairedLength(r.value);
      forall i | 0 <= i < |r.value|
        ensures SignalsOf(r)[2 * i] == GpioEventSignal(r.value[i])
        ensures SignalsOf(r)[2 * i + 1] == EdgeSignal(r.value[i])
      {
        PairedAt(r.value, i);
      }
    }
  }

  const PINS: seq<Pin> := [GP0, GP1, GP2, GP3]

  /** The signals of a batch told from the native events: each is announced with its pin, its edge and its two
      times, and then by its edge and pin; or, if any of them has no pin or no edge, there is one error. */
  lemma SignalsAreFaithful(events: seq<NativeEvent>)
    ensures var signals := SignalsOf(Translate(events));
            if exists i | 0 <= i < |events| :: events[i].gpio >= 4 || events[i].kind.Unknown?
            then signals == [ErrorOccurred(Protocol)]
            else
              && |signals| == 2 * |events|
              && forall i | 0 <= i < |events| ::
                   var e, pin := events[i], PINS[events[i].gpio];
                   && signals[2 * i]
                      == GpioEventSignal(GpioEvent(pin, if e.kind.Rise? then Rising else Falling, e.time, e.lastTime))
                   && signals[2 * i + 1] == if e.kind.Rise? then RisingEdge(pin) else FallingEdge(pin)
  {
    if i :| 0 <= i < |events| && (events[i].gpio >= 4 || events[i].kind.Unknown?) {
      TranslateBad(events, i);
    } else {
      var typed := seq(|events|, i requires 0 <= i < |events| => Typed(events[i]));
      assert forall i | 0 <= i < |events| :: Proper(events[i]);
      TranslateAll(events, typed);
      hide Translate;
      AllOrNothing(Translate(events));
      hide SignalsOf, Paired;
      forall i | 0 <= i < |events|
        ensures var e, pin := events[i], PINS[events[i].gpio];
                && SignalsOf(Success(typed))[2 * i]
                   == GpioEventSignal(GpioEvent(pin, if e.kind.Rise? then Rising else Falling, e.time, e.lastTime))
                && SignalsOf(Success(typed))[2 * i + 1] == if e.kind.Rise? then RisingEdge(pin) else FallingEdge(pin)
      {
        TypedIs(events[i]);
      }
    }
  }

  lemma TypedIs(e: NativeEvent)
    requires Proper(e)
    ensures Typed(e) == GpioEvent(PINS[e.gpio], if e.kind.Rise? then Rising else Falling, e.time, e.lastTime)
  {
  }
}
