/** What the acts of a run ask for, and that this is what its history and its native side hold. */
module GpioInputs {
  import opened GpioEvents
  import opened GpioPolling
  import opened GpioTimeline
  import opened GpioMonitoring
  import opened GpioMonitorTheorems
  import GpioConservation
  import GpioMonitorOrder

  /* ----- The acts that take place ----- */

  /** An act and those of the handlers that it sets off, in the order in which they begin. */
  function Performed(layout: Layout, s: State, a: Act): seq<Act>
    decreases a
  {
    match a
    case Start(on) =>
      [a] + if s.active then [] else PerformedAll(layout, Emitted(s.(active := true), Started), on.acts)
    case Stop(on) =>
      [a] + if !s.active then [] else PerformedAll(layout, Emitted(s.(active := false), Stopped), on.acts)
    case Poll(each) =>
      [a] + PerformedEmit(layout, Drained(layout, s), |s.history|, SignalsOf(PollResult(layout, s)), each)
    case _ => [a]
  }

  function PerformedAll(layout: Layout, s: State, acts: seq<Act>): seq<Act>
    decreases acts
  {
    if acts == [] then []
    else Performed(layout, s, acts[0]) + PerformedAll(layout, Do(layout, s, acts[0]), acts[1..])
  }

  function PerformedEmit(layout: Layout, s: State, poll: nat, signals: seq<Signal>, handlers: seq<Handler>): seq<Act>
    decreases handlers, |signals|
  {
    if signals == [] || handlers == [] then []
    else
      PerformedAll(layout, Emitted(s, FromPoll(poll, signals[0])), handlers[0].acts)
      + PerformedEmit(layout, EmitOne(layout, s, poll, signals[0], handlers), poll, signals[1..], handlers[1..])
  }

  /* ----- What they ask for ----- */

  datatype Inputs = Inputs(filter: Filter, limit: nat, error: ErrorCode, arrivals: seq<NativeEvent>, polls: nat)

  /** What one act asks for.  Without device state filters are refused and polls report no native error. */
  function Asking(attached: bool, i: Inputs, a: Act): Inputs {
    match a
    case SetFilter(f) => if attached then i.(filter := f) else i
    case ClearFilter =>
      if attached then i.(filter := Filter([false, false, false, false], [false, false, false, false])) else i
    case SetMaxEvents(limit) => i.(limit := limit)
    case Inject(code) => i.(error := code)
    case Arrive(e) => i.(arrivals := i.arrivals + [e])
    case Poll(_) => i.(error := if attached then 0 else i.error, polls := i.polls + 1)
    case _ => i
  }

  function AskingAll(attached: bool, i: Inputs, acts: seq<Act>): Inputs
    decreases |acts|
  {
    if acts == [] then i else AskingAll(attached, Asking(attached, i, acts[0]), acts[1..])
  }

  function InputsOf(h: Timeline): Inputs {
    Inputs(CurrentFilter(h), CurrentLimit(h), PendingError(h), GpioConservation.Arrivals(h), Polls(h))
  }

  function Polls(h: Timeline): nat {
    if h == [] then 0 else Polls(Before(h)) + if Last(h).PolledOnce? || Last(h).Refused? then 1 else 0
  }

  lemma {:induction false} AskingConcat(attached: bool, i: Inputs, a: seq<Act>, b: seq<Act>)
    ensures AskingAll(attached, i, a + b) == AskingAll(attached, AskingAll(attached, i, a), b)
    decreases |a|
  {
    hide Asking;
    if a == [] {
      assert a + b == b;
    } else {
      assert (a + b)[0] == a[0] && (a + b)[1..] == a[1..] + b;
      AskingConcat(attached, Asking(attached, i, a[0]), a[1..], b);
    }
  }

  lemma AskingOne(attached: bool, i: Inputs, a: Act)
    ensures AskingAll(attached, i, [a]) == Asking(attached, i, a)
  {
    assert [a][1..] == [];
  }

  /** What one more entry does to the inputs. */
  lemma NoteInputs(h: Timeline, e: Entry)
    ensures InputsOf(h + [e])
            == match e
               case Arrived(event) => InputsOf(h).(arrivals := InputsOf(h).arrivals + [event])
               case Injected(code) => InputsOf(h).(error := code)
               case Filtered(f) => InputsOf(h).(filter := f)
               case Limited(limit) => InputsOf(h).(limit := limit)
               case PolledOnce => InputsOf(h).(error := 0, polls := InputsOf(h).polls + 1)
               case Refused => InputsOf(h).(polls := InputsOf(h).polls + 1)
  {
    hide CurrentFilter, CurrentLimit, PendingError;
    NoteMeans(h, e);
    NoteSplits(h, e);
  }

  /** An act without signals, and the entry of a poll, note what they ask for. */
  lemma NoteAsks(layout: Layout, s: State, a: Act)
    requires !a.Start? && !a.Stop?
    ensures var t := if a.Poll? then Drained(layout, s) else Do(layout, s, a);
            InputsOf(t.history) == Asking(s.attached, InputsOf(s.history), a) && t.attached == s.attached
  {
    hide InputsOf, MaskUpTo, Polled;
    match a
    case SetFilter(f) => NoteInputs(s.history, Filtered(f));
    case ClearFilter => NoteInputs(s.history, Filtered(NO_FILTER));
    case SetMaxEvents(limit) => NoteInputs(s.history, Limited(limit));
    case Arrive(e) => NoteInputs(s.history, Arrived(e));
    case Inject(code) => NoteInputs(s.history, Injected(code));
    case Poll(_) =>
      NoteInputs(s.history, PolledOnce);
      NoteInputs(s.history, Refused);
  }

  /** The history of `t` asks for what that of `s` does and then the acts. */
  ghost predicate Follows(s: State, t: State, acts: seq<Act>) {
    t.attached == s.attached && InputsOf(t.history) == AskingAll(s.attached, InputsOf(s.history), acts)
  }

  lemma FollowsHere(s: State, t: State)
    requires t.attached == s.attached && t.history == s.history
    ensures Follows(s, t, [])
  {
  }

  lemma FollowsTwice(s: State, m: State, t: State, a: seq<Act>, b: seq<Act>)
    requires Follows(s, m, a) && Follows(m, t, b)
    ensures Follows(s, t, a + b)
  {
    hide InputsOf, AskingAll;
    AskingConcat(s.attached, InputsOf(s.history), a, b);
  }

  lemma FollowsOne(layout: Layout, s: State, t: State, a: Act)
    requires t.attached == s.attached && InputsOf(t.history) == Asking(s.attached, InputsOf(s.history), a)
    ensures Follows(s, t, [a])
  {
    hide InputsOf;
    AskingOne(s.attached, InputsOf(s.history), a);
  }

  lemma {:induction false} DoFollows(layout: Layout, s: State, a: Act)
    ensures Follows(s, Do(layout, s, a), Performed(layout, s, a))
    decreases a
  {
    hide Polled, MaskUpTo, SignalsOf, PollResult, Drained, Follows, InputsOf;
    match a
    case Start(on) =>
      var t := if s.active then s else Emitted(s.(active := true), Started);
      FollowsOne(layout, s, t, a);
      if s.active { assert [a] + [] == [a]; } else {
        AllFollow(layout, t, on.acts);
        FollowsTwice(s, t, DoAll(layout, t, on.acts), [a], PerformedAll(layout, t, on.acts));
      }
    case Stop(on) =>
      var t := if !s.active then s else Emitted(s.(active := false), Stopped);
      FollowsOne(layout, s, t, a);
      if !s.active { assert [a] + [] == [a]; } else {
        AllFollow(layout, t, on.acts);
        FollowsTwice(s, t, DoAll(layout, t, on.acts), [a], PerformedAll(layout, t, on.acts));
      }
    case Poll(each) =>
      var drained, signals := Drained(layout, s), SignalsOf(PollResult(layout, s));
      NoteAsks(layout, s, a);
      FollowsOne(layout, s, drained, a);
      EmitFollows(layout, drained, |s.history|, signals, each);
      FollowsTwice(s, drained, EmitAll(layout, drained, |s.history|, signals, each), [a],
                   PerformedEmit(layout, drained, |s.history|, signals, each));
    case _ =>
      NoteAsks(layout, s, a);
      FollowsOne(layout, s, Do(layout, s, a), a);
  }

  lemma {:induction false} AllFollow(layout: Layout, s: State, acts: seq<Act>)
    ensures Follows(s, DoAll(layout, s, acts), PerformedAll(layout, s, acts))
    decreases acts
  {
    hide Do, Performed, Follows;
    if acts == [] {
      FollowsHere(s, s);
    } else {
      var mid := Do(layout, s, acts[0]);
      DoFollows(layout, s, acts[0]);
      AllFollow(layout, mid, acts[1..]);
      FollowsTwice(s, mid, DoAll(layout, mid, acts[1..]), Performed(layout, s, acts[0]),
                   PerformedAll(layout, mid, acts[1..]));
    }
  }

  lemma {:induction false} EmitFollows(layout: Layout, s: State, poll: nat, signals: seq<Signal>,
                                       handlers: seq<Handler>)
    ensures Follows(s, EmitAll(layout, s, poll, signals, handlers), PerformedEmit(layout, s, poll, signals, handlers))
    decreases handlers, |signals|
  {
    hide DoAll, PerformedAll, Follows;
    FollowsHere(s, s);
    if signals != [] {
      var heard, next := Emitted(s, FromPoll(poll, signals[0])), EmitOne(layout, s, poll, signals[0], handlers);
      var last := EmitAll(layout, next, poll, signals[1..], Rest(handlers));
      var rest := PerformedEmit(layout, next, poll, signals[1..], Rest(handlers));
      FollowsHere(s, heard);
      EmitFollows(layout, next, poll, signals[1..], Rest(handlers));
      if handlers == [] {
        FollowsTwice(s, heard, last, [], rest);
        assert [] + rest == [];
      } else {
        var acts := PerformedAll(layout, heard, handlers[0].acts);
        AllFollow(layout, heard, handlers[0].acts);
        FollowsTwice(s, heard, next, [], acts);
        FollowsTwice(s, next, last, [] + acts, rest);
        assert [] + acts + rest == acts + rest;
      }
    }
  }

  /** In every run of a new monitor, the filter that the native side tests by, the limit, the pending error,
      all arrivals and the number of polls are those that the acts of the run, handlers included, ask for. */
  lemma RunFollowsActs(layout: Layout, f: Filter, queue: seq<NativeEvent>, error: ErrorCode, attached: bool,
                       acts: seq<Act>)
    ensures var start := Starting(layout, attached, f, queue, error);
            var s := DoAll(layout, start, acts);
            var asked := AskingAll(attached, Inputs(f, 4, error, queue, 0), PerformedAll(layout, start, acts));
            && s.source.mask == MaskUpTo(layout, asked.filter, 4) && s.maxEvents == asked.limit
            && s.source.nextError == asked.error && s.attached == attached
            && CurrentFilter(s.history) == asked.filter && CurrentLimit(s.history) == asked.limit
            && PendingError(s.history) == asked.error && GpioConservation.Arrivals(s.history) == asked.arrivals
            && Polls(s.history) == asked.polls
  {
    hide DoAll, PerformedAll, AskingAll, MaskUpTo;
    var start := Starting(layout, attached, f, queue, error);
    AllFollow(layout, start, acts);
    StartsInSync(layout, start);
    AllSync(layout, start, acts);
    StartAsks(layout, attached, f, queue, error);
  }

  lemma StartAsks(layout: Layout, attached: bool, f: Filter, queue: seq<NativeEvent>, error: ErrorCode)
    ensures InputsOf(Past(f, queue, error)) == Inputs(f, 4, error, queue, 0)
  {
    var h := [Filtered(f)] + Queued(queue);
    NoteInputs(h, Injected(error));
    QueuedMeans(f, queue);
    QueuedArrives(f, queue);
    hide CurrentFilter, CurrentLimit, PendingError;
  }

  lemma {:induction false} QueuedArrives(f: Filter, queue: seq<NativeEvent>)
    ensures GpioConservation.Arrivals([Filtered(f)] + Queued(queue)) == queue
    ensures Polls([Filtered(f)] + Queued(queue)) == 0
  {
    if queue == [] {
      assert [Filtered(f)] + Queued(queue) == [Filtered(f)] && Before([Filtered(f)]) == [];
    } else {
      var rest, last := queue[..|queue| - 1], queue[|queue| - 1];
      QueuedArrives(f, rest);
      NoteSplits([Filtered(f)] + Queued(rest), Arrived(last));
      assert [Filtered(f)] + Queued(queue) == [Filtered(f)] + Queued(rest) + [Arrived(last)];
    }
  }

  /* ----- Runs without handlers ----- */

  predicate Plain(a: Act) {
    match a
    case Start(on) => on.acts == []
    case Stop(on) => on.acts == []
    case Poll(each) => each == []
    case _ => true
  }

  /** Without handlers the acts that take place are those given. */
  lemma {:induction false} PlainIsPerformed(layout: Layout, s: State, acts: seq<Act>)
    requires forall i | 0 <= i < |acts| :: Plain(acts[i])
    ensures PerformedAll(layout, s, acts) == acts
    decreases |acts|
  {
    if acts != [] {
      PlainOne(layout, s, acts[0]);
      hide Do, Performed;
      PlainIsPerformed(layout, Do(layout, s, acts[0]), acts[1..]);
    }
  }

  lemma PlainOne(layout: Layout, s: State, a: Act)
    requires Plain(a)
    ensures Performed(layout, s, a) == [a]
  {
  }

  /* ----- Start and stop take effect ----- */

  /** An inactive monitor that is started is active from the signal on, and one that is active stays as it
      is; and the other way round. */
  lemma SwitchesTakeEffect(layout: Layout, s: State, on: Handler)
    ensures var t := Do(layout, s, Start(on));
            if s.active then t == s
            else
              && s.trace + [Started] <= t.trace
              && (on.acts == [] ==> t == s.(active := true, trace := s.trace + [Started]))
    ensures var t := Do(layout, s, Stop(on));
            if !s.active then t == s
            else
              && s.trace + [Stopped] <= t.trace
              && (on.acts == [] ==> t == s.(active := false, trace := s.trace + [Stopped]))
  {
    var started, stopped := Emitted(s.(active := true), Started), Emitted(s.(active := false), Stopped);
    GpioMonitorOrder.AllGrow(layout, started, on.acts);
    GpioMonitorOrder.AllGrow(layout, stopped, on.acts);
  }
}
