/** In which order the signals of different polls are emitted, when handlers poll. */
module GpioMonitorOrder {
  import opened GpioEvents
  import opened GpioPolling
  import opened GpioTimeline
  import opened GpioMonitoring
  import opened GpioMonitorTheorems

  /** Which signals of the polls the order is about: all of them, or the gpioEvent signals. */
  datatype Kind = EverySignal | EventSignals

  predicate Counts(kind: Kind, signal: Signal) {
    kind == EverySignal || signal.GpioEventSignal?
  }

  predicate Counted(kind: Kind, sent: Sent) {
    sent.FromPoll? && Counts(kind, sent.signal)
  }

  /** Signals of an earlier poll are never emitted after those of a later one. */
  ghost predicate Ordered(kind: Kind, trace: seq<Sent>) {
    forall i, j | 0 <= i < j < |trace| && Counted(kind, trace[i]) && Counted(kind, trace[j]) ::
      trace[i].poll <= trace[j].poll
  }

  predicate More(kind: Kind, signals: seq<Signal>) {
    exists i | 0 <= i < |signals| :: Counts(kind, signals[i])
  }

  /** What a poll would emit now. */
  function Now(layout: Layout, s: State): seq<Signal> {
    SignalsOf(PollResult(layout, s))
  }

  /** Somewhere in the run a handler polls while an enclosing poll has more signals of the kind to emit, and
      that poll itself has one to emit.  `busy` tells whether an enclosing poll has more. */
  predicate Clash(kind: Kind, layout: Layout, s: State, a: Act, busy: bool)
    decreases a
  {
    match a
    case Start(on) => !s.active && ClashAll(kind, layout, Emitted(s.(active := true), Started), on.acts, busy)
    case Stop(on) => s.active && ClashAll(kind, layout, Emitted(s.(active := false), Stopped), on.acts, busy)
    case Poll(each) =>
      || (busy && More(kind, Now(layout, s)))
      || ClashEmit(kind, layout, Drained(layout, s), |s.history|, Now(layout, s), each, busy)
    case _ => false
  }

  predicate ClashAll(kind: Kind, layout: Layout, s: State, acts: seq<Act>, busy: bool)
    decreases acts
  {
    && acts != []
    && (|| Clash(kind, layout, s, acts[0], busy)
        || ClashAll(kind, layout, Do(layout, s, acts[0]), acts[1..], busy))
  }

  predicate ClashEmit(kind: Kind, layout: Layout, s: State, poll: nat, signals: seq<Signal>, handlers: seq<Handler>,
                      busy: bool)
    decreases handlers, |signals|
  {
    && signals != [] && handlers != []
    && (|| ClashAll(kind, layout, Emitted(s, FromPoll(poll, signals[0])), handlers[0].acts,
                    busy || More(kind, signals[1..]))
        || ClashEmit(kind, layout, EmitOne(layout, s, poll, signals[0], handlers), poll, signals[1..], handlers[1..],
                     busy))
  }

  /* ----- Traces and histories only grow ----- */

  /** The tags of all signals are positions in the history. */
  ghost predicate TagsKnown(s: State) {
    forall i | 0 <= i < |s.trace| && s.trace[i].FromPoll? :: s.trace[i].poll < |s.history|
  }

  ghost predicate Grown(s: State, t: State) {
    s.trace <= t.trace && s.history <= t.history && (TagsKnown(s) ==> TagsKnown(t))
  }

  lemma GrownTwice(s: State, m: State, t: State)
    requires Grown(s, m) && Grown(m, t)
    ensures Grown(s, t)
  {
  }

  lemma SwitchGrows(s: State, active: bool, signal: Sent)
    requires !signal.FromPoll?
    ensures Grown(s, Emitted(s.(active := active), signal))
  {
  }

  lemma EmissionGrows(s: State, poll: nat, signal: Signal)
    requires poll < |s.history|
    ensures Grown(s, Emitted(s, FromPoll(poll, signal)))
  {
  }

  lemma DrainGrows(layout: Layout, s: State)
    ensures Grown(s, Drained(layout, s)) && |Drained(layout, s).history| == |s.history| + 1
    ensures Drained(layout, s).trace == s.trace
  {
  }

  lemma {:induction false} DoGrows(layout: Layout, s: State, a: Act)
    ensures Grown(s, Do(layout, s, a))
    decreases a
  {
    hide Polled, MaskUpTo, SignalsOf, PollResult;
    match a
    case Start(on) =>
      if !s.active {
        var t := Emitted(s.(active := true), Started);
        SwitchGrows(s, true, Started);
        AllGrow(layout, t, on.acts);
        GrownTwice(s, t, DoAll(layout, t, on.acts));
      }
    case Stop(on) =>
      if s.active {
        var t := Emitted(s.(active := false), Stopped);
        SwitchGrows(s, false, Stopped);
        AllGrow(layout, t, on.acts);
        GrownTwice(s, t, DoAll(layout, t, on.acts));
      }
    case Poll(each) =>
      DrainGrows(layout, s);
      EmitGrows(layout, Drained(layout, s), |s.history|, SignalsOf(PollResult(layout, s)), each);
    case _ =>
  }

  lemma {:induction false} AllGrow(layout: Layout, s: State, acts: seq<Act>)
    ensures Grown(s, DoAll(layout, s, acts))
    decreases acts
  {
    hide Do;
    if acts != [] {
      var mid := Do(layout, s, acts[0]);
      DoGrows(layout, s, acts[0]);
      AllGrow(layout, mid, acts[1..]);
      GrownTwice(s, mid, DoAll(layout, mid, acts[1..]));
    }
  }

  lemma {:induction false} EmitOneGrows(layout: Layout, s: State, poll: nat, signal: Signal, handlers: seq<Handler>)
    requires poll < |s.history|
    ensures Grown(s, EmitOne(layout, s, poll, signal, handlers))
    ensures Emitted(s, FromPoll(poll, signal)).trace <= EmitOne(layout, s, poll, signal, handlers).trace
    decreases handlers, 0, 0
  {
    hide DoAll;
    var heard := Emitted(s, FromPoll(poll, signal));
    EmissionGrows(s, poll, signal);
    if handlers != [] {
      AllGrow(layout, heard, handlers[0].acts);
      GrownTwice(s, heard, DoAll(layout, heard, handlers[0].acts));
    }
  }

  lemma {:induction false} EmitGrows(layout: Layout, s: State, poll: nat, signals: seq<Signal>, handlers: seq<Handler>)
    requires poll < |s.history|
    ensures Grown(s, EmitAll(layout, s, poll, signals, handlers))
    ensures signals != [] ==>
              Emitted(s, FromPoll(poll, signals[0])).trace <= EmitAll(layout, s, poll, signals, handlers).trace
    decreases handlers, 0, 1 + |signals|
  {
    hide EmitOne, TagsKnown;
    if signals != [] {
      var next := EmitOne(layout, s, poll, signals[0], handlers);
      EmitOneGrows(layout, s, poll, signals[0], handlers);
      EmitGrows(layout, next, poll, signals[1..], Rest(handlers));
      GrownTwice(s, next, EmitAll(layout, next, poll, signals[1..], Rest(handlers)));
    }
  }

  lemma GrownMeans(s: State, t: State)
    requires Grown(s, t)
    ensures |s.trace| <= |t.trace| && |s.history| <= |t.history|
  {
  }

  /** Every signal of a poll is emitted, with its tag. */
  lemma {:induction false} EmitsEach(layout: Layout, s: State, poll: nat, signals: seq<Signal>, handlers: seq<Handler>,
                                     i: nat)
    requires poll < |s.history| && i < |signals|
    ensures |s.trace| <= |EmitAll(layout, s, poll, signals, handlers).trace|
    ensures FromPoll(poll, signals[i]) in EmitAll(layout, s, poll, signals, handlers).trace[|s.trace|..]
    decreases i
  {
    hide EmitOne, Grown;
    var next := EmitOne(layout, s, poll, signals[0], handlers);
    var last := EmitAll(layout, s, poll, signals, handlers);
    EmitGrows(layout, s, poll, signals, handlers);
    EmitOneGrows(layout, s, poll, signals[0], handlers);
    GrownMeans(s, next);
    GrownMeans(s, last);
    if i == 0 {
      assert last.trace[|s.trace|] == FromPoll(poll, signals[0]);
    } else {
      EmitsEach(layout, next, poll, signals[1..], Rest(handlers), i - 1);
      EmitGrows(layout, next, poll, signals[1..], Rest(handlers));
      GrownMeans(next, last);
      assert last.trace[|s.trace|..][|next.trace| - |s.trace|..] == last.trace[|next.trace|..];
    }
  }

  /* ----- While an enclosing poll has more to emit ----- */

  /** No signal of the kind was added ... */
  ghost predicate Silent(kind: Kind, s: State, t: State) {
    forall i | |s.trace| <= i < |t.trace| :: !Counted(kind, t.trace[i])
  }

  /** ... or one of a new poll was. */
  ghost predicate Spoken(kind: Kind, s: State, t: State) {
    exists i :: |s.trace| <= i < |t.trace| && Counted(kind, t.trace[i]) && |s.history| <= t.trace[i].poll
  }

  /** Which of the two is known. */
  ghost predicate Told(kind: Kind, s: State, t: State, clash: bool) {
    if clash then Spoken(kind, s, t) else Silent(kind, s, t)
  }

  lemma SilentHere(kind: Kind, s: State)
    ensures Told(kind, s, s, false)
  {
  }

  lemma ToldTwice(kind: Kind, s: State, m: State, t: State, first: bool, second: bool)
    requires Grown(s, m) && Grown(m, t) && Told(kind, s, m, first) && Told(kind, m, t, second)
    ensures Told(kind, s, t, first || second)
  {
    if first {
      var i :| |s.trace| <= i < |m.trace| && Counted(kind, m.trace[i]) && |s.history| <= m.trace[i].poll;
      assert t.trace[i] == m.trace[i];
    } else if !second {
      forall i | |s.trace| <= i < |t.trace| ensures !Counted(kind, t.trace[i]) {
        if i < |m.trace| { assert t.trace[i] == m.trace[i]; }
      }
    }
  }

  /** A signal that does not count, or the state after a drain, tells nothing. */
  lemma QuietEmission(kind: Kind, s: State, sent: Sent)
    requires !Counted(kind, sent)
    ensures Told(kind, s, Emitted(s, sent), false)
  {
  }

  lemma QuietSwitch(kind: Kind, s: State, active: bool, sent: Sent)
    requires !sent.FromPoll?
    ensures Told(kind, s, Emitted(s.(active := active), sent), false)
  {
  }

  lemma {:induction false} BusyDo(kind: Kind, layout: Layout, s: State, a: Act)
    ensures Told(kind, s, Do(layout, s, a), Clash(kind, layout, s, a, true))
    decreases a
  {
    hide Polled, MaskUpTo, SignalsOf, PollResult, Drained, Told, Grown;
    match a
    case Start(on) => BusySwitch(kind, layout, s, true, Started, on.acts);
    case Stop(on) => BusySwitch(kind, layout, s, false, Stopped, on.acts);
    case Poll(each) => BusyPoll(kind, layout, s, each);
    case _ => QuietNote(kind, layout, s, a);
  }

  lemma QuietNote(kind: Kind, layout: Layout, s: State, a: Act)
    requires !a.Start? && !a.Stop? && !a.Poll?
    ensures Told(kind, s, Do(layout, s, a), false)
  {
    hide MaskUpTo;
  }

  lemma {:induction false} BusySwitch(kind: Kind, layout: Layout, s: State, active: bool, sent: Sent, acts: seq<Act>)
    requires !sent.FromPoll?
    ensures var t := Emitted(s.(active := active), sent);
            && Told(kind, s, DoAll(layout, t, acts), ClashAll(kind, layout, t, acts, true))
            && Told(kind, s, s, false)
    decreases acts, 1
  {
    hide ClashAll, DoAll, Told, Grown;
    var t := Emitted(s.(active := active), sent);
    SilentHere(kind, s);
    QuietSwitch(kind, s, active, sent);
    SwitchGrows(s, active, sent);
    AllGrow(layout, t, acts);
    BusyAll(kind, layout, t, acts);
    ToldTwice(kind, s, t, DoAll(layout, t, acts), false, ClashAll(kind, layout, t, acts, true));
  }

  lemma {:induction false} BusyAll(kind: Kind, layout: Layout, s: State, acts: seq<Act>)
    ensures Told(kind, s, DoAll(layout, s, acts), ClashAll(kind, layout, s, acts, true))
    decreases acts, 0
  {
    hide Told, Do, Clash, Grown;
    SilentHere(kind, s);
    if acts != [] {
      var mid := Do(layout, s, acts[0]);
      DoGrows(layout, s, acts[0]);
      AllGrow(layout, mid, acts[1..]);
      BusyDo(kind, layout, s, acts[0]);
      BusyAll(kind, layout, mid, acts[1..]);
      ToldTwice(kind, s, mid, DoAll(layout, mid, acts[1..]), Clash(kind, layout, s, acts[0], true),
                ClashAll(kind, layout, mid, acts[1..], true));
    }
  }

  lemma {:induction false} BusyPoll(kind: Kind, layout: Layout, s: State, each: seq<Handler>)
    ensures Told(kind, s, Do(layout, s, Poll(each)), Clash(kind, layout, s, Poll(each), true))
    decreases each, 1, 0
  {
    hide SignalsOf, PollResult, Drained, EmitAll, ClashEmit, Grown;
    var drained, signals := Drained(layout, s), Now(layout, s);
    var t := EmitAll(layout, drained, |s.history|, signals, each);
    DrainGrows(layout, s);
    EmitGrows(layout, drained, |s.history|, signals, each);
    if More(kind, signals) {
      var i :| 0 <= i < |signals| && Counts(kind, signals[i]);
      EmitsEach(layout, drained, |s.history|, signals, each, i);
      var j :| 0 <= j < |t.trace[|s.trace|..]| && t.trace[|s.trace|..][j] == FromPoll(|s.history|, signals[i]);
      assert Counted(kind, t.trace[|s.trace| + j]);
    } else {
      BusyEmit(kind, layout, drained, |s.history|, signals, each);
      ToldTwice(kind, s, drained, t, false, ClashEmit(kind, layout, drained, |s.history|, signals, each, true));
    }
  }

  lemma {:induction false} BusyEmit(kind: Kind, layout: Layout, s: State, poll: nat, signals: seq<Signal>,
                                    handlers: seq<Handler>)
    requires poll < |s.history| && !More(kind, signals)
    ensures Told(kind, s, EmitAll(layout, s, poll, signals, handlers),
                 ClashEmit(kind, layout, s, poll, signals, handlers, true))
    decreases handlers, 0, |signals|
  {
    hide Told, DoAll, ClashAll, Grown;
    SilentHere(kind, s);
    if signals != [] {
      var heard, next := Emitted(s, FromPoll(poll, signals[0])), EmitOne(layout, s, poll, signals[0], handlers);
      var last := EmitAll(layout, next, poll, signals[1..], Rest(handlers));
      var clash := handlers != [] && ClashAll(kind, layout, heard, handlers[0].acts, true);
      NoMore(kind, signals);
      QuietEmission(kind, s, FromPoll(poll, signals[0]));
      EmissionGrows(s, poll, signals[0]);
      EmitOneGrows(layout, s, poll, signals[0], handlers);
      if handlers != [] {
        AllGrow(layout, heard, handlers[0].acts);
        BusyAll(kind, layout, heard, handlers[0].acts);
        ToldTwice(kind, s, heard, next, false, clash);
      }
      GrownMeans(s, next);
      BusyEmit(kind, layout, next, poll, signals[1..], Rest(handlers));
      EmitGrows(layout, next, poll, signals[1..], Rest(handlers));
      ToldTwice(kind, s, next, last, clash, ClashEmit(kind, layout, next, poll, signals[1..], Rest(handlers), true));
    }
  }

  lemma NoMore(kind: Kind, signals: seq<Signal>)
    requires signals != []
    ensures More(kind, signals) <==> Counts(kind, signals[0]) || More(kind, signals[1..])
  {
    if More(kind, signals[1..]) {
      var i :| 0 <= i < |signals[1..]| && Counts(kind, signals[1..][i]);
      assert Counts(kind, signals[i + 1]);
    }
    if More(kind, signals) {
      var i :| 0 <= i < |signals| && Counts(kind, signals[i]);
      if i > 0 { assert Counts(kind, signals[1..][i - 1]); }
    }
  }

  /* ----- Otherwise ----- */

  ghost predicate Orderly(kind: Kind, s: State) {
    TagsKnown(s) && Ordered(kind, s.trace)
  }

  lemma OrderlyMeans(kind: Kind, s: State)
    ensures Orderly(kind, s) <==> TagsKnown(s) && Ordered(kind, s.trace)
  {
  }

  lemma DisorderStays(kind: Kind, s: State, t: State)
    requires Grown(s, t) && !Ordered(kind, s.trace)
    ensures !Ordered(kind, t.trace)
  {
    var i, j :|
      && 0 <= i < j < |s.trace| && Counted(kind, s.trace[i]) && Counted(kind, s.trace[j])
      && s.trace[i].poll > s.trace[j].poll;
    assert t.trace[i] == s.trace[i] && t.trace[j] == s.trace[j];
  }

  /** All tags of the kind are at most that of the poll under way. */
  ghost predicate UpTo(kind: Kind, s: State, poll: nat) {
    forall i | 0 <= i < |s.trace| && Counted(kind, s.trace[i]) :: s.trace[i].poll <= poll
  }

  lemma EmissionOrderly(kind: Kind, s: State, poll: nat, signal: Signal)
    requires Orderly(kind, s) && poll < |s.history| && (UpTo(kind, s, poll) || !Counts(kind, signal))
    ensures Orderly(kind, Emitted(s, FromPoll(poll, signal)))
    ensures UpTo(kind, s, poll) ==> UpTo(kind, Emitted(s, FromPoll(poll, signal)), poll)
  {
  }

  lemma SwitchOrderly(kind: Kind, s: State, active: bool, sent: Sent)
    requires Orderly(kind, s) && !sent.FromPoll?
    ensures Orderly(kind, Emitted(s.(active := active), sent))
  {
  }

  lemma SilentOrderly(kind: Kind, s: State, t: State, poll: nat)
    requires Orderly(kind, s) && UpTo(kind, s, poll) && Grown(s, t) && Told(kind, s, t, false)
    ensures Orderly(kind, t) && UpTo(kind, t, poll)
  {
    forall i | 0 <= i < |t.trace| && Counted(kind, t.trace[i]) ensures i < |s.trace| && t.trace[i] == s.trace[i] {
      assert i < |s.trace|;
    }
  }

  /** A later poll spoke, and then the poll under way speaks again. */
  lemma SpokenDisorders(kind: Kind, s: State, m: State, t: State, poll: nat, signal: Signal)
    requires poll < |s.history| && Grown(s, m) && Grown(m, t) && Told(kind, s, m, true)
    requires Counts(kind, signal) && FromPoll(poll, signal) in t.trace[|m.trace|..]
    ensures !Ordered(kind, t.trace)
  {
    var i :| |s.trace| <= i < |m.trace| && Counted(kind, m.trace[i]) && |s.history| <= m.trace[i].poll;
    var j :| 0 <= j < |t.trace[|m.trace|..]| && t.trace[|m.trace|..][j] == FromPoll(poll, signal);
    assert t.trace[i] == m.trace[i] && t.trace[|m.trace| + j] == FromPoll(poll, signal);
  }

  lemma {:induction false} DoOrder(kind: Kind, layout: Layout, s: State, a: Act)
    requires Orderly(kind, s)
    ensures Ordered(kind, Do(layout, s, a).trace) <==> !Clash(kind, layout, s, a, false)
    decreases a
  {
    hide Polled, MaskUpTo, SignalsOf, PollResult, Drained, Orderly, Ordered, More;
    OrderlyMeans(kind, s);
    match a
    case Start(on) =>
      if !s.active {
        SwitchOrderly(kind, s, true, Started);
        AllOrder(kind, layout, Emitted(s.(active := true), Started), on.acts);
      }
    case Stop(on) =>
      if s.active {
        SwitchOrderly(kind, s, false, Stopped);
        AllOrder(kind, layout, Emitted(s.(active := false), Stopped), on.acts);
      }
    case Poll(each) =>
      DrainedOrderly(kind, layout, s);
      DrainGrows(layout, s);
      EmitOrder(kind, layout, Drained(layout, s), |s.history|, Now(layout, s), each);
    case _ =>
  }

  lemma DrainedOrderly(kind: Kind, layout: Layout, s: State)
    requires Orderly(kind, s)
    ensures Orderly(kind, Drained(layout, s)) && UpTo(kind, Drained(layout, s), |s.history|)
  {
    DrainGrows(layout, s);
  }

  lemma {:induction false} AllOrder(kind: Kind, layout: Layout, s: State, acts: seq<Act>)
    requires Orderly(kind, s)
    ensures Ordered(kind, DoAll(layout, s, acts).trace) <==> !ClashAll(kind, layout, s, acts, false)
    decreases acts
  {
    hide Do, Clash, Ordered, TagsKnown;
    if acts != [] {
      var mid := Do(layout, s, acts[0]);
      DoGrows(layout, s, acts[0]);
      AllGrow(layout, mid, acts[1..]);
      DoOrder(kind, layout, s, acts[0]);
      if Clash(kind, layout, s, acts[0], false) {
        DisorderStays(kind, mid, DoAll(layout, mid, acts[1..]));
      } else {
        AllOrder(kind, layout, mid, acts[1..]);
      }
    }
  }

  lemma {:induction false} EmitOrder(kind: Kind, layout: Layout, s: State, poll: nat, signals: seq<Signal>,
                                     handlers: seq<Handler>)
    requires Orderly(kind, s) && poll < |s.history| && (UpTo(kind, s, poll) || !More(kind, signals))
    ensures Ordered(kind, EmitAll(layout, s, poll, signals, handlers).trace)
            <==> !ClashEmit(kind, layout, s, poll, signals, handlers, false)
    decreases handlers, |signals|
  {
    hide Ordered, UpTo, TagsKnown, DoAll, ClashAll, Told, Grown, Orderly, More;
    OrderlyMeans(kind, s);
    if signals != [] {
      var heard := Emitted(s, FromPoll(poll, signals[0]));
      NoMore(kind, signals);
      EmissionOrderly(kind, s, poll, signals[0]);
      if handlers == [] {
        EmitOrder(kind, layout, heard, poll, signals[1..], []);
      } else if More(kind, signals[1..]) {
        HandlerBeforeMore(kind, layout, heard, poll, signals[1..], handlers);
      } else {
        HandlerAtEnd(kind, layout, heard, poll, signals[1..], handlers);
      }
    }
  }

  /** The handler of a signal after which the poll has more of the kind to emit. */
  lemma {:induction false} HandlerBeforeMore(kind: Kind, layout: Layout, heard: State, poll: nat, rest: seq<Signal>,
                                             handlers: seq<Handler>)
    requires Orderly(kind, heard) && UpTo(kind, heard, poll) && poll < |heard.history|
    requires handlers != [] && More(kind, rest)
    ensures var next := DoAll(layout, heard, handlers[0].acts);
            Ordered(kind, EmitAll(layout, next, poll, rest, handlers[1..]).trace)
            <==> && !ClashAll(kind, layout, heard, handlers[0].acts, true)
                 && !ClashEmit(kind, layout, next, poll, rest, handlers[1..], false)
    decreases handlers, 0
  {
    var i :| 0 <= i < |rest| && Counts(kind, rest[i]);
    hide Ordered, UpTo, TagsKnown, DoAll, ClashAll, ClashEmit, EmitAll, Told, Grown, Orderly, More;
    var next := DoAll(layout, heard, handlers[0].acts);
    AllGrow(layout, heard, handlers[0].acts);
    GrownMeans(heard, next);
    BusyAll(kind, layout, heard, handlers[0].acts);
    if ClashAll(kind, layout, heard, handlers[0].acts, true) {
      EmitGrows(layout, next, poll, rest, handlers[1..]);
      EmitsEach(layout, next, poll, rest, handlers[1..], i);
      SpokenDisorders(kind, heard, next, EmitAll(layout, next, poll, rest, handlers[1..]), poll, rest[i]);
    } else {
      SilentOrderly(kind, heard, next, poll);
      EmitOrder(kind, layout, next, poll, rest, handlers[1..]);
    }
  }

  /** The handler of a signal after which it has none. */
  lemma {:induction false} HandlerAtEnd(kind: Kind, layout: Layout, heard: State, poll: nat, rest: seq<Signal>,
                                        handlers: seq<Handler>)
    requires Orderly(kind, heard) && poll < |heard.history| && handlers != [] && !More(kind, rest)
    ensures var next := DoAll(layout, heard, handlers[0].acts);
            Ordered(kind, EmitAll(layout, next, poll, rest, handlers[1..]).trace)
            <==> && !ClashAll(kind, layout, heard, handlers[0].acts, false)
                 && !ClashEmit(kind, layout, next, poll, rest, handlers[1..], false)
    decreases handlers, 0
  {
    hide Ordered, UpTo, DoAll, ClashAll, ClashEmit, EmitAll, More;
    var next := DoAll(layout, heard, handlers[0].acts);
    AllGrow(layout, heard, handlers[0].acts);
    AllOrder(kind, layout, heard, handlers[0].acts);
    EmitGrows(layout, next, poll, rest, handlers[1..]);
    if ClashAll(kind, layout, heard, handlers[0].acts, false) {
      DisorderStays(kind, next, EmitAll(layout, next, poll, rest, handlers[1..]));
    } else {
      EmitOrder(kind, layout, next, poll, rest, handlers[1..]);
    }
  }

  /** In every run, the signals of the polls, or the gpioEvent signals alone, come in the order of the polls
      iff no handler polls, with such a signal to emit, while an enclosing poll has more of them to emit. */
  lemma PollsInOrderIff(kind: Kind, layout: Layout, start: State, acts: seq<Act>)
    requires Initial(layout, start)
    ensures Ordered(kind, DoAll(layout, start, acts).trace) <==> !ClashAll(kind, layout, start, acts, false)
  {
    hide DoAll, ClashAll;
    StartsInSync(layout, start);
    AllOrder(kind, layout, start, acts);
  }

  /** Acts without any poll. */
  predicate Quiet(acts: seq<Act>)
    decreases acts
  {
    acts == [] || (QuietAct(acts[0]) && Quiet(acts[1..]))
  }

  predicate QuietAct(a: Act)
    decreases a
  {
    match a
    case Start(on) => Quiet(on.acts)
    case Stop(on) => Quiet(on.acts)
    case Poll(_) => false
    case _ => true
  }

  lemma {:induction false} QuietActNeverClashes(kind: Kind, layout: Layout, s: State, a: Act, busy: bool)
    requires QuietAct(a)
    ensures !Clash(kind, layout, s, a, busy)
    decreases a
  {
    match a
    case Start(on) => QuietNeverClashes(kind, layout, Emitted(s.(active := true), Started), on.acts, busy);
    case Stop(on) => QuietNeverClashes(kind, layout, Emitted(s.(active := false), Stopped), on.acts, busy);
    case _ =>
  }

  lemma {:induction false} QuietNeverClashes(kind: Kind, layout: Layout, s: State, acts: seq<Act>, busy: bool)
    requires Quiet(acts)
    ensures !ClashAll(kind, layout, s, acts, busy)
    decreases acts
  {
    hide Do, Clash;
    if acts != [] {
      QuietActNeverClashes(kind, layout, s, acts[0], busy);
      QuietNeverClashes(kind, layout, Do(layout, s, acts[0]), acts[1..], busy);
    }
  }

  /** In particular a poll whose handlers do not poll keeps the order. */
  lemma {:induction false} QuietHandlersNeverClash(kind: Kind, layout: Layout, s: State, poll: nat,
                                                   signals: seq<Signal>, handlers: seq<Handler>, busy: bool)
    requires forall i | 0 <= i < |handlers| :: Quiet(handlers[i].acts)
    ensures !ClashEmit(kind, layout, s, poll, signals, handlers, busy)
    decreases |handlers|
  {
    hide More;
    if signals != [] && handlers != [] {
      var heard := Emitted(s, FromPoll(poll, signals[0]));
      QuietNeverClashes(kind, layout, heard, handlers[0].acts, busy || More(kind, signals[1..]));
      var next := EmitOne(layout, s, poll, signals[0], handlers);
      QuietHandlersNeverClash(kind, layout, next, poll, signals[1..], handlers[1..], busy);
    }
  }
}
