/** What listeners make of the order in which handlers that poll leave the signals. */
module GpioMonitorListeners {
  import opened GpioEvents
  import opened GpioPolling
  import opened GpioTimeline
  import opened GpioMonitoring
  import opened GpioMonitorTheorems
  import opened GpioMonitorOrder

  /* ----- The order of what is owed ----- */

  /** The signals of the kind. */
  function Chosen(kind: Kind, signals: seq<Signal>): seq<Signal> {
    if signals == [] then []
    else
      var last := signals[|signals| - 1];
      var before := Chosen(kind, signals[..|signals| - 1]);
      if Counts(kind, last) then before + [last] else before
  }

  /** Those of the polls noted before position `n` of the history. */
  function Below(kind: Kind, trace: seq<Sent>, n: nat): seq<Signal> {
    if trace == [] then []
    else
      var last := trace[|trace| - 1];
      var before := Below(kind, trace[..|trace| - 1], n);
      if Counted(kind, last) && last.poll < n then before + [last.signal] else before
  }

  lemma {:induction false} ChosenConcat(kind: Kind, a: seq<Signal>, b: seq<Signal>)
    ensures Chosen(kind, a + b) == Chosen(kind, a) + Chosen(kind, b)
  {
    if b == [] {
      assert a + b == a;
    } else {
      ChosenConcat(kind, a, b[..|b| - 1]);
      assert (a + b)[..|a + b| - 1] == a + b[..|b| - 1];
    }
  }

  lemma {:induction false} EveryIsChosen(signals: seq<Signal>)
    ensures Chosen(EverySignal, signals) == signals
  {
    if signals != [] {
      EveryIsChosen(signals[..|signals| - 1]);
    }
  }

  lemma ChosenOne(kind: Kind, signal: Signal)
    ensures Chosen(kind, [signal]) == if Counts(kind, signal) then [signal] else []
  {
    assert [signal][..0] == [];
  }

  lemma {:induction false} EventsAreChosen(signals: seq<Signal>)
    ensures EventsIn(Chosen(EventSignals, signals)) == EventsIn(signals)
  {
    if signals != [] {
      hide Chosen, EventsIn;
      var rest, last := signals[..|signals| - 1], signals[|signals| - 1];
      EventsAreChosen(rest);
      assert rest + [last] == signals;
      ChosenConcat(EventSignals, rest, [last]);
      ChosenOne(EventSignals, last);
      EventsInConcat(rest, [last]);
      EventsInOne(last);
      if last.GpioEventSignal? {
        EventsInConcat(Chosen(EventSignals, rest), [last]);
      } else {
        assert Chosen(EventSignals, rest) + [] == Chosen(EventSignals, rest);
        assert EventsIn(rest) + [] == EventsIn(rest);
      }
    }
  }

  lemma {:induction false} NoneTagged(kind: Kind, trace: seq<Sent>, poll: nat)
    requires forall i | 0 <= i < |trace| && Counted(kind, trace[i]) :: trace[i].poll != poll
    ensures Chosen(kind, Tagged(trace, poll)) == []
  {
    if trace != [] {
      var rest, last := trace[..|trace| - 1], trace[|trace| - 1];
      NoneTagged(kind, rest, poll);
      if last.FromPoll? && last.poll == poll {
        ChosenConcat(kind, Tagged(rest, poll), [last.signal]);
        ChosenOne(kind, last.signal);
      } else {
        assert Tagged(trace, poll) == Tagged(rest, poll);
      }
    }
  }

  lemma LastIsHighest(kind: Kind, trace: seq<Sent>, n: nat)
    requires Ordered(kind, trace) && trace != []
    ensures var rest, last := trace[..|trace| - 1], trace[|trace| - 1];
            Ordered(kind, rest) && (Counted(kind, last) && last.poll < n ==> Chosen(kind, Tagged(rest, n)) == [])
  {
    var rest, last := trace[..|trace| - 1], trace[|trace| - 1];
    if Counted(kind, last) && last.poll < n {
      forall i | 0 <= i < |rest| && Counted(kind, rest[i]) ensures rest[i].poll != n {
        assert trace[i].poll <= trace[|trace| - 1].poll;
      }
      NoneTagged(kind, rest, n);
    }
  }

  lemma {:induction false} BelowNext(kind: Kind, trace: seq<Sent>, n: nat)
    requires Ordered(kind, trace)
    ensures Below(kind, trace, n + 1) == Below(kind, trace, n) + Chosen(kind, Tagged(trace, n))
  {
    hide Ordered, Chosen;
    if trace == [] {
      NoneTagged(kind, trace, n);
    } else {
      var rest, last := trace[..|trace| - 1], trace[|trace| - 1];
      LastIsHighest(kind, trace, n);
      BelowNext(kind, rest, n);
      if last.FromPoll? && last.poll == n {
        ChosenConcat(kind, Tagged(rest, n), [last.signal]);
        ChosenOne(kind, last.signal);
      } else {
        assert Tagged(trace, n) == Tagged(rest, n);
      }
    }
  }

  lemma {:induction false} NothingBelow(kind: Kind, trace: seq<Sent>)
    ensures Below(kind, trace, 0) == []
  {
    if trace != [] {
      NothingBelow(kind, trace[..|trace| - 1]);
    }
  }

  lemma {:induction false} AllBelow(kind: Kind, trace: seq<Sent>, n: nat)
    requires forall i | 0 <= i < |trace| && trace[i].FromPoll? :: trace[i].poll < n
    ensures Below(kind, trace, n) == Chosen(kind, PollSignals(trace))
  {
    if trace != [] {
      var rest, last := trace[..|trace| - 1], trace[|trace| - 1];
      AllBelow(kind, rest, n);
      hide Chosen;
      if last.FromPoll? {
        ChosenConcat(kind, PollSignals(rest), [last.signal]);
        ChosenOne(kind, last.signal);
      } else {
        assert PollSignals(trace) == PollSignals(rest);
      }
    }
  }

  lemma {:induction false} BelowIsOwed(kind: Kind, layout: Layout, trace: seq<Sent>, h: Timeline, n: nat)
    requires Ordered(kind, trace) && n <= |h|
    requires forall k: nat | k < n :: Tagged(trace, k) == Owes(layout, h[..k], h[k])
    ensures Below(kind, trace, n) == Chosen(kind, AllBatches(layout, h[..n]))
  {
    hide Owes, Tagged, Ordered;
    if n == 0 {
      NothingBelow(kind, trace);
    } else {
      BelowIsOwed(kind, layout, trace, h, n - 1);
      BelowNext(kind, trace, n - 1);
      assert Before(h[..n]) == h[..n - 1] && Last(h[..n]) == h[n - 1];
      ChosenConcat(kind, AllBatches(layout, h[..n - 1]), Owes(layout, h[..n - 1], h[n - 1]));
    }
  }

  /** In a run without a clash the signals of the kind are those owed, in the order in which they are. */
  lemma OwedInOrder(kind: Kind, layout: Layout, start: State, acts: seq<Act>)
    requires layout.Valid() && Initial(layout, start) && !ClashAll(kind, layout, start, acts, false)
    ensures var s := DoAll(layout, start, acts);
            Chosen(kind, PollSignals(s.trace)) == Chosen(kind, AllBatches(layout, s.history))
  {
    hide DoAll, ClashAll, AllBatches, PollSignals, Below, Chosen, Owes, Ordered;
    var s := DoAll(layout, start, acts);
    PollsInOrderIff(kind, layout, start, acts);
    StartsInSync(layout, start);
    AllGrow(layout, start, acts);
    forall k: nat | k < |s.history| ensures Tagged(s.trace, k) == Owes(layout, s.history[..k], s.history[k]) {
      EveryPollDelivers(layout, start, acts, k);
    }
    BelowIsOwed(kind, layout, s.trace, s.history, |s.history|);
    AllBelow(kind, s.trace, |s.history|);
    assert s.history[..|s.history|] == s.history;
  }

  /** In every run in which the polls stay in order, their signals are the batches one after the other; and
      in every run in which just the gpioEvent signals do, these are the concatenation, over the polls that
      succeed, of the first min(limit, 4) events asked for since the last poll that reached the queue. */
  lemma EventsArriveInOrder(layout: Layout, start: State, acts: seq<Act>)
    requires layout.Valid() && Initial(layout, start)
    ensures var s := DoAll(layout, start, acts);
            && (!ClashAll(EverySignal, layout, start, acts, false) ==>
                  PollSignals(s.trace) == AllBatches(layout, s.history))
            && (!ClashAll(EventSignals, layout, start, acts, false) ==>
                  EventsIn(PollSignals(s.trace)) == Delivered(layout, s.history))
  {
    hide DoAll, ClashAll, Delivered, AllBatches, EventsIn, PollSignals, Chosen;
    var s := DoAll(layout, start, acts);
    if !ClashAll(EverySignal, layout, start, acts, false) {
      OwedInOrder(EverySignal, layout, start, acts);
      EveryIsChosen(PollSignals(s.trace));
      EveryIsChosen(AllBatches(layout, s.history));
    }
    if !ClashAll(EventSignals, layout, start, acts, false) {
      OwedInOrder(EventSignals, layout, start, acts);
      EventsAreChosen(PollSignals(s.trace));
      EventsAreChosen(AllBatches(layout, s.history));
      BatchesDeliver(layout, s.history);
    }
  }

  /* ----- A nested poll can overtake ----- */

  lemma {:induction false} TagSignals(trace: seq<Sent>, poll: nat, signals: seq<Signal>)
    ensures PollSignals(trace + Tag(poll, signals)) == PollSignals(trace) + signals
  {
    if signals == [] {
      assert trace + Tag(poll, signals) == trace;
    } else {
      var rest, last := signals[..|signals| - 1], signals[|signals| - 1];
      var longer := trace + Tag(poll, signals);
      TagSignals(trace, poll, rest);
      assert longer[..|longer| - 1] == trace + Tag(poll, rest);
    }
  }

  lemma PollsOpenly(layout: Layout, queue: seq<NativeEvent>, typed: seq<GpioEvent>)
    requires |queue| == |typed| <= 4
    requires forall i | 0 <= i < |queue| :: Proper(queue[i]) && typed[i] == Typed(queue[i])
    ensures Polled(layout, Source(0, queue, 0), 4) == (Source(0, [], 0), Success(typed))
  {
    AcceptedByZero(layout, queue);
    TranslateAll(queue, typed);
  }

  /** The state after a handler let one more event arrive and polled. */
  lemma NestedPoll(layout: Layout, s: State, e: NativeEvent)
    requires s.attached && s.source == Source(0, [], 0) && s.maxEvents == 4 && Proper(e)
    ensures var t := DoAll(layout, s, [Arrive(e), Poll([])]);
            PollSignals(t.trace) == PollSignals(s.trace) + Paired([Typed(e)])
  {
    hide PollSignals, Paired, Polled, MaskUpTo;
    var arrived := Do(layout, s, Arrive(e));
    assert arrived.source.queue == [e];
    PollsOpenly(layout, [e], [Typed(e)]);
    EmitUnheard(layout, Drained(layout, arrived), |arrived.history|, Paired([Typed(e)]));
    TagSignals(s.trace, |arrived.history|, Paired([Typed(e)]));
    assert [Arrive(e), Poll([])][1..] == [Poll([])];
    assert DoAll(layout, arrived, [Poll([])]) == Do(layout, arrived, Poll([]));
  }

  /** A poll of two events, the handler of the first of which lets a third one arrive and polls. */
  function Overtaking(e: NativeEvent): Act {
    Poll([Handler([Arrive(e), Poll([])])])
  }

  lemma OvertakingPoll(layout: Layout, s: State, e1: NativeEvent, e2: NativeEvent, e3: NativeEvent)
    requires s.attached && s.source == Source(0, [e1, e2], 0) && s.maxEvents == 4 && s.trace == []
    requires Proper(e1) && Proper(e2) && Proper(e3)
    ensures EventsIn(PollSignals(Do(layout, s, Overtaking(e3)).trace)) == [Typed(e1), Typed(e3), Typed(e2)]
  {
    hide PollSignals, Paired, Polled, MaskUpTo, EventsIn, DoAll, EmitAll;
    var events, handlers := [Typed(e1), Typed(e2)], [Handler([Arrive(e3), Poll([])])];
    var drained, at := Drained(layout, s), |s.history|;
    PollsOpenly(layout, s.source.queue, events);
    EmitPair(layout, drained, at, events, 0, handlers);
    assert Paired(events)[0..] == Paired(events) && Rest(handlers) == [];
    var heard := Emitted(drained, FromPoll(at, GpioEventSignal(events[0])));
    NestedPoll(layout, heard, e3);
    var first := DoAll(layout, heard, handlers[0].acts);
    var second := Emitted(first, FromPoll(at, EdgeSignal(events[0])));
    EmitUnheard(layout, second, at, Paired(events)[2..]);
    Announced(drained.trace, heard.trace, first.trace, second.trace, at, events, Typed(e3));
  }

  /** A run of a new monitor in which the third event to arrive is announced before the second. */
  lemma NestedPollOvertakes(layout: Layout, e1: NativeEvent, e2: NativeEvent, e3: NativeEvent)
    requires Proper(e1) && Proper(e2) && Proper(e3)
    ensures var start := Starting(layout, true, NO_FILTER, [], 0);
            var s := DoAll(layout, start, [Arrive(e1), Arrive(e2), Overtaking(e3)]);
            && Initial(layout, start)
            && EventsIn(PollSignals(s.trace)) == [Typed(e1), Typed(e3), Typed(e2)]
  {
    hide PollSignals, EventsIn, Overtaking, MaskUpTo, Polled, EmitAll;
    EmptyMask(layout);
    var start := Starting(layout, true, NO_FILTER, [], 0);
    var one := Do(layout, start, Arrive(e1));
    var two := Do(layout, one, Arrive(e2));
    assert one.source.queue == [e1] && two.source.queue == [e1, e2];
    OvertakingPoll(layout, two, e1, e2, e3);
    assert [Arrive(e1), Arrive(e2), Overtaking(e3)][1..] == [Arrive(e2), Overtaking(e3)];
    assert [Arrive(e2), Overtaking(e3)][1..] == [Overtaking(e3)];
    assert DoAll(layout, two, [Overtaking(e3)]) == Do(layout, two, Overtaking(e3));
  }

  /** With one event in the outer batch the same handler disturbs the order of the edges and not that of the
      events: the two conditions differ. */
  lemma EdgeOvertaken(layout: Layout, s: State, e1: NativeEvent, e2: NativeEvent)
    requires s.attached && s.source == Source(0, [e1], 0) && s.maxEvents == 4 && Proper(e1) && Proper(e2)
    ensures Clash(EverySignal, layout, s, Overtaking(e2), false)
    ensures !Clash(EventSignals, layout, s, Overtaking(e2), false)
  {
    hide Polled, MaskUpTo, Paired, EmitAll, DoAll;
    var handler := Handler([Arrive(e2), Poll([])]);
    var event, edge := GpioEventSignal(Typed(e1)), EdgeSignal(Typed(e1));
    PollsOpenly(layout, [e1], [Typed(e1)]);
    PairedOne(Typed(e1));
    assert Now(layout, s) == [event, edge] && [event, edge][1..] == [edge];
    assert [edge][0] == edge && !Counts(EventSignals, edge);
    var heard := Emitted(Drained(layout, s), FromPoll(|s.history|, event));
    assert heard.attached && heard.source == Source(0, [], 0) && heard.maxEvents == 4;
    assert [handler][0] == handler && [handler][1..] == [];
    NestedClash(EverySignal, layout, heard, e2, true);
    NestedClash(EventSignals, layout, heard, e2, false);
    assert Counts(EverySignal, [edge][0]) && More(EverySignal, [edge]) && !More(EventSignals, [edge]);
    OneHandlerClash(EverySignal, layout, Drained(layout, s), |s.history|, [event, edge], handler);
    OneHandlerClash(EventSignals, layout, Drained(layout, s), |s.history|, [event, edge], handler);
  }

  lemma OneHandlerClash(kind: Kind, layout: Layout, s: State, poll: nat, signals: seq<Signal>, handler: Handler)
    requires signals != []
    ensures ClashEmit(kind, layout, s, poll, signals, [handler], false)
            <==> ClashAll(kind, layout, Emitted(s, FromPoll(poll, signals[0])), handler.acts, More(kind, signals[1..]))
  {
    hide ClashAll;
    assert [handler][1..] == [];
  }

  lemma NestedClash(kind: Kind, layout: Layout, s: State, e: NativeEvent, busy: bool)
    requires s.attached && s.source == Source(0, [], 0) && s.maxEvents == 4 && Proper(e)
    ensures ClashAll(kind, layout, s, [Arrive(e), Poll([])], busy) <==> busy
  {
    hide Polled, MaskUpTo, Paired, EmitAll;
    var acts, arrived := [Arrive(e), Poll([])], Do(layout, s, Arrive(e));
    assert arrived.source.queue == [e] && acts[1..] == [Poll([])];
    PollsOpenly(layout, [e], [Typed(e)]);
    PairedOne(Typed(e));
    assert Now(layout, arrived)[0] == GpioEventSignal(Typed(e));
    assert More(kind, Now(layout, arrived));
    assert Clash(kind, layout, arrived, Poll([]), busy) <==> busy;
    assert ClashAll(kind, layout, arrived, [Poll([])], busy) <==> busy;
  }

  lemma Announced(trace: seq<Sent>, heard: seq<Sent>, first: seq<Sent>, second: seq<Sent>, at: nat,
                  events: seq<GpioEvent>, nested: GpioEvent)
    requires trace == [] && |events| == 2
    requires heard == trace + [FromPoll(at, GpioEventSignal(events[0]))]
    requires PollSignals(first) == PollSignals(heard) + Paired([nested])
    requires second == first + [FromPoll(at, EdgeSignal(events[0]))]
    ensures |Paired(events)| == 4
    ensures EventsIn(PollSignals(second + Tag(at, Paired(events)[2..]))) == [events[0], nested, events[1]]
  {
    hide Paired;
    PairedAt(events, 1);
    var rest := Paired(events)[2..];
    assert rest == [GpioEventSignal(events[1]), EdgeSignal(events[1])];
    TagSignals(trace, at, [GpioEventSignal(events[0])]);
    TagSignals(first, at, [EdgeSignal(events[0])]);
    assert Tag(at, [GpioEventSignal(events[0])]) == [FromPoll(at, GpioEventSignal(events[0]))];
    assert Tag(at, [EdgeSignal(events[0])]) == [FromPoll(at, EdgeSignal(events[0]))];
    TagSignals(second, at, rest);
    PairedOne(nested);
    EventsInThree(events[0], nested, events[1]);
    assert PollSignals(trace) == [];
    assert PollSignals(second) + rest
        == [GpioEventSignal(events[0])] + Paired([nested]) + [EdgeSignal(events[0])] + rest;
  }

  lemma PairedOne(e: GpioEvent)
    ensures Paired([e]) == [GpioEventSignal(e), EdgeSignal(e)]
  {
    PairedAt([e], 0);
  }

  lemma EventsInThree(a: GpioEvent, b: GpioEvent, c: GpioEvent)
    ensures EventsIn([GpioEventSignal(a)] + Paired([b]) + [EdgeSignal(a)] + [GpioEventSignal(c), EdgeSignal(c)])
            == [a, b, c]
  {
    hide EventsIn, Paired;
    PairedOne(c);
    EventsInPaired([b]);
    EventsInPaired([c]);
    EventsInOne(GpioEventSignal(a));
    EventsInOne(EdgeSignal(a));
    EventsInConcat([GpioEventSignal(a)], Paired([b]));
    EventsInConcat([GpioEventSignal(a)] + Paired([b]), [EdgeSignal(a)]);
    EventsInConcat([GpioEventSignal(a)] + Paired([b]) + [EdgeSignal(a)], Paired([c]));
  }
}
