/** What listeners of the monitor may rely on, however the handlers re-enter it. */
module GpioMonitorTheorems {
  import opened GpioEvents
  import opened GpioPolling
  import opened GpioTimeline
  import opened GpioMonitoring

  /** Started and stopped signals in the order of emission, started being true. */
  function Switches(trace: seq<Sent>): seq<bool> {
    if trace == [] then []
    else
      var before := Switches(trace[..|trace| - 1]);
      match trace[|trace| - 1]
      case Started => before + [true]
      case Stopped => before + [false]
      case FromPoll(_, _) => before
  }

  /** The signals of one poll. */
  function Tagged(trace: seq<Sent>, poll: nat): seq<Signal> {
    if trace == [] then []
    else
      var last := trace[|trace| - 1];
      var before := Tagged(trace[..|trace| - 1], poll);
      if last.FromPoll? && last.poll == poll then before + [last.signal] else before
  }

  /** The signals of all polls. */
  function PollSignals(trace: seq<Sent>): seq<Signal> {
    if trace == [] then []
    else
      var last := trace[|trace| - 1];
      var before := PollSignals(trace[..|trace| - 1]);
      if last.FromPoll? then before + [last.signal] else before
  }

  /** A new monitor, over any poller. */
  ghost predicate Initial(layout: Layout, s: State) {
    exists f: Filter, error: ErrorCode :: s == Starting(layout, s.attached, f, s.source.queue, error)
  }

  /* ----- Start and stop ----- */

  ghost predicate Alternating(s: State) {
    && (forall i | 0 <= i < |Switches(s.trace)| :: Switches(s.trace)[i] <==> i % 2 == 0)
    && (s.active <==> |Switches(s.trace)| % 2 == 1)
  }

  lemma StartAlternates(s: State)
    requires Alternating(s) && !s.active
    ensures Alternating(Emitted(s.(active := true), Started))
  {
    assert (s.trace + [Started])[..|s.trace|] == s.trace;
  }

  lemma StopAlternates(s: State)
    requires Alternating(s) && s.active
    ensures Alternating(Emitted(s.(active := false), Stopped))
  {
    assert (s.trace + [Stopped])[..|s.trace|] == s.trace;
  }

  lemma SameAlternates(s: State, t: State)
    requires Alternating(s) && t.trace == s.trace && t.active == s.active
    ensures Alternating(t)
  {
  }

  lemma {:induction false} DoAlternates(layout: Layout, s: State, a: Act)
    requires Alternating(s)
    ensures Alternating(Do(layout, s, a))
    decreases a
  {
    hide Polled, MaskUpTo, Alternating, SignalsOf, PollResult;
    match a
    case Start(on) =>
      if !s.active {
        StartAlternates(s);
        AllAlternate(layout, Emitted(s.(active := true), Started), on.acts);
      }
    case Stop(on) =>
      if s.active {
        StopAlternates(s);
        AllAlternate(layout, Emitted(s.(active := false), Stopped), on.acts);
      }
    case Poll(each) =>
      SameAlternates(s, Drained(layout, s));
      EmitAlternates(layout, Drained(layout, s), |s.history|, SignalsOf(PollResult(layout, s)), each);
    case _ => SameAlternates(s, Do(layout, s, a));
  }

  lemma {:induction false} AllAlternate(layout: Layout, s: State, acts: seq<Act>)
    requires Alternating(s)
    ensures Alternating(DoAll(layout, s, acts))
    decreases acts
  {
    hide Alternating, Do;
    if acts != [] {
      DoAlternates(layout, s, acts[0]);
      AllAlternate(layout, Do(layout, s, acts[0]), acts[1..]);
    }
  }

  lemma {:induction false} EmitAlternates(layout: Layout, s: State, poll: nat, signals: seq<Signal>,
                                          handlers: seq<Handler>)
    requires Alternating(s)
    ensures Alternating(EmitAll(layout, s, poll, signals, handlers))
    decreases handlers, |signals|
  {
    if signals != [] {
      var heard := Emitted(s, FromPoll(poll, signals[0]));
      assert heard.trace[..|heard.trace| - 1] == s.trace;
      assert Switches(heard.trace) == Switches(s.trace);
      hide Alternating, Switches, DoAll;
      assert Alternating(heard);
      if handlers != [] {
        AllAlternate(layout, heard, handlers[0].acts);
      }
      EmitAlternates(layout, EmitOne(layout, s, poll, signals[0], handlers), poll, signals[1..], Rest(handlers));
    }
  }

  /** In every run, whatever the handlers of any signal do, started and stopped signals alternate, started
      comes first, and the timer is active iff the last of them was started. */
  lemma SwitchesAlternate(layout: Layout, start: State, acts: seq<Act>)
    requires Initial(layout, start)
    ensures var s := DoAll(layout, start, acts);
            var switches := Switches(s.trace);
            && (forall i | 0 <= i < |switches| :: switches[i] <==> i % 2 == 0)
            && (s.active <==> switches != [] && switches[|switches| - 1])
  {
    hide DoAll;
    assert Switches(start.trace) == [];
    AllAlternate(layout, start, acts);
  }

  /* ----- The pipeline ----- */

  /** The native mask and queue say what the history says. */
  ghost predicate InSync(layout: Layout, s: State) {
    && s.source.mask == MaskUpTo(layout, CurrentFilter(s.history), 4)
    && s.source.queue == Pending(s.history)
    && s.source.nextError == PendingError(s.history)
    && s.maxEvents == CurrentLimit(s.history)
  }

  lemma {:induction false} DoSyncs(layout: Layout, s: State, a: Act)
    requires InSync(layout, s)
    ensures InSync(layout, Do(layout, s, a))
    ensures s.history <= Do(layout, s, a).history
    decreases a
  {
    hide InSync, Polled, MaskUpTo, SignalsOf;
    match a
    case Start(on) =>
      EmissionKeeps(layout, s, true, Started, 0);
      AllSync(layout, if s.active then s else Emitted(s.(active := true), Started), on.acts);
    case Stop(on) =>
      EmissionKeeps(layout, s, false, Stopped, 0);
      AllSync(layout, if !s.active then s else Emitted(s.(active := false), Stopped), on.acts);
    case Poll(each) =>
      DrainKeeps(layout, s);
      EmitSyncs(layout, Drained(layout, s), |s.history|,
                SignalsOf(PollResult(layout, s)), each);
    case _ => NoteSyncs(layout, s, a);
  }

  lemma NoteSyncs(layout: Layout, s: State, a: Act)
    requires InSync(layout, s) && !a.Start? && !a.Stop? && !a.Poll?
    ensures InSync(layout, Do(layout, s, a))
  {
    EmptyMask(layout);
    hide MaskUpTo, CurrentFilter, CurrentLimit, PendingError, Pending;
    match a
    case SetFilter(f) => NoteMeans(s.history, Filtered(f));
    case ClearFilter => NoteMeans(s.history, Filtered(NO_FILTER));
    case SetMaxEvents(limit) => NoteMeans(s.history, Limited(limit));
    case Arrive(e) => NoteMeans(s.history, Arrived(e));
    case Inject(code) => NoteMeans(s.history, Injected(code));
  }

  lemma EmissionKeeps(layout: Layout, s: State, active: bool, signal: Sent, k: nat)
    requires InSync(layout, s)
    ensures var t := Emitted(s.(active := active), signal);
            && InSync(layout, t)
            && Tagged(t.trace, k)
               == Tagged(s.trace, k) + if signal.FromPoll? && signal.poll == k then [signal.signal] else []
  {
    assert (s.trace + [signal])[..|s.trace|] == s.trace;
  }

  lemma DrainKeeps(layout: Layout, s: State)
    requires InSync(layout, s)
    ensures InSync(layout, Drained(layout, s))
  {
    hide MaskUpTo, Accepted, Translate, CurrentFilter, CurrentLimit, PendingError, Pending;
    NoteMeans(s.history, PolledOnce);
    NoteMeans(s.history, Refused);
  }

  lemma {:induction false} AllSync(layout: Layout, s: State, acts: seq<Act>)
    requires InSync(layout, s)
    ensures InSync(layout, DoAll(layout, s, acts))
    ensures s.history <= DoAll(layout, s, acts).history
    decreases acts
  {
    hide InSync, Do;
    if acts != [] {
      DoSyncs(layout, s, acts[0]);
      AllSync(layout, Do(layout, s, acts[0]), acts[1..]);
    }
  }

  lemma {:induction false} EmitSyncs(layout: Layout, s: State, poll: nat, signals: seq<Signal>, handlers: seq<Handler>)
    requires InSync(layout, s)
    ensures InSync(layout, EmitAll(layout, s, poll, signals, handlers))
    ensures s.history <= EmitAll(layout, s, poll, signals, handlers).history
    decreases handlers, |signals|
  {
    if signals != [] {
      var heard := Emitted(s, FromPoll(poll, signals[0]));
      assert InSync(layout, heard);
      hide InSync, DoAll;
      if handlers != [] {
        AllSync(layout, heard, handlers[0].acts);
      }
      EmitSyncs(layout, EmitOne(layout, s, poll, signals[0], handlers), poll, signals[1..], Rest(handlers));
    }
  }

  /** The entry that a poll adds to the history. */
  function PollEntry(s: State): Entry {
    if s.attached then PolledOnce else Refused
  }

  lemma PollOwesBatch(layout: Layout, s: State)
    requires layout.Valid() && InSync(layout, s)
    ensures SignalsOf(PollResult(layout, s)) == Owes(layout, s.history, PollEntry(s))
    ensures Drained(layout, s).history == s.history + [PollEntry(s)]
  {
    AcceptedIsAsked(layout, CurrentFilter(s.history), s.source.queue);
  }

  /** What the polls among the entries from `start` on owe to poll `k`. */
  function Owed(layout: Layout, start: nat, h: Timeline, k: nat): seq<Signal> {
    if start <= k < |h| then Owes(layout, h[..k], h[k]) else []
  }

  lemma OwedAddsUp(layout: Layout, start: nat, mid: Timeline, h: Timeline, k: nat)
    requires start <= |mid| && mid <= h
    ensures Owed(layout, start, h, k) == Owed(layout, start, mid, k) + Owed(layout, |mid|, h, k)
  {
    if k < |mid| {
      assert h[..k] == mid[..k];
    }
  }

  lemma OwedNothing(layout: Layout, start: nat, h: Timeline, k: nat)
    requires |h| <= start || k < start
    ensures Owed(layout, start, h, k) == []
  {
  }

  lemma OwedByPoll(layout: Layout, h: Timeline, e: Entry, k: nat)
    ensures Owed(layout, |h|, h + [e], k) == if k == |h| then Owes(layout, h, e) else []
  {
    assert (h + [e])[..|h|] == h;
  }

  lemma {:induction false} DoPays(layout: Layout, s: State, a: Act, k: nat)
    requires layout.Valid() && InSync(layout, s)
    ensures var t := Do(layout, s, a);
            Tagged(t.trace, k) == Tagged(s.trace, k) + Owed(layout, |s.history|, t.history, k)
    decreases a
  {
    hide Polled, MaskUpTo, Batch, SignalsOf, InSync, Tagged;
    match a
    case Start(on) =>
      if !s.active {
        EmissionKeeps(layout, s, true, Started, k);
        AllPay(layout, Emitted(s.(active := true), Started), on.acts, k);
      }
    case Stop(on) =>
      if s.active {
        EmissionKeeps(layout, s, false, Stopped, k);
        AllPay(layout, Emitted(s.(active := false), Stopped), on.acts, k);
      }
    case Poll(each) => PollPays(layout, s, each, k);
    case _ =>
  }

  lemma {:induction false} PollPays(layout: Layout, s: State, each: seq<Handler>, k: nat)
    requires layout.Valid() && InSync(layout, s)
    ensures var t := Do(layout, s, Poll(each));
            Tagged(t.trace, k) == Tagged(s.trace, k) + Owed(layout, |s.history|, t.history, k)
    decreases each, 1
  {
    hide Polled, PollResult, Drained, MaskUpTo, Owes, Owed, SignalsOf, InSync, Tagged, EmitAll;
    var drained, signals := Drained(layout, s), SignalsOf(PollResult(layout, s));
    var t := EmitAll(layout, drained, |s.history|, signals, each);
    DrainKeeps(layout, s);
    PollOwesBatch(layout, s);
    EmitSyncs(layout, drained, |s.history|, signals, each);
    EmitPays(layout, drained, |s.history|, signals, each, k);
    OwedAddsUp(layout, |s.history|, drained.history, t.history, k);
    OwedByPoll(layout, s.history, PollEntry(s), k);
    assert drained.trace == s.trace by { DrainedTrace(layout, s); }
  }

  lemma DrainedTrace(layout: Layout, s: State)
    ensures Drained(layout, s).trace == s.trace
  {
  }

  lemma {:induction false} AllPay(layout: Layout, s: State, acts: seq<Act>, k: nat)
    requires layout.Valid() && InSync(layout, s)
    ensures var t := DoAll(layout, s, acts);
            Tagged(t.trace, k) == Tagged(s.trace, k) + Owed(layout, |s.history|, t.history, k)
    decreases acts
  {
    OwedNothing(layout, |s.history|, s.history, k);
    hide InSync, Do, Tagged, Owed;
    if acts != [] {
      var mid := Do(layout, s, acts[0]);
      DoSyncs(layout, s, acts[0]);
      AllSync(layout, mid, acts[1..]);
      DoPays(layout, s, acts[0], k);
      AllPay(layout, mid, acts[1..], k);
      var last := DoAll(layout, mid, acts[1..]);
      OwedAddsUp(layout, |s.history|, mid.history, last.history, k);
      Associate(Tagged(s.trace, k), Owed(layout, |s.history|, mid.history, k),
                Owed(layout, |mid.history|, last.history, k));
    } else {
      assert Tagged(s.trace, k) + [] == Tagged(s.trace, k);
    }
  }

  lemma Associate(a: seq<Signal>, b: seq<Signal>, c: seq<Signal>)
    ensures a + b + c == a + (b + c)
  {
  }

  /** The first signal, what its handler adds, the remaining signals, and what theirs add. */
  lemma Regroup(sent: seq<Signal>, signals: seq<Signal>, first: seq<Signal>, later: seq<Signal>, own: bool)
    requires signals != [] && (own ==> first == [])
    ensures sent + (if own then [signals[0]] else []) + first + (if own then signals[1..] else []) + later
            == sent + (if own then signals else []) + (first + later)
  {
  }

  lemma {:induction false} EmitOnePays(layout: Layout, s: State, poll: nat, signal: Signal, handlers: seq<Handler>,
                                       k: nat)
    requires layout.Valid() && InSync(layout, s) && poll < |s.history|
    ensures var next := EmitOne(layout, s, poll, signal, handlers);
            && InSync(layout, next) && s.history <= next.history
            && Tagged(next.trace, k)
               == Tagged(s.trace, k) + (if k == poll then [signal] else []) + Owed(layout, |s.history|, next.history, k)
            && (k == poll ==> Owed(layout, |s.history|, next.history, k) == [])
    decreases handlers, 0, 0
  {
    var heard := Emitted(s, FromPoll(poll, signal));
    EmissionKeeps(layout, s, s.active, FromPoll(poll, signal), k);
    assert heard == Emitted(s.(active := s.active), FromPoll(poll, signal));
    OwedNothing(layout, |s.history|, s.history, k);
    hide InSync, DoAll, Tagged, Owed;
    if handlers != [] {
      AllSync(layout, heard, handlers[0].acts);
      AllPay(layout, heard, handlers[0].acts, k);
    }
    if k == poll {
      OwedNothing(layout, |s.history|, EmitOne(layout, s, poll, signal, handlers).history, k);
    }
  }

  lemma {:induction false} EmitPays(layout: Layout, s: State, poll: nat, signals: seq<Signal>,
                                    handlers: seq<Handler>, k: nat)
    requires layout.Valid() && InSync(layout, s) && poll < |s.history|
    ensures var t := EmitAll(layout, s, poll, signals, handlers);
            Tagged(t.trace, k)
            == Tagged(s.trace, k) + (if k == poll then signals else []) + Owed(layout, |s.history|, t.history, k)
    decreases handlers, 0, |signals|
  {
    OwedNothing(layout, |s.history|, s.history, k);
    hide InSync, EmitOne, Tagged, Owed;
    if signals != [] {
      var next := EmitOne(layout, s, poll, signals[0], handlers);
      var last := EmitAll(layout, next, poll, signals[1..], Rest(handlers));
      EmitOnePays(layout, s, poll, signals[0], handlers, k);
      EmitSyncs(layout, next, poll, signals[1..], Rest(handlers));
      EmitPays(layout, next, poll, signals[1..], Rest(handlers), k);
      OwedAddsUp(layout, |s.history|, next.history, last.history, k);
      Regroup(Tagged(s.trace, k), signals, Owed(layout, |s.history|, next.history, k),
              Owed(layout, |next.history|, last.history, k), k == poll);
    }
  }

  /** In every run, each poll emits exactly the signals that the history before it owes: of the events
      queued since the last poll that reached the queue, the first min(limit, 4) that the typed filter asks
      for, each followed by its edge, or one error.  That holds of nested polls too, for any handlers. */
  lemma EveryPollDelivers(layout: Layout, start: State, acts: seq<Act>, k: nat)
    requires layout.Valid() && Initial(layout, start)
    ensures var s := DoAll(layout, start, acts);
            Tagged(s.trace, k) == if k < |s.history| then Owes(layout, s.history[..k], s.history[k]) else []
  {
    assert Tagged(start.trace, k) == [];
    hide DoAll, InSync, Tagged;
    StartsInSync(layout, start);
    AllSync(layout, start, acts);
    AllPay(layout, start, acts, k);
    if k < |start.history| {
      assert Owes(layout, start.history[..k], start.history[k]) == [];
    }
  }

  /** A new monitor is in step with what happened to its poller before, and owes nothing for that. */
  lemma StartsInSync(layout: Layout, start: State)
    requires Initial(layout, start)
    ensures InSync(layout, start) && start.trace == [] && !start.active
    ensures forall e | e in start.history :: !e.PolledOnce? && !e.Refused?
  {
    var f: Filter, error: ErrorCode :| start == Starting(layout, start.attached, f, start.source.queue, error);
    hide MaskUpTo, CurrentFilter, CurrentLimit, PendingError, Pending;
    var arrived := [Filtered(f)] + Queued(start.source.queue);
    QueuedMeans(f, start.source.queue);
    NoteMeans(arrived, Injected(error));
  }

  lemma {:induction false} QueuedMeans(f: Filter, queue: seq<NativeEvent>)
    ensures var h := [Filtered(f)] + Queued(queue);
            && CurrentFilter(h) == f && CurrentLimit(h) == DEFAULT_MAX_EVENTS_PER_POLL
            && PendingError(h) == 0 && Pending(h) == queue
  {
    if queue == [] {
      assert [Filtered(f)] + Queued(queue) == [Filtered(f)] && Before([Filtered(f)]) == [];
    } else {
      var rest, last := queue[..|queue| - 1], queue[|queue| - 1];
      QueuedMeans(f, rest);
      hide CurrentFilter, CurrentLimit, PendingError, Pending;
      NoteMeans([Filtered(f)] + Queued(rest), Arrived(last));
      assert [Filtered(f)] + Queued(queue) == [Filtered(f)] + Queued(rest) + [Arrived(last)];
    }
  }

  /* ----- Nested polls ----- */

  /** Every poll signal is owed and every owed one is emitted, in some order. */
  ghost predicate Balanced(layout: Layout, s: State, missing: multiset<Signal>) {
    multiset(PollSignals(s.trace)) + missing == multiset(AllBatches(layout, s.history))
  }

  lemma PollAddsItsBatch(layout: Layout, s: State, missing: multiset<Signal>)
    requires Balanced(layout, s, missing)
    ensures Balanced(layout, Drained(layout, s), missing + multiset(Owes(layout, s.history, PollEntry(s))))
  {
    hide Owes, Polled;
    NoteSplits(s.history, PollEntry(s));
  }

  lemma SwitchKeepsOrder(layout: Layout, s: State, active: bool, signal: Sent)
    requires !signal.FromPoll?
    ensures PollSignals(Emitted(s.(active := active), signal).trace) == PollSignals(s.trace)
  {
    assert (s.trace + [signal])[..|s.trace|] == s.trace;
  }

  lemma EmissionAppends(s: State, poll: nat, signal: Signal)
    ensures PollSignals(Emitted(s, FromPoll(poll, signal)).trace) == PollSignals(s.trace) + [signal]
  {
    assert (s.trace + [FromPoll(poll, signal)])[..|s.trace|] == s.trace;
  }

  lemma NoteOwesNothing(layout: Layout, h: Timeline, e: Entry)
    requires !e.PolledOnce? && !e.Refused?
    ensures AllBatches(layout, h + [e]) == AllBatches(layout, h)
  {
    NoteSplits(h, e);
  }

  /** An act without signals changes neither what was emitted nor what is owed. */
  lemma NoteKeepsBalance(layout: Layout, s: State, a: Act, missing: multiset<Signal>)
    requires Balanced(layout, s, missing) && !a.Start? && !a.Stop? && !a.Poll?
    ensures Balanced(layout, Do(layout, s, a), missing)
  {
    hide PollSignals, AllBatches, MaskUpTo;
    match a
    case SetFilter(f) => NoteOwesNothing(layout, s.history, Filtered(f));
    case ClearFilter => NoteOwesNothing(layout, s.history, Filtered(NO_FILTER));
    case SetMaxEvents(limit) => NoteOwesNothing(layout, s.history, Limited(limit));
    case Arrive(e) => NoteOwesNothing(layout, s.history, Arrived(e));
    case Inject(code) => NoteOwesNothing(layout, s.history, Injected(code));
  }

  lemma EmissionPaysOne(layout: Layout, s: State, poll: nat, signal: Signal, missing: multiset<Signal>)
    requires Balanced(layout, s, multiset{signal} + missing)
    ensures Balanced(layout, Emitted(s, FromPoll(poll, signal)), missing)
  {
    EmissionAppends(s, poll, signal);
  }

  lemma SwitchKeepsBalance(layout: Layout, s: State, active: bool, signal: Sent, missing: multiset<Signal>)
    requires Balanced(layout, s, missing) && !signal.FromPoll?
    ensures Balanced(layout, Emitted(s.(active := active), signal), missing)
  {
    SwitchKeepsOrder(layout, s, active, signal);
  }

  lemma {:induction false} DoBalances(layout: Layout, s: State, a: Act, missing: multiset<Signal>)
    requires layout.Valid() && InSync(layout, s) && Balanced(layout, s, missing)
    ensures Balanced(layout, Do(layout, s, a), missing)
    decreases a
  {
    hide InSync, Balanced, PollSignals, AllBatches, MaskUpTo, Polled, PollResult, Drained, SignalsOf, Owes;
    match a
    case Start(on) =>
      var t := if s.active then s else Emitted(s.(active := true), Started);
      SwitchKeepsBalance(layout, s, true, Started, missing);
      EmissionKeeps(layout, s, true, Started, 0);
      AllBalance(layout, t, on.acts, missing);
    case Stop(on) =>
      var t := if !s.active then s else Emitted(s.(active := false), Stopped);
      SwitchKeepsBalance(layout, s, false, Stopped, missing);
      EmissionKeeps(layout, s, false, Stopped, 0);
      AllBalance(layout, t, on.acts, missing);
    case Poll(each) =>
      PollOwesBatch(layout, s);
      PollAddsItsBatch(layout, s, missing);
      DrainKeeps(layout, s);
      EmitBalances(layout, Drained(layout, s), |s.history|, SignalsOf(PollResult(layout, s)), each, missing);
    case _ => NoteKeepsBalance(layout, s, a, missing);
  }

  lemma {:induction false} AllBalance(layout: Layout, s: State, acts: seq<Act>, missing: multiset<Signal>)
    requires layout.Valid() && InSync(layout, s) && Balanced(layout, s, missing)
    ensures Balanced(layout, DoAll(layout, s, acts), missing)
    decreases acts
  {
    hide InSync, Balanced, Do;
    if acts != [] {
      DoSyncs(layout, s, acts[0]);
      DoBalances(layout, s, acts[0], missing);
      AllBalance(layout, Do(layout, s, acts[0]), acts[1..], missing);
    }
  }

  lemma {:induction false} EmitBalances(layout: Layout, s: State, poll: nat, signals: seq<Signal>,
                                        handlers: seq<Handler>, missing: multiset<Signal>)
    requires layout.Valid() && InSync(layout, s) && Balanced(layout, s, missing + multiset(signals))
    ensures Balanced(layout, EmitAll(layout, s, poll, signals, handlers), missing)
    decreases handlers, |signals|
  {
    hide InSync, Balanced, DoAll;
    if signals == [] {
      assert missing + multiset(signals) == missing;
    } else {
      var heard, rest := Emitted(s, FromPoll(poll, signals[0])), missing + multiset(signals[1..]);
      assert signals == [signals[0]] + signals[1..];
      assert missing + multiset(signals) == multiset{signals[0]} + rest;
      EmissionPaysOne(layout, s, poll, signals[0], rest);
      EmissionKeeps(layout, s, s.active, FromPoll(poll, signals[0]), 0);
      assert s.(active := s.active) == s;
      if handlers != [] {
        AllSync(layout, heard, handlers[0].acts);
        AllBalance(layout, heard, handlers[0].acts, rest);
      }
      EmitBalances(layout, EmitOne(layout, s, poll, signals[0], handlers), poll, signals[1..], Rest(handlers), missing);
    }
  }

  /** In every run, whatever the handlers do, the signals of the polls are those owed: none is missing,
      none is extra and none repeated. */
  lemma NothingLostOrInvented(layout: Layout, start: State, acts: seq<Act>)
    requires layout.Valid() && Initial(layout, start)
    ensures var s := DoAll(layout, start, acts);
            multiset(PollSignals(s.trace)) == multiset(AllBatches(layout, s.history))
  {
    var none: multiset<Signal> := multiset{};
    StartsInSync(layout, start);
    PastOwesNothing(layout, start.history);
    assert PollSignals(start.trace) == [];
    assert multiset(PollSignals(start.trace)) + none == multiset(AllBatches(layout, start.history));
    hide DoAll, InSync, PollSignals, AllBatches;
    AllBalance(layout, start, acts, none);
  }

  lemma {:induction false} PastOwesNothing(layout: Layout, h: Timeline)
    requires forall e | e in h :: !e.PolledOnce? && !e.Refused?
    ensures AllBatches(layout, h) == []
  {
    if h != [] {
      assert Last(h) in h && forall e | e in Before(h) :: e in h;
      PastOwesNothing(layout, Before(h));
    }
  }

  /* ----- One poll ----- */

  function Tag(poll: nat, signals: seq<Signal>): seq<Sent> {
    seq(|signals|, i requires 0 <= i < |signals| => FromPoll(poll, signals[i]))
  }

  lemma {:induction false} EmitUnheard(layout: Layout, s: State, poll: nat, signals: seq<Signal>)
    ensures EmitAll(layout, s, poll, signals, []) == s.(trace := s.trace + Tag(poll, signals))
    decreases |signals|
  {
    if signals == [] {
      assert s.trace + Tag(poll, signals) == s.trace;
    } else {
      EmitUnheard(layout, Emitted(s, FromPoll(poll, signals[0])), poll, signals[1..]);
      assert s.trace + Tag(poll, signals) == s.trace + [FromPoll(poll, signals[0])] + Tag(poll, signals[1..]);
    }
  }

  /** A poll nobody reacts to emits its batch in one go and touches neither timer, limit nor filter; if the
      native call failed it emits that one error and keeps the queue, and otherwise it empties it; without
      device state it emits that error and leaves the native side alone. */
  lemma OnePoll(layout: Layout, s: State)
    requires layout.Valid() && InSync(layout, s)
    ensures var t, batch := Do(layout, s, Poll([])), Owes(layout, s.history, PollEntry(s));
            && t.trace == s.trace + Tag(|s.history|, batch)
            && t.active == s.active && t.maxEvents == s.maxEvents && t.source.mask == s.source.mask
            && (s.attached && s.source.nextError != 0 ==>
                  batch == [ErrorOccurred(Native(s.source.nextError))] && t.source.queue == s.source.queue)
            && (s.attached && s.source.nextError == 0 ==> t.source.queue == [])
            && (!s.attached ==> batch == [ErrorOccurred(NoState)] && t.source == s.source)
  {
    PollOwesBatch(layout, s);
    EmitUnheard(layout, Drained(layout, s), |s.history|, SignalsOf(PollResult(layout, s)));
  }
}
