/** The native event queue and the poller adapter over it. */
module GpioPolling {
  import opened GpioEvents

  const MAX_EVENTS_PER_POLL := 4

  /** Errors as the adapter throws them. */
  datatype PollError = NoState | Native(code: int) | Protocol

  datatype Result<+T> = Success(value: T) | Failure(error: PollError)

  /** The events that the native filter lets through, in order. */
  function Accepted(layout: Layout, mask: bv16, events: seq<NativeEvent>): seq<NativeEvent> {
    if |events| == 0 then []
    else
      var before := Accepted(layout, mask, events[..|events| - 1]);
      var last := events[|events| - 1];
      if Accepts(layout, mask, last) then before + [last] else before
  }

  function Take<T>(s: seq<T>, n: nat): (prefix: seq<T>)
    ensures |prefix| <= n
  {
    if |s| <= n then s else s[..n]
  }

  function Min(a: nat, b: nat): nat {
    if a < b then a else b
  }

  function ToPin(gpio: nat): Result<Pin> {
    match gpio
    case 0 => Success(GP0)
    case 1 => Success(GP1)
    case 2 => Success(GP2)
    case 3 => Success(GP3)
    case _ => Failure(Protocol)
  }

  function ToEdge(kind: NativeKind): Result<Edge> {
    match kind
    case Rise => Success(Rising)
    case Fall => Success(Falling)
    case Unknown(_) => Failure(Protocol)
  }

  /** An event that the adapter can translate. */
  predicate Proper(e: NativeEvent) {
    e.gpio < 4 && !e.kind.Unknown?
  }

  function Typed(e: NativeEvent): GpioEvent
    requires Proper(e)
  {
    GpioEvent(ToPin(e.gpio).value, ToEdge(e.kind).value, e.time, e.lastTime)
  }

  /** All of a batch, or the protocol error of its first bad event. */
  function Translate(events: seq<NativeEvent>): Result<seq<GpioEvent>> {
    if forall e | e in events :: Proper(e)
    then Success(seq(|events|, i requires 0 <= i < |events| && Proper(events[i]) => Typed(events[i])))
    else Failure(Protocol)
  }

  /** What a poll works on: the filter mask of the poller, the native queue, and the error that the
      next native call will report (0 for none, errors being negative). */
  datatype Source = Source(mask: bv16, queue: seq<NativeEvent>, nextError: int)

  /** A poll that would return up to `limit` events. */
  function Uncapped(layout: Layout, s: Source, limit: nat): (Source, Result<seq<GpioEvent>>) {
    if s.nextError != 0 then (s.(nextError := 0), Failure(Native(s.nextError)))
    else (s.(queue := []), Translate(Take(Accepted(layout, s.mask, s.queue), limit)))
  }

  /** The poll of the adapter. */
  function Polled(layout: Layout, s: Source, maxEvents: nat): (Source, Result<seq<GpioEvent>>) {
    Uncapped(layout, s, Min(maxEvents, MAX_EVENTS_PER_POLL))
  }

  /** What one turn of the native loop does to the events written so far. */
  lemma WriteNext(layout: Layout, mask: bv16, all: seq<NativeEvent>, done: nat, maxEvents: nat)
    requires done < |all|
    ensures var written := Take(Accepted(layout, mask, all[..done]), maxEvents);
            Take(Accepted(layout, mask, all[..done + 1]), maxEvents)
            == if Accepts(layout, mask, all[done]) && |written| < maxEvents then written + [all[done]] else written
  {
    hide Accepts;
    assert all[..done + 1][..done] == all[..done];
    var before := Accepted(layout, mask, all[..done]);
    if Accepts(layout, mask, all[done]) && |before| >= maxEvents {
      assert (before + [all[done]])[..maxEvents] == before[..maxEvents];
    }
  }

  lemma NothingWritten(layout: Layout, mask: bv16, all: seq<NativeEvent>, maxEvents: nat)
    ensures Take(Accepted(layout, mask, all[..0]), maxEvents) == []
  {
  }

  lemma WriteSlot<T>(written: seq<T>, slots: seq<T>, x: T)
    requires |written| < |slots|
    ensures (written + slots[|written|..])[|written| := x] == (written + [x]) + slots[|written + [x]|..]
  {
  }

  lemma TranslateAll(events: seq<NativeEvent>, typed: seq<GpioEvent>)
    requires |typed| == |events|
    requires forall j | 0 <= j < |events| :: Proper(events[j]) && typed[j] == Typed(events[j])
    ensures Translate(events) == Success(typed)
  {
    assert forall e | e in events :: Proper(e);
    assert Translate(events).value == typed;
  }

  lemma TranslateBad(events: seq<NativeEvent>, i: nat)
    requires i < |events| && !Proper(events[i])
    ensures Translate(events) == Failure(Protocol)
  {
    assert events[i] in events;
  }

  /** The native side: a queue that every poll drains. */
  class NativeGpio {
    var queue: seq<NativeEvent>
    var nextError: int

    constructor ()
      ensures queue == [] && nextError == 0
    {
      queue, nextError := [], 0;
    }

    method QueueEvent(e: NativeEvent)
      modifies `queue
      ensures queue == old(queue) + [e]
    {
      queue := queue + [e];
    }

    method FailNext(code: int)
      modifies `nextError
      ensures nextError == code
    {
      nextError := code;
    }

    method ConsumeError() returns (error: int)
      modifies `nextError
      ensures error == old(nextError) && nextError == 0
    {
      error := nextError;
      nextError := 0;
    }

    /** `mcp2221_gpio_poll_events`.  At most `maxEvents` events are written, and none without a buffer. */
    method PollEvents(layout: Layout, mask: bv16, outEvents: array?<NativeEvent>, maxEvents: nat) returns (result: int)
      requires outEvents != null ==> maxEvents <= outEvents.Length
      modifies this, outEvents
      ensures nextError == 0
      ensures old(nextError) != 0 ==>
                && result == old(nextError) && queue == old(queue)
                && (outEvents != null ==> outEvents[..] == old(outEvents[..]))
      ensures old(nextError) == 0 ==>
                var taken := Take(Accepted(layout, mask, old(queue)), maxEvents);
                && queue == [] && result == |taken|
                && (outEvents != null ==> outEvents[..] == taken + old(outEvents[..])[|taken|..])
    {
      hide Accepts, Take, Accepted;
      var error := ConsumeError();
      if error != 0 {
        return error;
      }
      ghost var all, slots := queue, if outEvents != null then outEvents[..] else [];
      ghost var written: seq<NativeEvent> := [];
      NothingWritten(layout, mask, all, maxEvents);
      ghost var done := 0;
      var count := 0;
      while |queue| > 0
        invariant done <= |all| && queue == all[done..] && nextError == 0
        invariant written == Take(Accepted(layout, mask, all[..done]), maxEvents) && count == |written|
        invariant outEvents != null ==> outEvents[..] == written + slots[count..]
        decreases |queue|
      {
        var event := queue[0];
        queue := queue[1..];
        WriteNext(layout, mask, all, done, maxEvents);
        done := done + 1;
        if !Accepts(layout, mask, event) || count >= maxEvents {
          continue;
        }
        if outEvents != null {
          WriteSlot(written, slots, event);
          outEvents[count] := event;
        }
        written, count := written + [event], count + 1;
      }
      assert all[..done] == all;
      return count;
    }
  }

  class GpioPoller {
    const layout: Layout
    const native: NativeGpio
    /** Whether the poller has device state: false once it was moved from. */
    var attached: bool
    var mask: bv16
    /** The filter that the mask stands for. */
    ghost var filter: Filter

    ghost predicate Valid()
      reads this
    {
      mask == MaskUpTo(layout, filter, 4)
    }

    constructor (layout: Layout, native: NativeGpio)
      ensures this.layout == layout && this.native == native && attached && mask == 0
      ensures Valid() && filter == NO_FILTER
    {
      EmptyMask(layout);
      this.layout, this.native, attached, mask, filter := layout, native, true, 0, NO_FILTER;
    }

    function View(): Source
      reads this, native
    {
      Source(mask, native.queue, native.nextError)
    }

    method SetFilter(f: Filter) returns (ok: bool)
      modifies this
      ensures ok == old(attached) && attached == old(attached)
      ensures mask == if ok then MaskUpTo(layout, f, 4) else old(mask)
      ensures filter == if ok then f else old(filter)
    {
      if !attached {
        return false;
      }
      mask := BuildMask(layout, f);
      filter := f;
      return true;
    }

    method ClearFilter() returns (ok: bool)
      modifies this
      ensures ok == old(attached) && attached == old(attached)
      ensures mask == if ok then MaskUpTo(layout, NO_FILTER, 4) else old(mask)
      ensures filter == if ok then NO_FILTER else old(filter)
    {
      ok := SetFilter(NO_FILTER);
    }

    method PollEvents(maxEvents: nat) returns (r: Result<seq<GpioEvent>>)
      requires native.nextError <= 0
      modifies native
      ensures if attached then (View(), r) == Polled(layout, old(View()), maxEvents)
              else View() == old(View()) && r == Failure(NoState)
    {
      if !attached {
        return Failure(NoState);
      }
      var capacity := if maxEvents < MAX_EVENTS_PER_POLL then maxEvents else MAX_EVENTS_PER_POLL;
      var slots := new NativeEvent[MAX_EVENTS_PER_POLL];
      var buffer: array?<NativeEvent> := if capacity == 0 then null else slots;
      var count := native.PollEvents(layout, mask, buffer, capacity);
      if count < 0 {
        return Failure(Native(count));
      }
      hide Accepts, Take, Accepted, Translate;
      ghost var taken := Take(Accepted(layout, mask, old(native.queue)), capacity);
      if count > capacity {
        assert false; // the native side keeps to its buffer
      }
      assert count > 0 ==> buffer == slots && taken <= slots[..];
      var result := [];
      for i := 0 to count
        modifies {}
        invariant |result| == i
        invariant forall j | 0 <= j < i :: Proper(taken[j]) && result[j] == Typed(taken[j])
      {
        assert slots[..][i] == taken[i];
        if !Proper(taken[i]) {
          TranslateBad(taken, i);
        }
        var pin := ToPin(slots[i].gpio);
        if pin.Failure? {
          return Failure(pin.error);
        }
        var edge := ToEdge(slots[i].kind);
        if edge.Failure? {
          return Failure(edge.error);
        }
        result := result + [GpioEvent(pin.value, edge.value, slots[i].time, slots[i].lastTime)];
      }
      TranslateAll(taken, result);
      return Success(result);
    }
  }

  /** Acceptance goes event by event, in order, by the native test. */
  lemma {:induction false} AcceptedIsFilter(layout: Layout, mask: bv16, a: seq<NativeEvent>, b: seq<NativeEvent>)
    ensures Accepted(layout, mask, a + b) == Accepted(layout, mask, a) + Accepted(layout, mask, b)
    ensures forall e ::
              Accepted(layout, mask, [e])
              == if mask == 0 || mask & (if e.kind.Rise? then layout.rise(e.gpio) else layout.fall(e.gpio)) != 0
                 then [e] else []
  {
    forall e: NativeEvent
      ensures Accepted(layout, mask, [e])
              == if mask == 0 || mask & (if e.kind.Rise? then layout.rise(e.gpio) else layout.fall(e.gpio)) != 0
                 then [e] else []
    {
      assert [e][..0] == [];
    }
    AcceptedConcat(layout, mask, a, b);
  }

  lemma {:induction false} AcceptedConcat(layout: Layout, mask: bv16, a: seq<NativeEvent>, b: seq<NativeEvent>)
    ensures Accepted(layout, mask, a + b) == Accepted(layout, mask, a) + Accepted(layout, mask, b)
  {
    hide Accepts;
    if b == [] {
      assert a + b == a;
    } else {
      AcceptedConcat(layout, mask, a, b[..|b| - 1]);
      assert (a + b)[..|a + b| - 1] == a + b[..|b| - 1];
    }
  }

  /** What a poll reads from the queue: nothing after a native error, and otherwise the first accepted events,
      as many as there are, as the limit says, and at most four. */
  lemma PollTakesFirst(layout: Layout, s: Source, maxEvents: nat)
    ensures s.nextError != 0 ==>
              Polled(layout, s, maxEvents) == (Source(s.mask, s.queue, 0), Failure(Native(s.nextError)))
    ensures s.nextError == 0 ==>
              var accepted := Accepted(layout, s.mask, s.queue);
              && Polled(layout, s, maxEvents).0 == Source(s.mask, [], 0)
              && (maxEvents <= 4 && maxEvents <= |accepted| ==>
                    Polled(layout, s, maxEvents).1 == Translate(accepted[..maxEvents]))
              && (4 <= maxEvents && 4 <= |accepted| ==> Polled(layout, s, maxEvents).1 == Translate(accepted[..4]))
              && (|accepted| <= 4 && |accepted| <= maxEvents ==>
                    Polled(layout, s, maxEvents).1 == Translate(accepted))
  {
    hide Accepted, Translate;
    var accepted := Accepted(layout, s.mask, s.queue);
    assert accepted[..|accepted|] == accepted;
  }

  lemma TranslateIsTotal(events: seq<NativeEvent>)
    ensures Translate(events).Success? <==> forall i | 0 <= i < |events| :: Proper(events[i])
    ensures Translate(events).Success? ==> |Translate(events).value| == |events|
    ensures Translate(events).Failure? ==> Translate(events) == Failure(Protocol)
  {
    assert forall i | 0 <= i < |events| :: events[i] in events;
  }

  /** The cap of four events cannot be told from a poll that honours the whole limit iff the native call
      failed, or the limit or the number of accepted events is at most four, or one of the first four
      accepted events cannot be translated, so that both fail. */
  lemma CapIsLossless(layout: Layout, s: Source, maxEvents: nat)
    ensures var accepted := Accepted(layout, s.mask, s.queue);
            Polled(layout, s, maxEvents) == Uncapped(layout, s, maxEvents)
            <==> || s.nextError != 0 || maxEvents <= 4 || |accepted| <= 4
                 || exists i | 0 <= i < 4 :: accepted[i].gpio >= 4 || accepted[i].kind.Unknown?
  {
    hide Accepted, Translate;
    var accepted := Accepted(layout, s.mask, s.queue);
    if s.nextError == 0 && 4 < maxEvents && 4 < |accepted| {
      var four, more := Take(accepted, 4), Take(accepted, maxEvents);
      assert |four| == 4 < |more|;
      assert forall i | 0 <= i < 4 :: four[i] == accepted[i] == more[i];
      assert forall i | 0 <= i < 4 :: Proper(accepted[i]) <==> !(accepted[i].gpio >= 4 || accepted[i].kind.Unknown?);
      TranslateIsTotal(four);
      TranslateIsTotal(more);
    }
  }

  /** Five sound events and a limit of five: the fifth is lost to the cap. */
  lemma CapLosesTheFifth(layout: Layout, e: NativeEvent)
    requires Proper(e)
    ensures var s := Source(0, [e, e, e, e, e], 0);
            && Polled(layout, s, 5).1 == Success([Typed(e), Typed(e), Typed(e), Typed(e)])
            && Uncapped(layout, s, 5).1 == Success([Typed(e), Typed(e), Typed(e), Typed(e), Typed(e)])
  {
    hide Accepted, Translate;
    AcceptedByZero(layout, [e, e, e, e, e]);
    assert [e, e, e, e, e][..4] == [e, e, e, e];
    TranslateAll([e, e, e, e], [Typed(e), Typed(e), Typed(e), Typed(e)]);
    TranslateAll([e, e, e, e, e], [Typed(e), Typed(e), Typed(e), Typed(e), Typed(e)]);
  }

  /** A poll keeps the queue iff the native call failed or there was nothing to drain, whatever the
      limit is; and it reports an error iff the native call failed or a drained event that it had room
      for cannot be translated. */
  lemma PollOutcome(layout: Layout, s: Source, maxEvents: nat)
    ensures var (after, result) := Polled(layout, s, maxEvents);
            && (after.queue == s.queue <==> s.nextError != 0 || s.queue == [])
            && (after.queue == s.queue || after.queue == [])
            && after.mask == s.mask && after.nextError == 0
            && (result.Failure? <==>
                s.nextError != 0
                || exists i | 0 <= i < Min(Min(maxEvents, MAX_EVENTS_PER_POLL), |Accepted(layout, s.mask, s.queue)|) ::
                     !Proper(Accepted(layout, s.mask, s.queue)[i]))
  {
    var accepted := Accepted(layout, s.mask, s.queue);
    var limit := Min(maxEvents, MAX_EVENTS_PER_POLL);
    var taken := Take(accepted, limit);
    assert |taken| == Min(limit, |accepted|);
    assert forall i | 0 <= i < |taken| :: taken[i] == accepted[i] && taken[i] in taken;
  }

  /** A poll can lose a sound event: the second one here is lost with the first. */
  lemma SoundEventLost(layout: Layout, time: Timestamp)
    ensures var bad, good := NativeEvent(0, Unknown(7), time, time), NativeEvent(1, Rise, time, time);
            && Polled(layout, Source(0, [good], 0), MAX_EVENTS_PER_POLL).1 == Success([Typed(good)])
            && Polled(layout, Source(0, [bad, good], 0), MAX_EVENTS_PER_POLL).1 == Failure(Protocol)
  {
    var bad, good := NativeEvent(0, Unknown(7), time, time), NativeEvent(1, Rise, time, time);
    AcceptedByZero(layout, [good]);
    AcceptedByZero(layout, [bad, good]);
    TranslateAll([good], [Typed(good)]);
    TranslateBad([bad, good], 0);
  }

  lemma {:induction false} AcceptedByZero(layout: Layout, events: seq<NativeEvent>)
    ensures Accepted(layout, 0, events) == events
  {
    if |events| > 0 {
      AcceptedByZero(layout, events[..|events| - 1]);
    }
  }
}
