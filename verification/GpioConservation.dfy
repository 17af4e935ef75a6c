/** Which events a history loses, and when it loses none. */
module GpioConservation {
  import opened GpioEvents
  import opened GpioPolling
  import opened GpioTimeline

  /* ----- What one poll leaves for later ----- */

  /** Histories after which every poll delivers the same. */
  predicate Alike(t: Timeline, q: Timeline) {
    && CurrentFilter(t) == CurrentFilter(q) && CurrentLimit(t) == CurrentLimit(q)
    && PendingError(t) == PendingError(q) && Pending(t) == Pending(q)
  }

  lemma AlikeForever(t: Timeline, q: Timeline, u: Timeline)
    requires Alike(t, q)
    ensures Alike(t + u, q + u)
  {
    hide CurrentFilter, CurrentLimit, PendingError, Pending;
    if u == [] {
      assert t + u == t && q + u == q;
    } else {
      AlikeForever(t, q, Before(u));
      assert t + u == t + Before(u) + [Last(u)] && q + u == q + Before(u) + [Last(u)];
      NoteMeans(t + Before(u), Last(u));
      NoteMeans(q + Before(u), Last(u));
    }
  }

  /** A poll that reports a native error is as if the error had never been there: whatever happens from
      then on, every later poll finds and delivers the same. */
  lemma NativeErrorLosesNothing(layout: Layout, t: Timeline, u: Timeline)
    requires PendingError(t) != 0
    ensures Delivery(layout, t) == Failure(Native(PendingError(t)))
    ensures Pending(t + [PolledOnce] + u) == Pending(t + [Injected(0)] + u)
    ensures Delivery(layout, t + [PolledOnce] + u) == Delivery(layout, t + [Injected(0)] + u)
  {
    hide CurrentFilter, CurrentLimit, PendingError, Pending;
    NoteMeans(t, PolledOnce);
    NoteMeans(t, Injected(0));
    AlikeForever(t + [PolledOnce], t + [Injected(0)], u);
  }

  /** What a poll that reached the queue leaves behind depends on nothing that arrived before it. */
  lemma {:induction false} QueueStartsAfresh(t: Timeline, u: Timeline)
    requires PendingError(t) == 0
    ensures PendingError(t + [PolledOnce] + u) == PendingError(u)
    ensures Pending(t + [PolledOnce] + u) == Pending(u)
  {
    hide CurrentFilter, CurrentLimit;
    NoteMeans(t, PolledOnce);
    if u == [] {
      assert t + [PolledOnce] + u == t + [PolledOnce];
    } else {
      QueueStartsAfresh(t, Before(u));
      assert t + [PolledOnce] + u == t + [PolledOnce] + Before(u) + [Last(u)];
      assert u == Before(u) + [Last(u)];
      hide PendingError, Pending;
      NoteMeans(t + [PolledOnce] + Before(u), Last(u));
      NoteMeans(Before(u), Last(u));
    }
  }

  lemma {:induction false} PendingHaveArrived(t: Timeline)
    ensures forall e | e in Pending(t) :: Arrived(e) in t
  {
    if t != [] {
      PendingHaveArrived(Before(t));
      assert t == Before(t) + [Last(t)];
    }
  }

  /** After a protocol error the events drained with it are gone: whatever happens from then on, every
      event delivered later is one that arrived later. */
  lemma ProtocolErrorLosesAll(layout: Layout, t: Timeline, u: Timeline)
    requires Delivery(layout, t) == Failure(Protocol)
    ensures Pending(t + [PolledOnce] + u) == Pending(u)
    ensures var later := Delivery(layout, t + [PolledOnce] + u);
            later.Success? ==>
              forall g | g in later.value :: exists e :: Arrived(e) in u && Proper(e) && g == Typed(e)
  {
    assert PendingError(t) == 0;
    var h := t + [PolledOnce] + u;
    QueueStartsAfresh(t, u);
    PendingHaveArrived(u);
    var asked := Asked(layout, CurrentFilter(h), Pending(h));
    AskedAreAmong(layout, CurrentFilter(h), Pending(h));
    var taken := Take(asked, Min(CurrentLimit(h), MAX_EVENTS_PER_POLL));
    var later := Delivery(layout, h);
    if later.Success? {
      assert later == Translate(taken);
      TranslateIsTotal(taken);
      forall g | g in later.value
        ensures exists e :: Arrived(e) in u && Proper(e) && g == Typed(e)
      {
        var i :| 0 <= i < |later.value| && later.value[i] == g;
        assert taken[i] in asked && g == Typed(taken[i]);
        assert Arrived(taken[i]) in u;
      }
    }
  }

  /** A poll keeps what was pending, for every continuation, iff it reports a native error or nothing was
      pending. */
  lemma PendingIsKeptIff(t: Timeline)
    ensures (forall u: Timeline :: Pending(t + [PolledOnce] + u) == Pending(t + [Injected(0)] + u))
            <==> PendingError(t) != 0 || Pending(t) == []
  {
    hide CurrentFilter, CurrentLimit, PendingError, Pending;
    NoteMeans(t, PolledOnce);
    NoteMeans(t, Injected(0));
    if PendingError(t) != 0 || Pending(t) == [] {
      forall u: Timeline ensures Pending(t + [PolledOnce] + u) == Pending(t + [Injected(0)] + u) {
        AlikeForever(t + [PolledOnce], t + [Injected(0)], u);
      }
    } else {
      var none: Timeline := [];
      assert t + [PolledOnce] + none == t + [PolledOnce] && t + [Injected(0)] + none == t + [Injected(0)];
      assert Pending(t + [PolledOnce] + none) != Pending(t + [Injected(0)] + none);
    }
  }

  /* ----- What is due and what is delivered ----- */

  /** The events that a poll at this point of the history should deliver: all that the filter then in
      force asks for, of those queued, if the poll reaches the queue. */
  function DueAt(layout: Layout, t: Timeline): seq<NativeEvent> {
    if PendingError(t) != 0 then [] else Asked(layout, CurrentFilter(t), Pending(t))
  }

  function Due(layout: Layout, t: Timeline): seq<NativeEvent> {
    if t == [] then []
    else Due(layout, Before(t)) + if Last(t).PolledOnce? then DueAt(layout, Before(t)) else []
  }

  /** Every poll has room for all that is due at it. */
  predicate Roomy(layout: Layout, t: Timeline) {
    t == []
    || (Roomy(layout, Before(t))
        && (Last(t).PolledOnce? ==>
              |DueAt(layout, Before(t))| <= Min(CurrentLimit(Before(t)), MAX_EVENTS_PER_POLL)))
  }

  predicate AllProper(events: seq<NativeEvent>) {
    forall i | 0 <= i < |events| :: Proper(events[i])
  }

  function TypedAll(events: seq<NativeEvent>): (typed: seq<GpioEvent>)
    requires AllProper(events)
    ensures |typed| == |events|
  {
    seq(|events|, i requires 0 <= i < |events| => Typed(events[i]))
  }

  lemma {:induction false} AskedAreAmong(layout: Layout, f: Filter, events: seq<NativeEvent>)
    ensures forall e | e in Asked(layout, f, events) :: e in events
  {
    hide Asks;
    if events != [] {
      AskedAreAmong(layout, f, events[..|events| - 1]);
    }
  }

  /** What one poll delivers of what is due at it. */
  lemma DeliveredAt(layout: Layout, t: Timeline)
    ensures var due, r := DueAt(layout, t), Delivery(layout, t);
            var got := if r.Success? then r.value else [];
            && |got| <= |due|
            && (|got| == |due| <==> |due| <= Min(CurrentLimit(t), MAX_EVENTS_PER_POLL) && AllProper(due))
            && (|got| == |due| ==> AllProper(due) && got == TypedAll(due))
  {
    hide Asked, Translate;
    if PendingError(t) == 0 {
      var due := DueAt(layout, t);
      var taken := Take(due, Min(CurrentLimit(t), MAX_EVENTS_PER_POLL));
      assert taken == due[..|taken|];
      TranslateIsTotal(taken);
      if |taken| == |due| {
        assert taken == due;
        if AllProper(due) { TranslateAll(due, TypedAll(due)); }
      }
    }
  }

  /** In every history no more is delivered than is due; it is as much iff every poll had room for what was
      due at it and all that was due can be translated, and then it is exactly that, in order.  Filter and
      limit may change at will, and failed polls make no difference. */
  lemma {:induction false} NothingLostIff(layout: Layout, t: Timeline)
    ensures |Delivered(layout, t)| <= |Due(layout, t)|
    ensures |Delivered(layout, t)| == |Due(layout, t)| <==> Roomy(layout, t) && AllProper(Due(layout, t))
    ensures |Delivered(layout, t)| == |Due(layout, t)| ==> Delivered(layout, t) == TypedAll(Due(layout, t))
  {
    hide Delivery, DueAt;
    if t != [] {
      var before, due := Due(layout, Before(t)), DueAt(layout, Before(t));
      NothingLostIff(layout, Before(t));
      if Last(t).PolledOnce? {
        DeliveredAt(layout, Before(t));
        ProperConcat(before, due);
      } else {
        assert Due(layout, t) == before && Delivered(layout, t) == Delivered(layout, Before(t));
      }
    }
  }

  lemma ProperConcat(a: seq<NativeEvent>, b: seq<NativeEvent>)
    ensures AllProper(a + b) <==> AllProper(a) && AllProper(b)
    ensures AllProper(a + b) ==> TypedAll(a + b) == TypedAll(a) + TypedAll(b)
  {
    assert forall i | 0 <= i < |a| :: (a + b)[i] == a[i];
    assert forall i | 0 <= i < |b| :: (a + b)[|a| + i] == b[i];
  }

  /* ----- Every arrival is judged once ----- */

  /** All events that ever arrived. */
  function Arrivals(t: Timeline): seq<NativeEvent> {
    if t == [] then []
    else Arrivals(Before(t)) + if Last(t).Arrived? then [Last(t).event] else []
  }

  /** The events drained by the polls that reached the queue. */
  function Judged(t: Timeline): seq<NativeEvent> {
    if t == [] then []
    else
      Judged(Before(t)) + if Last(t).PolledOnce? && PendingError(Before(t)) == 0 then Pending(Before(t)) else []
  }

  /** In every history each arrival is drained by exactly one poll that reached the queue, in order of
      arrival, or is still pending. */
  lemma {:induction false} ArrivalsAreJudgedOnce(t: Timeline)
    ensures Judged(t) + Pending(t) == Arrivals(t)
  {
    if t != [] {
      ArrivalsAreJudgedOnce(Before(t));
    }
  }

  /* ----- The case of one filter ----- */

  /** Every poll sees this filter. */
  predicate OneFilter(f: Filter, t: Timeline) {
    t == [] || (OneFilter(f, Before(t)) && (Last(t).PolledOnce? ==> CurrentFilter(Before(t)) == f))
  }

  lemma {:induction false} DueUnderOneFilter(layout: Layout, f: Filter, t: Timeline)
    requires OneFilter(f, t)
    ensures Due(layout, t) + Asked(layout, f, Pending(t)) == Asked(layout, f, Arrivals(t))
  {
    hide Asks;
    if t != [] {
      DueUnderOneFilter(layout, f, Before(t));
      if Last(t).Arrived? {
        var all, rest, e := Arrivals(Before(t)), Pending(Before(t)), Last(t).event;
        assert (all + [e])[..|all|] == all && (rest + [e])[..|rest|] == rest;
      } else {
        assert Arrivals(t) == Arrivals(Before(t));
      }
    }
  }

  /** Then, and with events that can be translated, the delivered events and those still pending are all
      the events asked for, iff every poll had room. */
  lemma NothingLostIffRoomy(layout: Layout, f: Filter, t: Timeline)
    requires OneFilter(f, t) && AllProper(Arrivals(t))
    ensures var all, rest := Translate(Asked(layout, f, Arrivals(t))), Translate(Asked(layout, f, Pending(t)));
            && all.Success? && rest.Success?
            && (all.value == Delivered(layout, t) + rest.value <==> Roomy(layout, t))
  {
    hide Asked, Due, Delivered, Translate, Roomy, OneFilter;
    var due, rest := Due(layout, t), Asked(layout, f, Pending(t));
    AskedAreAmong(layout, f, Arrivals(t));
    DueUnderOneFilter(layout, f, t);
    assert forall i | 0 <= i < |due + rest| :: (due + rest)[i] in Arrivals(t);
    ProperConcat(due, rest);
    TranslateAll(due + rest, TypedAll(due + rest));
    TranslateAll(rest, TypedAll(rest));
    NothingLostIff(layout, t);
  }
}
