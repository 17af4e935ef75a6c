/** The mutex of a device makes the sections on its handle atomic. */
module SharingLocks {
  import opened LockedSections
  import opened SmartPointers
  import opened DeviceSharing

  function Sections(log: seq<Entry>): (r: seq<Section>)
    ensures |r| == |log| && forall i | 0 <= i < |log| :: r[i] == log[i].section
  {
    seq(|log|, i requires 0 <= i < |log| => log[i].section)
  }

  ghost predicate AllDone(log: seq<Entry>) {
    forall i | 0 <= i < |log| :: log[i].progress.Done?
  }

  function Outcomes(log: seq<Entry>): (r: seq<Outcome>)
    requires AllDone(log)
    ensures |r| == |log| && forall i | 0 <= i < |log| :: r[i] == log[i].progress.outcome
  {
    seq(|log|, i requires 0 <= i < |log| => log[i].progress.outcome)
  }

  /** The finished sections `log`, replayed one after the other from `start`, end in `now` and give
      every caller the outcome it got. */
  ghost predicate Replays(start: Hardware, log: seq<Entry>, now: Hardware) {
    AllDone(log) && Replay(start, Sections(log)) == (now, Outcomes(log))
  }

  /** A log whose last section is still under way in a thread that has got as far as `exec`. */
  ghost predicate Midway(start: Hardware, log: seq<Entry>, now: Hardware, exec: Exec) {
    && |log| > 0 && log[|log| - 1].progress.Pending?
    && var earlier := log[..|log| - 1];
       && AllDone(earlier)
       && var before := Replay(start, Sections(earlier)).0;
          && Replays(start, earlier, before)
          && Complete(exec, now) == Atomic(log[|log| - 1].section, before)
  }

  /** A section is called, gets the mutex, and gives it back. */
  predicate Timely(e: Entry, clock: nat) {
    && e.invoked <= e.acquired < clock
    && (e.progress.Done? ==> e.acquired < e.progress.released < clock)
  }

  predicate Precedes(a: Entry, b: Entry) {
    a.progress.Done? && a.progress.released < b.acquired
  }

  /** Sections on one handle occupy disjoint stretches of time, in the order of the log. */
  ghost predicate Disjoint(log: seq<Entry>, clock: nat) {
    && (forall i | 0 <= i < |log| :: Timely(log[i], clock))
    && (forall i, j | 0 <= i < j < |log| :: Precedes(log[i], log[j]))
  }

  ghost predicate HolderOk(l: Locks, ps: seq<Phase>) {
    && (forall h | h in l.holder ::
          l.holder[h] < |ps| && ps[l.holder[h]].Holding? && ps[l.holder[h]].handle == h)
    && (forall t | 0 <= t < |ps| && ps[t].Holding? ::
          ps[t].handle in l.holder && l.holder[ps[t].handle] == t)
  }

  ghost predicate KeysOk(l: Locks, ps: seq<Phase>) {
    && l.first.Keys == l.history.Keys && l.hardware.Keys == l.history.Keys
    && l.holder.Keys <= l.history.Keys
    && forall t | 0 <= t < |ps| && (ps[t].Guarded? || ps[t].Doubled? || ps[t].Waiting? || ps[t].Holding?) ::
         ps[t].handle in l.history
  }

  ghost predicate LogOk(l: Locks, ps: seq<Phase>, h: nat)
    requires HolderOk(l, ps) && KeysOk(l, ps) && h in l.history
  {
    if h in l.holder
    then Midway(l.first[h], l.history[h], l.hardware[h], ps[l.holder[h]].exec)
    else Replays(l.first[h], l.history[h], l.hardware[h])
  }

  ghost predicate TimesOk(l: Locks, ps: seq<Phase>, clock: nat) {
    && (forall h | h in l.history :: Disjoint(l.history[h], clock))
    && (forall t | 0 <= t < |ps| && ps[t].Waiting? :: ps[t].invoked < clock)
  }

  ghost predicate LogsOk(l: Locks, ps: seq<Phase>)
    requires HolderOk(l, ps) && KeysOk(l, ps)
  {
    forall h | h in l.history :: LogOk(l, ps, h)
  }

  ghost predicate LocksOk(l: Locks, ps: seq<Phase>, clock: nat) {
    HolderOk(l, ps) && KeysOk(l, ps) && TimesOk(l, ps, clock) && LogsOk(l, ps)
  }

  /** Every handle ever opened has a mutex history. */
  ghost predicate Known(h: Heap, l: Locks) {
    forall r | r in h.closes && r.Dev? :: r.handle in l.history
  }

  ghost predicate Locked(s: State) {
    Known(s.heap, s.locks) && LocksOk(s.locks, s.threads, s.clock)
  }

  lemma InitialLocked(s: State)
    requires Initial(s)
    ensures Locked(s)
  {
  }

  /* ---------- how one log grows ---------- */

  lemma AcquireLog(start: Hardware, log: seq<Entry>, now: Hardware, entry: Entry)
    requires Replays(start, log, now) && entry.progress.Pending?
    ensures Midway(start, log + [entry], now, Running(entry.section.body, entry.section.start))
  {
    assert (log + [entry])[..|log|] == log;
  }

  lemma NativeLog(start: Hardware, log: seq<Entry>, now: Hardware, exec: Exec)
    requires Midway(start, log, now, exec) && !Finishing(exec)
    ensures var (now', exec') := Advance(exec, now); Midway(start, log, now', exec')
  {
  }

  lemma UnlockLog(start: Hardware, log: seq<Entry>, now: Hardware, exec: Exec, clock: nat)
    requires Midway(start, log, now, exec) && Finishing(exec)
    ensures var last := |log| - 1;
            Replays(start, log[last := log[last].(progress := Done(OutcomeOf(exec), clock))], now)
  {
    var last := |log| - 1;
    var earlier := log[..last];
    var log' := log[last := log[last].(progress := Done(OutcomeOf(exec), clock))];
    assert log' == earlier + [log'[last]];
    assert Sections(log') == Sections(earlier) + [log[last].section];
    assert Outcomes(log') == Outcomes(earlier) + [OutcomeOf(exec)];
    ReplayAppend(start, Sections(earlier), log[last].section);
  }

  /* ---------- every step ---------- */

  ghost predicate Involved(p: Phase) {
    p.Guarded? || p.Doubled? || p.Waiting? || p.Holding?
  }

  /** A step that leaves the locks alone. */
  lemma QuietHolder(l: Locks, ps: seq<Phase>, t: nat, p: Phase)
    requires HolderOk(l, ps) && KeysOk(l, ps) && t < |ps| && !ps[t].Holding? && !p.Holding?
    requires Involved(p) ==> p.handle in l.history
    ensures HolderOk(l, ps[t := p]) && KeysOk(l, ps[t := p])
  {
  }

  lemma QuietLogs(l: Locks, ps: seq<Phase>, t: nat, p: Phase)
    requires HolderOk(l, ps) && KeysOk(l, ps) && LogsOk(l, ps) && t < |ps| && !ps[t].Holding? && !p.Holding?
    requires HolderOk(l, ps[t := p]) && KeysOk(l, ps[t := p])
    ensures LogsOk(l, ps[t := p])
  {
    forall h | h in l.history ensures LogOk(l, ps[t := p], h) {
      assert LogOk(l, ps, h);
    }
  }

  lemma DisjointLater(log: seq<Entry>, clock: nat)
    requires Disjoint(log, clock)
    ensures Disjoint(log, clock + 1)
  {
    forall i | 0 <= i < |log| ensures Timely(log[i], clock + 1) {
      assert Timely(log[i], clock);
    }
  }

  lemma LaterDisjoint(l: Locks, clock: nat)
    requires forall h | h in l.history :: Disjoint(l.history[h], clock)
    ensures forall h | h in l.history :: Disjoint(l.history[h], clock + 1)
  {
    hide Disjoint;
    forall h | h in l.history ensures Disjoint(l.history[h], clock + 1) {
      DisjointLater(l.history[h], clock);
    }
  }

  lemma OpenLogs(l: Locks, ps: seq<Phase>, handle: nat, hardware: Hardware)
    requires HolderOk(l, ps) && KeysOk(l, ps) && LogsOk(l, ps) && handle !in l.hardware
    ensures var l' := WithHandle(l, handle, hardware); HolderOk(l', ps) && KeysOk(l', ps) && LogsOk(l', ps)
  {
    var l' := WithHandle(l, handle, hardware);
    forall h | h in l'.history ensures LogOk(l', ps, h) {
      if h != handle { assert LogOk(l, ps, h); }
    }
  }

  lemma WithLogHolder(l: Locks, ps: seq<Phase>, t: nat, p: Phase, holder: map<nat, nat>, now: Hardware, log: seq<Entry>)
    requires HolderOk(l, ps) && KeysOk(l, ps) && t < |ps| && Involved(ps[t])
    requires Involved(p) ==> p.handle == ps[t].handle
    requires var handle := ps[t].handle;
             && (ps[t].Holding? || handle !in l.holder)
             && holder == if p.Holding? then l.holder[handle := t] else l.holder - {handle}
    ensures var l' := WithLog(l, ps[t].handle, holder, now, log);
            HolderOk(l', ps[t := p]) && KeysOk(l', ps[t := p])
  {
  }

  lemma WithLogOther(l: Locks, ps: seq<Phase>, t: nat, p: Phase, l': Locks, h: nat)
    requires HolderOk(l, ps) && KeysOk(l, ps) && t < |ps| && Involved(ps[t]) && h in l.history && h != ps[t].handle
    requires HolderOk(l', ps[t := p]) && KeysOk(l', ps[t := p]) && h in l'.history && LogOk(l, ps, h)
    requires l'.first == l.first && l'.hardware[h] == l.hardware[h] && l'.history[h] == l.history[h]
    requires (h in l'.holder <==> h in l.holder) && (h in l.holder ==> l'.holder[h] == l.holder[h])
    ensures LogOk(l', ps[t := p], h)
  {
  }

  lemma WithLogLogs(l: Locks, ps: seq<Phase>, t: nat, p: Phase, holder: map<nat, nat>, now: Hardware, log: seq<Entry>)
    requires HolderOk(l, ps) && KeysOk(l, ps) && LogsOk(l, ps) && t < |ps| && Involved(ps[t])
    requires Involved(p) ==> p.handle == ps[t].handle
    requires var handle := ps[t].handle;
             && (ps[t].Holding? || handle !in l.holder)
             && holder == (if p.Holding? then l.holder[handle := t] else l.holder - {handle})
             && (if p.Holding? then Midway(l.first[handle], log, now, p.exec) else Replays(l.first[handle], log, now))
    ensures var l' := WithLog(l, ps[t].handle, holder, now, log);
            HolderOk(l', ps[t := p]) && KeysOk(l', ps[t := p]) && LogsOk(l', ps[t := p])
  {
    var l' := WithLog(l, ps[t].handle, holder, now, log);
    WithLogHolder(l, ps, t, p, holder, now, log);
    forall h | h in l'.history ensures LogOk(l', ps[t := p], h) {
      if h != ps[t].handle { WithLogOther(l, ps, t, p, l', h); }
    }
  }

  lemma WithLogTimes(l: Locks, ps: seq<Phase>, t: nat, p: Phase, handle: nat, holder: map<nat, nat>, now: Hardware,
                     log: seq<Entry>, clock: nat)
    requires TimesOk(l, ps, clock) && t < |ps| && !p.Waiting? && Disjoint(log, clock + 1)
    ensures TimesOk(WithLog(l, handle, holder, now, log), ps[t := p], clock + 1)
  {
    LaterDisjoint(l, clock);
  }

  lemma AcquireTimes(log: seq<Entry>, clock: nat, entry: Entry)
    requires Disjoint(log, clock) && AllDone(log) && entry.progress.Pending?
    requires entry.acquired == clock && entry.invoked <= clock
    ensures Disjoint(log + [entry], clock + 1)
  {
    var log' := log + [entry];
    DisjointLater(log, clock);
    assert Timely(entry, clock + 1);
    forall i, j | 0 <= i < j < |log'| ensures Precedes(log'[i], log'[j]) {
      assert Timely(log[i], clock) && log[i].progress.Done?;
      if j < |log| { assert Precedes(log[i], log[j]); }
    }
  }

  lemma UnlockTimes(log: seq<Entry>, clock: nat, outcome: Outcome)
    requires |log| > 0 && Disjoint(log, clock)
    ensures var last := |log| - 1;
            Disjoint(log[last := log[last].(progress := Done(outcome, clock))], clock + 1)
  {
    var last := |log| - 1;
    var log' := log[last := log[last].(progress := Done(outcome, clock))];
    DisjointLater(log, clock);
    assert Timely(log[last], clock);
    assert Timely(log'[last], clock + 1);
    forall i, j | 0 <= i < j < |log'| ensures Precedes(log'[i], log'[j]) {
      assert Precedes(log[i], log[j]);
    }
  }

  /* ---------- steps as events ---------- */

  lemma QuietOk(l: Locks, ps: seq<Phase>, t: nat, p: Phase, clock: nat)
    requires LocksOk(l, ps, clock) && t < |ps| && !ps[t].Holding? && !p.Holding?
    requires Involved(p) ==> p.handle in l.history
    requires p.Waiting? ==> p.invoked <= clock
    ensures LocksOk(l, ps[t := p], clock + 1)
  {
    QuietHolder(l, ps, t, p);
    QuietLogs(l, ps, t, p);
    LaterDisjoint(l, clock);
  }

  lemma OpenOk(l: Locks, ps: seq<Phase>, t: nat, handle: nat, hardware: Hardware, p: Phase, clock: nat)
    requires LocksOk(l, ps, clock) && t < |ps| && ps[t].Idle? && handle !in l.hardware
    requires p.Guarded? && p.handle == handle
    ensures LocksOk(WithHandle(l, handle, hardware), ps[t := p], clock + 1)
  {
    OpenLogs(l, ps, handle, hardware);
    var l' := WithHandle(l, handle, hardware);
    QuietHolder(l', ps, t, p);
    QuietLogs(l', ps, t, p);
    LaterDisjoint(l, clock);
  }

  lemma AcquireOk(l: Locks, ps: seq<Phase>, t: nat, clock: nat)
    requires LocksOk(l, ps, clock) && t < |ps| && ps[t].Waiting? && ps[t].handle !in l.holder
    ensures var p := ps[t];
            LocksOk(AcquiredBy(l, t, p, clock),
                    ps[t := Holding(p.handle, p.job, Running(p.section.body, p.section.start))], clock + 1)
  {
    var p := ps[t];
    var entry := Entry(p.section, p.invoked, clock, Pending);
    var log, now := l.history[p.handle], l.hardware[p.handle];
    assert LogOk(l, ps, p.handle);
    AcquireLog(l.first[p.handle], log, now, entry);
    AcquireTimes(log, clock, entry);
    var p' := Holding(p.handle, p.job, Running(p.section.body, p.section.start));
    WithLogTimes(l, ps, t, p', p.handle, l.holder[p.handle := t], now, log + [entry], clock);
    WithLogLogs(l, ps, t, p', l.holder[p.handle := t], now, log + [entry]);
  }

  lemma NativeOk(l: Locks, ps: seq<Phase>, t: nat, clock: nat)
    requires LocksOk(l, ps, clock) && t < |ps| && ps[t].Holding? && !Finishing(ps[t].exec)
    ensures var p := ps[t];
            LocksOk(AfterNative(l, p), ps[t := p.(exec := Advance(p.exec, l.hardware[p.handle]).1)], clock + 1)
  {
    var p := ps[t];
    var log, now := l.history[p.handle], l.hardware[p.handle];
    assert LogOk(l, ps, p.handle);
    assert l.holder[p.handle := t] == l.holder;
    NativeLog(l.first[p.handle], log, now, p.exec);
    var (now', exec') := Advance(p.exec, now);
    DisjointLater(log, clock);
    WithLogTimes(l, ps, t, p.(exec := exec'), p.handle, l.holder, now', log, clock);
    WithLogLogs(l, ps, t, p.(exec := exec'), l.holder, now', log);
  }

  lemma UnlockOk(l: Locks, ps: seq<Phase>, t: nat, p': Phase, clock: nat)
    requires LocksOk(l, ps, clock) && t < |ps| && ps[t].Holding? && Finishing(ps[t].exec) && !Involved(p')
    ensures |l.history[ps[t].handle]| > 0 && LocksOk(AfterUnlock(l, ps[t], clock), ps[t := p'], clock + 1)
  {
    var p := ps[t];
    var log, now := l.history[p.handle], l.hardware[p.handle];
    assert LogOk(l, ps, p.handle);
    UnlockLog(l.first[p.handle], log, now, p.exec, clock);
    UnlockTimes(log, clock, OutcomeOf(p.exec));
    var last := |log| - 1;
    var log' := log[last := log[last].(progress := Done(OutcomeOf(p.exec), clock))];
    WithLogTimes(l, ps, t, p', p.handle, l.holder - {p.handle}, now, log', clock);
    WithLogLogs(l, ps, t, p', l.holder - {p.handle}, now, log');
  }
}
