/** What runs between taking a device mutex and giving it back. */
module LockedSections {

  /** Everything a native call on one handle can read or write: the chip, the C handle and the
      native structs of the handle's children.  Left abstract: the C library is not modelled. */
  type Hardware(!new)

  /** The locals of the method that holds the lock. */
  type Locals(!new)

  /** A native error code together with the operation that reported it. */
  type Failure(!new)

  datatype Result = Next(hardware: Hardware, locals: Locals) | Fail(hardware: Hardware, error: Failure)

  /** One indivisible access; a native call is any number of these.  `Fail` is the throw of `checkError`. */
  type Micro = (Hardware, Locals) -> Result

  datatype Section = Section(start: Locals, body: seq<Micro>)

  datatype Outcome = Returned(locals: Locals) | Threw(error: Failure)

  datatype Exec = Running(rest: seq<Micro>, locals: Locals) | Finished(outcome: Outcome)

  /** One micro step of a section that is under way. */
  ghost function Advance(e: Exec, h: Hardware): (Hardware, Exec)
    requires e.Running? && |e.rest| > 0
  {
    match e.rest[0](h, e.locals)
    case Next(h', l) => (h', Running(e.rest[1..], l))
    case Fail(h', error) => (h', Finished(Threw(error)))
  }

  /** What is left of a section, run without interruption. */
  ghost function Complete(e: Exec, h: Hardware): (Hardware, Outcome)
    decreases if e.Running? then |e.rest| + 1 else 0
  {
    match e
    case Finished(outcome) => (h, outcome)
    case Running(rest, locals) =>
      if |rest| == 0 then (h, Returned(locals))
      else var (h', e') := Advance(e, h); Complete(e', h')
  }

  /** The section as one atomic operation. */
  ghost function Atomic(s: Section, h: Hardware): (Hardware, Outcome) {
    Complete(Running(s.body, s.start), h)
  }

  /** Sections run one at a time, in order: the sequential specification. */
  ghost function Replay(h: Hardware, sections: seq<Section>): (Hardware, seq<Outcome>)
  {
    if |sections| == 0 then (h, [])
    else
      var last := |sections| - 1;
      var (before, outcomes) := Replay(h, sections[..last]);
      var (after, outcome) := Atomic(sections[last], before);
      (after, outcomes + [outcome])
  }

  lemma ReplayAppend(h: Hardware, sections: seq<Section>, next: Section)
    ensures var (before, outcomes) := Replay(h, sections);
            var (after, outcome) := Atomic(next, before);
            Replay(h, sections + [next]) == (after, outcomes + [outcome])
  {
    assert (sections + [next])[..|sections|] == sections;
  }
}
