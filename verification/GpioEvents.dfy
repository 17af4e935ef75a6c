/** Typed and native GPIO events, the event filter and its native mask. */
module GpioEvents {

  datatype Pin = GP0 | GP1 | GP2 | GP3
  datatype Edge = Rising | Falling

  /** Wall-clock times are passed through untouched. */
  type Timestamp(==, 0, !new)

  datatype GpioEvent = GpioEvent(pin: Pin, edge: Edge, time: Timestamp, previousTime: Timestamp)

  /** `mcp2221_gpio_event_type_t`: the two enumerators, and any other value of the type. */
  datatype NativeKind = Rise | Fall | Unknown(code: int)

  datatype NativeEvent = NativeEvent(gpio: nat, kind: NativeKind, time: Timestamp, lastTime: Timestamp)

  /** `GpioEventFilter`: one flag per pin and edge. */
  type Flags = f: seq<bool> | |f| == 4 witness [false, false, false, false]
  datatype Filter = Filter(rising: Flags, falling: Flags)

  const NO_FILTER := Filter([false, false, false, false], [false, false, false, false])

  /** `a | b` and `(a & b) != 0` */
  function Or(a: bv16, b: bv16): bv16 {
    a | b
  }

  predicate Meets(a: bv16, b: bv16) {
    a & b != 0
  }

  lemma MeetsOr(a: bv16, b: bv16, d: bv16)
    ensures Meets(Or(a, b), d) <==> Meets(a, d) || Meets(b, d)
  {
    assert (a | b) & d == (a & d) | (b & d);
    OrZero(a & d, b & d);
  }

  lemma OrZero(a: bv16, b: bv16)
    ensures Or(a, b) == 0 <==> a == 0 && b == 0
  {
  }

  lemma MeetsItself(a: bv16)
    ensures Meets(a, a) <==> a != 0
    ensures !Meets(0, a)
  {
  }

  /** The native masks of a pin.  Nothing is known about the masks of a pin that does not exist. */
  datatype Layout = Layout(rise: nat -> bv16, fall: nat -> bv16) {
    /** Eight bits that do not overlap. */
    ghost predicate Valid() {
      && (forall p: nat | p < 4 :: rise(p) != 0 && fall(p) != 0)
      && (forall p: nat, q: nat | p < 4 && q < 4 :: !Meets(rise(p), fall(q)) && !Meets(fall(p), rise(q)))
      && (forall p: nat, q: nat | p < 4 && q < 4 && p != q :: !Meets(rise(p), rise(q)) && !Meets(fall(p), fall(q)))
    }
  }

  /** The bit that the native poller tests for an event: whatever is not a rise counts as a fall. */
  function BitOf(layout: Layout, e: NativeEvent): bv16 {
    if e.kind.Rise? then layout.rise(e.gpio) else layout.fall(e.gpio)
  }

  /** The native test, a zero mask accepting everything. */
  predicate Accepts(layout: Layout, mask: bv16, e: NativeEvent) {
    mask == 0 || Meets(mask, BitOf(layout, e))
  }

  /** The mask that the loop of `setFilter` has built after `n` pins. */
  function MaskUpTo(layout: Layout, f: Filter, n: nat): bv16
    requires n <= 4
  {
    if n == 0 then 0
    else
      var before := MaskUpTo(layout, f, n - 1);
      var risen := if f.rising[n - 1] then Or(before, layout.rise(n - 1)) else before;
      if f.falling[n - 1] then Or(risen, layout.fall(n - 1)) else risen
  }

  method BuildMask(layout: Layout, f: Filter) returns (mask: bv16)
    ensures mask == MaskUpTo(layout, f, 4)
  {
    hide Or;
    mask := 0;
    for pin := 0 to 4
      invariant mask == MaskUpTo(layout, f, pin)
    {
      if f.rising[pin] {
        mask := Or(mask, layout.rise(pin));
      }
      if f.falling[pin] {
        mask := Or(mask, layout.fall(pin));
      }
    }
  }

  /** What the typed filter asks for. */
  predicate Selects(f: Filter, pin: nat, edge: Edge)
    requires pin < 4
  {
    if edge == Rising then f.rising[pin] else f.falling[pin]
  }

  predicate SelectsNothing(f: Filter) {
    forall pin: nat | pin < 4 :: !f.rising[pin] && !f.falling[pin]
  }

  /** The bits that the loop has set so far. */
  lemma {:induction false} MaskBits(layout: Layout, f: Filter, n: nat, pin: nat)
    requires layout.Valid() && n <= 4 && pin < 4
    ensures Meets(MaskUpTo(layout, f, n), layout.rise(pin)) <==> pin < n && f.rising[pin]
    ensures Meets(MaskUpTo(layout, f, n), layout.fall(pin)) <==> pin < n && f.falling[pin]
  {
    hide Or, Meets;
    MeetsItself(layout.rise(pin));
    MeetsItself(layout.fall(pin));
    if n > 0 {
      MaskBits(layout, f, n - 1, pin);
      var before, rise, fall := MaskUpTo(layout, f, n - 1), layout.rise(n - 1), layout.fall(n - 1);
      var risen := if f.rising[n - 1] then Or(before, rise) else before;
      MeetsOr(before, rise, layout.rise(pin));
      MeetsOr(before, rise, layout.fall(pin));
      MeetsOr(risen, fall, layout.rise(pin));
      MeetsOr(risen, fall, layout.fall(pin));
    }
  }

  lemma {:induction false} MaskZero(layout: Layout, f: Filter, n: nat)
    requires layout.Valid() && n <= 4
    ensures MaskUpTo(layout, f, n) == 0 <==> forall pin: nat | pin < n :: !f.rising[pin] && !f.falling[pin]
  {
    hide Or, Meets;
    if n > 0 {
      MaskZero(layout, f, n - 1);
      var before, rise, fall := MaskUpTo(layout, f, n - 1), layout.rise(n - 1), layout.fall(n - 1);
      OrZero(before, rise);
      OrZero(if f.rising[n - 1] then Or(before, rise) else before, fall);
    }
  }

  /** The mask says what the filter says: the native test lets an event of an existing pin through iff
      the filter selects nothing at all or selects that pin and edge. */
  lemma MaskIsFaithful(layout: Layout, f: Filter, e: NativeEvent)
    requires layout.Valid() && e.gpio < 4
    ensures Accepts(layout, MaskUpTo(layout, f, 4), e)
            <==> || (forall pin | 0 <= pin < 4 :: !f.rising[pin] && !f.falling[pin])
                 || (if e.kind.Rise? then f.rising[e.gpio] else f.falling[e.gpio])
  {
    hide Or, Meets, MaskUpTo;
    MaskBits(layout, f, 4, e.gpio);
    MaskZero(layout, f, 4);
  }

  /** A filter without selections has mask 0 under any layout. */
  lemma EmptyMask(layout: Layout)
    ensures MaskUpTo(layout, NO_FILTER, 4) == 0
  {
    assert MaskUpTo(layout, NO_FILTER, 1) == 0;
    assert MaskUpTo(layout, NO_FILTER, 2) == 0;
    assert MaskUpTo(layout, NO_FILTER, 3) == 0;
  }

  /** `clearFilter` lets everything through, and is the only kind of filter that has mask 0. */
  lemma ClearedMask(layout: Layout, f: Filter)
    requires layout.Valid()
    ensures MaskUpTo(layout, NO_FILTER, 4) == 0
    ensures (forall e :: Accepts(layout, MaskUpTo(layout, NO_FILTER, 4), e))
    ensures MaskUpTo(layout, f, 4) == 0 <==> f == NO_FILTER
  {
    hide Or, Meets, MaskUpTo;
    MaskZero(layout, NO_FILTER, 4);
    MaskZero(layout, f, 4);
    if MaskUpTo(layout, f, 4) == 0 {
      assert f.rising == NO_FILTER.rising && f.falling == NO_FILTER.falling;
    }
  }
}
