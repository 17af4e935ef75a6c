/** The methods of the device adapter that turn partial updates into native calls. */
module DeviceConfig {
  import opened Overlays
  import opened Sram

  datatype PinFunction = Dedicated | Alt0 | Alt1 | Alt2 | GpioInput | GpioOutput

  datatype PinConfiguration = PinConfiguration(function': Option<PinFunction>, outputValue: bool)

  const KEEP_ENTRY := PinConfiguration(None, false)

  type PinConfigurations = c: seq<PinConfiguration> | |c| == 4 witness [KEEP_ENTRY, KEEP_ENTRY, KEEP_ENTRY, KEEP_ENTRY]

  const KEEP_PINS: PinConfigurations := [KEEP_ENTRY, KEEP_ENTRY, KEEP_ENTRY, KEEP_ENTRY]

  datatype PinState = PinState(function': PinFunction, output: bool)

  const ANY_STATE := PinState(GpioInput, false)

  type PinStates = p: seq<PinState> | |p| == 4
    witness [ANY_STATE, ANY_STATE, ANY_STATE, ANY_STATE]

  type GpioWrite = w: seq<Option<bool>> | |w| == 4 witness [None, None, None, None]
  type Outputs = o: seq<bool> | |o| == 4 witness [false, false, false, false]

  /** How a method ends: normally, or by one of its exceptions. */
  datatype Outcome = Done | NotOpen | Invalid | Failed(code: int)

  /** An output value is only meaningful for an output. */
  predicate Bad(entry: PinConfiguration) {
    entry.outputValue && entry.function' != Some(GpioOutput)
  }

  predicate AnyBad(c: PinConfigurations) {
    exists i | 0 <= i < 4 :: Bad(c[i])
  }

  /** What an entry asks for. */
  function Update(entry: PinConfiguration): Option<PinState> {
    if entry.function'.Some? then Some(PinState(entry.function'.value, entry.outputValue)) else None
  }

  function Updates(c: PinConfigurations): (u: seq<Option<PinState>>)
    ensures |u| == 4
  {
    seq(4, i requires 0 <= i < 4 => Update(c[i]))
  }

  /** The native side: every field on its own, nothing if the call fails. */
  class Chip {
    var registers: Registers
    var interruptFlag: bool
    var pins: PinStates
    var outputs: Outputs
    var calls: nat
    var nextError: int

    method ConsumeError() returns (error: int)
      modifies `nextError
      ensures error == old(nextError) && nextError == 0
    {
      error := nextError;
      nextError := 0;
    }

    method SramConfig(native: NativeSram) returns (error: int)
      modifies `registers, `interruptFlag, `calls, `nextError
      ensures calls == old(calls) + 1 && nextError == 0 && error == old(nextError)
      ensures registers == if error == 0 then StoreAll(old(registers), native) else old(registers)
      ensures interruptFlag == (old(interruptFlag) && !(error == 0 && native.clearFlag == Put(true)))
    {
      calls := calls + 1;
      error := ConsumeError();
      if error == 0 {
        registers := StoreAll(registers, native);
        interruptFlag := interruptFlag && native.clearFlag != Put(true);
      }
    }

    method PinSetFunctions(gp: array<Word<PinFunction>>, out: array<int>) returns (error: int)
      requires gp.Length == out.Length == 4
      modifies `pins, `calls, `nextError
      ensures calls == old(calls) + 1 && nextError == 0 && error == old(nextError)
      ensures error != 0 ==> pins == old(pins)
      ensures error == 0 ==>
                forall i | 0 <= i < 4 ::
                  pins[i] == if gp[i].Put? then PinState(gp[i].value, out[i] != 0) else old(pins)[i]
    {
      calls := calls + 1;
      error := ConsumeError();
      if error == 0 {
        pins := seq(4, i requires 0 <= i < 4 reads gp, out, this =>
          if gp[i].Put? then PinState(gp[i].value, out[i] != 0) else pins[i]);
      }
    }

    method GpioWrite(request: array<Word<int>>) returns (error: int)
      requires request.Length == 4
      modifies `outputs, `calls, `nextError
      ensures calls == old(calls) + 1 && nextError == 0 && error == old(nextError)
      ensures error != 0 ==> outputs == old(outputs)
      ensures error == 0 ==>
                forall i | 0 <= i < 4 ::
                  outputs[i] == if request[i].Put? then request[i].value != 0 else old(outputs)[i]
    {
      calls := calls + 1;
      error := ConsumeError();
      if error == 0 {
        outputs := seq(4, i requires 0 <= i < 4 reads request, this =>
          if request[i].Put? then request[i].value != 0 else outputs[i]);
      }
    }
  }

  function Checked(error: int): Outcome {
    if error == 0 then Done else Failed(error)
  }

  class Device {
    const chip: Chip
    /** Whether the adapter still has device state. */
    var attached: bool

    constructor (chip: Chip)
      ensures this.chip == chip && attached
    {
      this.chip, attached := chip, true;
    }

    /** Sets exactly the settings mentioned.  A refused value makes no native call. */
    method ConfigureSram(c: SramConfig) returns (r: Outcome)
      modifies chip
      ensures chip.pins == old(chip.pins) && chip.outputs == old(chip.outputs)
      ensures r == NotOpen <==> !attached
      ensures r == Invalid <==> attached && c.dacValue.Some? && c.dacValue.value > 31
      ensures r == NotOpen || r == Invalid ==>
                && chip.calls == old(chip.calls) && chip.registers == old(chip.registers)
                && chip.nextError == old(chip.nextError)
      ensures r != NotOpen && r != Invalid ==>
                chip.calls == old(chip.calls) + 1 && chip.nextError == 0 && r == Checked(old(chip.nextError))
      ensures r.Failed? ==> chip.registers == old(chip.registers)
      ensures chip.interruptFlag == if r == Done then FlagAfter(old(chip.interruptFlag), c) else old(chip.interruptFlag)
      ensures attached ==> chip.registers == Applied(old(chip.registers), Attempt(c, old(chip.nextError)))
      ensures r == Done ==> Observed(chip.registers) == Configured(old(Observed(chip.registers)), c)
      ensures r == Done ==> TakenOver(old(chip.registers), c, chip.registers)
    {
      hide Observed, Configured, StoreAll, Effective, StoreReference, TakenOver;
      EncodingIsFaithful(chip.registers, c);
      StoringTakesOver(chip.registers, c);
      if !attached {
        return NotOpen;
      }
      var gp := new NativePin[4](_ => NativePin(Keep, Keep, Keep));
      for i := 0 to 4
        modifies gp
        invariant forall j | 0 <= j < i :: gp[j] == EncodePin(c.gpio[j])
      {
        var pin := c.gpio[i];
        var value := if pin.outputValue.Some? then Put(pin.outputValue.value) else Keep;
        var direction := if pin.direction.Some? then Put(pin.direction.value) else Keep;
        var function' := if pin.function'.Some? then Put(pin.function'.value) else Keep;
        gp[i] := NativePin(value, direction, function');
      }
      assert gp[..] == EncodeAll(c).gp;
      var posEdge := if c.risingEdge.Some? then Put(c.risingEdge.value) else Keep;
      var negEdge := if c.fallingEdge.Some? then Put(c.fallingEdge.value) else Keep;
      var clearFlag := if c.clearFlag.Some? then Put(c.clearFlag.value) else Keep;
      var adc := NativeReference(Keep, Keep);
      if c.adcReference.Some? {
        adc := ApplyReference(c.adcReference.value);
      }
      var dac := NativeReference(Keep, Keep);
      if c.dacReference.Some? {
        dac := ApplyReference(c.dacReference.value);
      }
      var dacValue: Word<Byte> := Keep;
      if c.dacValue.Some? {
        if c.dacValue.value > MAX_DAC {
          return Invalid;
        }
        dacValue := Put(c.dacValue.value);
      }
      var div := if c.frequency.Some? then Put(c.frequency.value) else Keep;
      var duty := if c.dutyCycle.Some? then Put(c.dutyCycle.value) else Keep;
      var native := NativeSram(gp[..], posEdge, negEdge, clearFlag, adc, dac, dacValue, div, duty);
      assert native == EncodeAll(c);
      var error := chip.SramConfig(native);
      return Checked(error);
    }

    /** `applyAdcReference` and `applyDacReference`, which are alike. */
    static function ApplyReference(v: VoltageReference): (n: NativeReference)
      ensures forall r :: Effective(StoreReference(r, n)) == v
    {
      match v
      case Off => NativeReference(Put(VrmOff), Put(FromVrm))
      case Vdd => NativeReference(Keep, Put(FromVdd))
      case Internal1V024 => NativeReference(Put(Vrm1024), Put(FromVrm))
      case Internal2V048 => NativeReference(Put(Vrm2048), Put(FromVrm))
      case Internal4V096 => NativeReference(Put(Vrm4096), Put(FromVrm))
    }

    /** One bad entry, wherever it is, refuses the whole configuration before any native call. */
    method ConfigurePins(c: PinConfigurations) returns (r: Outcome)
      modifies chip
      ensures chip.registers == old(chip.registers) && chip.interruptFlag == old(chip.interruptFlag)
      ensures chip.outputs == old(chip.outputs)
      ensures r == NotOpen <==> !attached
      ensures r == Invalid
              <==> attached && exists i | 0 <= i < 4 :: c[i].outputValue && c[i].function' != Some(GpioOutput)
      ensures r == NotOpen || r == Invalid ==>
                chip.calls == old(chip.calls) && chip.pins == old(chip.pins) && chip.nextError == old(chip.nextError)
      ensures r != NotOpen && r != Invalid ==>
                chip.calls == old(chip.calls) + 1 && chip.nextError == 0 && r == Checked(old(chip.nextError))
      ensures r.Failed? ==> chip.pins == old(chip.pins)
      ensures r == Done ==>
                forall i | 0 <= i < 4 ::
                  chip.pins[i] == if c[i].function'.Some? then PinState(c[i].function'.value, c[i].outputValue)
                                  else old(chip.pins)[i]
      ensures attached ==> chip.pins == PinsConfigured(old(chip.pins), PinAttempt(c, old(chip.nextError)))
    {
      if !attached {
        return NotOpen;
      }
      var gp := new Word<PinFunction>[4](_ => Keep);
      var out := new int[4](_ => 0);
      for i := 0 to 4
        modifies gp, out
        invariant forall j | 0 <= j < i :: !Bad(c[j])
        invariant forall j | 0 <= j < i :: gp[j] == Encode(c[j].function')
        invariant forall j | 0 <= j < i :: out[j] == if c[j].outputValue then 1 else 0
      {
        var entry := c[i];
        if entry.function'.None? {
          if entry.outputValue {
            assert Bad(c[i]);
            return Invalid;
          }
          gp[i] := Keep;
          out[i] := 0;
          continue;
        }
        gp[i] := Put(entry.function'.value);
        if entry.function'.value == GpioOutput {
          out[i] := if entry.outputValue then 1 else 0;
        } else {
          if entry.outputValue {
            assert Bad(c[i]);
            return Invalid;
          }
          out[i] := 0;
        }
      }
      var error := chip.PinSetFunctions(gp, out);
      return Checked(error);
    }

    /** Writes exactly the outputs mentioned. */
    method WriteGpio(values: GpioWrite) returns (r: Outcome)
      modifies chip
      ensures chip.registers == old(chip.registers) && chip.interruptFlag == old(chip.interruptFlag)
      ensures chip.pins == old(chip.pins)
      ensures r == NotOpen <==> !attached
      ensures r != Invalid
      ensures r == NotOpen ==>
                && chip.calls == old(chip.calls) && chip.outputs == old(chip.outputs)
                && chip.nextError == old(chip.nextError)
      ensures r != NotOpen ==>
                chip.calls == old(chip.calls) + 1 && chip.nextError == 0 && r == Checked(old(chip.nextError))
      ensures r.Failed? ==> chip.outputs == old(chip.outputs)
      ensures r == Done ==>
                forall i | 0 <= i < 4 ::
                  chip.outputs[i] == if values[i].Some? then values[i].value else old(chip.outputs)[i]
      ensures attached ==> chip.outputs == Written(old(chip.outputs), WriteAttempt(values, old(chip.nextError)))
    {
      if !attached {
        return NotOpen;
      }
      var request := new Word<int>[4](_ => Keep);
      for i := 0 to 4
        modifies request
        invariant forall j | 0 <= j < i ::
                    request[j] == if values[j].Some? then Put(if values[j].value then 1 else 0) else Keep
        invariant forall j | i <= j < 4 :: request[j] == Keep
      {
        if values[i].Some? {
          request[i] := Put(if values[i].value then 1 else 0);
        }
      }
      var error := chip.GpioWrite(request);
      return Checked(error);
    }
  }

  /* ----- Sequences of calls, each with the error that its native call will report ----- */

  datatype PinAttempt = PinAttempt(configuration: PinConfigurations, error: int)
  datatype WriteAttempt = WriteAttempt(values: GpioWrite, error: int)

  predicate Takes(a: PinAttempt) {
    !AnyBad(a.configuration) && a.error == 0
  }

  function PinsConfigured(p: PinStates, a: PinAttempt): PinStates {
    if Takes(a) then OverEach(p, Updates(a.configuration)) else p
  }

  /** A configuration is refused iff an entry asks for an output value without naming an output; otherwise, and
      if the native call succeeds, exactly the pins of which a function is named have it and their value. */
  lemma PinsConfiguredIs(p: PinStates, a: PinAttempt)
    ensures var q, c := PinsConfigured(p, a), a.configuration;
            if a.error != 0 || exists i | 0 <= i < 4 :: c[i].outputValue && c[i].function' != Some(GpioOutput)
            then q == p
            else
              forall i | 0 <= i < 4 ::
                q[i] == if c[i].function'.Some? then PinState(c[i].function'.value, c[i].outputValue) else p[i]
  {
    var c := a.configuration;
    if i :| 0 <= i < 4 && c[i].outputValue && c[i].function' != Some(GpioOutput) {
      assert Bad(c[i]);
    }
  }

  function AllPinsConfigured(p: PinStates, all: seq<PinAttempt>): PinStates
    decreases |all|
  {
    if all == [] then p else AllPinsConfigured(PinsConfigured(p, all[0]), all[1..])
  }

  /** Two pin configurations as one: the later entry wins where it names a function. */
  function PinsMerge(a: PinConfigurations, b: PinConfigurations): PinConfigurations {
    seq(4, i requires 0 <= i < 4 => if b[i].function'.Some? then b[i] else a[i])
  }

  function PinsMerged(all: seq<PinAttempt>): PinConfigurations
    decreases |all|
  {
    if all == [] then KEEP_PINS
    else if Takes(all[0]) then PinsMerge(all[0].configuration, PinsMerged(all[1..]))
    else PinsMerged(all[1..])
  }

  lemma PinsMergeIsMerge(a: PinConfigurations, b: PinConfigurations)
    requires !AnyBad(a) && !AnyBad(b)
    ensures !AnyBad(PinsMerge(a, b))
    ensures Updates(PinsMerge(a, b)) == MergeEach(Updates(a), Updates(b))
  {
  }

  lemma PinsMergeIsMonoid(a: PinConfigurations, b: PinConfigurations, c: PinConfigurations)
    requires !AnyBad(a)
    ensures PinsMerge(PinsMerge(a, b), c) == PinsMerge(a, PinsMerge(b, c))
    ensures PinsMerge(KEEP_PINS, a) == a == PinsMerge(a, KEEP_PINS)
  {
    var left := PinsMerge(KEEP_PINS, a);
    forall i | 0 <= i < 4
      ensures left[i] == a[i]
    {
      assert !Bad(a[i]);
    }
    assert left == a;
    assert PinsMerge(a, KEEP_PINS) == a;
  }

  /** After any sequence of calls, refused and failed ones included, the pins are as after one call with the
      merge of the others, and that merge is itself accepted. */
  lemma {:induction false} PinSequenceIsItsMerge(p: PinStates, all: seq<PinAttempt>)
    ensures !AnyBad(PinsMerged(all))
    ensures AllPinsConfigured(p, all) == PinsConfigured(p, PinAttempt(PinsMerged(all), 0))
    decreases |all|
  {
    hide Updates, PinsMerge, OverEach, MergeEach, AnyBad;
    if all == [] {
      KeepingPins(p);
    } else {
      PinSequenceIsItsMerge(PinsConfigured(p, all[0]), all[1..]);
      if Takes(all[0]) {
        PinsMergeIsMerge(all[0].configuration, PinsMerged(all[1..]));
        OverTwice(p, Updates(all[0].configuration), Updates(PinsMerged(all[1..])));
      }
    }
  }

  lemma KeepingPins(p: PinStates)
    ensures !AnyBad(KEEP_PINS) && PinsConfigured(p, PinAttempt(KEEP_PINS, 0)) == p
  {
    assert OverEach(p, Updates(KEEP_PINS)) == p;
  }

  function Written(o: Outputs, a: WriteAttempt): Outputs {
    if a.error == 0 then OverEach(o, a.values) else o
  }

  function AllWritten(o: Outputs, all: seq<WriteAttempt>): Outputs
    decreases |all|
  {
    if all == [] then o else AllWritten(Written(o, all[0]), all[1..])
  }

  /** The updates of the writes that did not fail. */
  function Successful(all: seq<WriteAttempt>): (updates: seq<seq<Option<bool>>>)
    ensures Width(updates, 4)
    decreases |all|
  {
    if all == [] then []
    else (if all[0].error == 0 then [all[0].values] else []) + Successful(all[1..])
  }

  /** After any sequence of GPIO writes, failed ones included, the outputs are as after one write of the
      merge of the others. */
  lemma {:induction false} WriteSequenceIsItsMerge(o: Outputs, all: seq<WriteAttempt>)
    ensures AllWritten(o, all) == Written(o, WriteAttempt(MergeAll(4, Successful(all)), 0))
    decreases |all|
  {
    hide OverEach, MergeAll, MergeEach;
    SuccessfulWrites(o, all);
    SequenceIsMerge(o, Successful(all));
  }

  lemma {:induction false} SuccessfulWrites(o: Outputs, all: seq<WriteAttempt>)
    ensures AllWritten(o, all) == OverAll(o, Successful(all))
    decreases |all|
  {
    hide OverEach;
    if all != [] {
      SuccessfulWrites(Written(o, all[0]), all[1..]);
      if all[0].error == 0 {
        assert Successful(all)[0] == all[0].values && Successful(all)[1..] == Successful(all[1..]);
      } else {
        assert Successful(all) == Successful(all[1..]);
      }
    }
  }
}
