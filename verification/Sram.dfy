/** The typed SRAM configuration, its native form, and what an application of either does. */
module Sram {
  import opened Overlays

  datatype VoltageReference = Off | Vdd | Internal1V024 | Internal2V048 | Internal4V096
  datatype GpioDirection = Output | Input
  datatype SramPinFunction = Gpio | Dedicated | Alt0 | Alt1 | Alt2
  datatype ClockFrequency = KHz375 | KHz750 | MHz1_5 | MHz3 | MHz6 | MHz12 | MHz24
  datatype ClockDutyCycle = Percent0 | Percent25 | Percent50 | Percent75

  type Byte = b: int | 0 <= b < 256

  datatype SramPin = SramPin(
    outputValue: Option<bool>, direction: Option<GpioDirection>, function': Option<SramPinFunction>)

  const KEEP_PIN := SramPin(None, None, None)

  type SramPins = p: seq<SramPin> | |p| == 4 witness [KEEP_PIN, KEEP_PIN, KEEP_PIN, KEEP_PIN]

  datatype SramConfig = SramConfig(
    gpio: SramPins,
    risingEdge: Option<bool>, fallingEdge: Option<bool>, clearFlag: Option<bool>,
    adcReference: Option<VoltageReference>,
    dacReference: Option<VoltageReference>, dacValue: Option<Byte>,
    frequency: Option<ClockFrequency>, dutyCycle: Option<ClockDutyCycle>)

  const KEEP_ALL := SramConfig([KEEP_PIN, KEEP_PIN, KEEP_PIN, KEEP_PIN], None, None, None, None, None, None, None, None)

  const MAX_DAC := 31

  /** The only configuration that is refused. */
  predicate Acceptable(c: SramConfig) {
    c.dacValue.Some? ==> c.dacValue.value <= MAX_DAC
  }

  /** A native field: `MCP2221_CONFIG_KEEP` or a value. */
  datatype Word<+T> = Keep | Put(value: T)

  datatype Vrm = VrmOff | Vrm1024 | Vrm2048 | Vrm4096
  datatype RefSource = FromVrm | FromVdd

  datatype NativeReference = NativeReference(vrm: Word<Vrm>, source: Word<RefSource>)
  datatype NativePin = NativePin(
    value: Word<bool>, direction: Word<GpioDirection>, function': Word<SramPinFunction>)

  const KEEP_NATIVE := NativePin(Keep, Keep, Keep)

  type NativePins = p: seq<NativePin> | |p| == 4
    witness [KEEP_NATIVE, KEEP_NATIVE, KEEP_NATIVE, KEEP_NATIVE]

  datatype NativeSram = NativeSram(
    gp: NativePins, posEdge: Word<bool>, negEdge: Word<bool>, clearFlag: Word<bool>,
    adc: NativeReference, dac: NativeReference, dacValue: Word<Byte>,
    div: Word<ClockFrequency>, duty: Word<ClockDutyCycle>)

  /** The settings held in SRAM, the reference as its two fields. */
  datatype ReferenceRegs = ReferenceRegs(vrm: Vrm, source: RefSource)
  datatype PinRegs = PinRegs(value: bool, direction: GpioDirection, function': SramPinFunction)

  const ANY_PIN := PinRegs(false, Input, Gpio)

  type AllPinRegs = p: seq<PinRegs> | |p| == 4 witness [ANY_PIN, ANY_PIN, ANY_PIN, ANY_PIN]

  datatype Registers = Registers(
    gp: AllPinRegs, posEdge: bool, negEdge: bool, adc: ReferenceRegs, dac: ReferenceRegs, dacValue: Byte,
    div: ClockFrequency, duty: ClockDutyCycle)

  function Store<T>(current: T, word: Word<T>): T {
    if word.Put? then word.value else current
  }

  function StoreReference(r: ReferenceRegs, n: NativeReference): ReferenceRegs {
    ReferenceRegs(Store(r.vrm, n.vrm), Store(r.source, n.source))
  }

  function StorePin(r: PinRegs, n: NativePin): PinRegs {
    PinRegs(Store(r.value, n.value), Store(r.direction, n.direction), Store(r.function', n.function'))
  }

  /** The native side takes every field on its own. */
  function StoreAll(r: Registers, n: NativeSram): Registers {
    Registers(
      seq(4, i requires 0 <= i < 4 => StorePin(r.gp[i], n.gp[i])),
      Store(r.posEdge, n.posEdge), Store(r.negEdge, n.negEdge),
      StoreReference(r.adc, n.adc), StoreReference(r.dac, n.dac), Store(r.dacValue, n.dacValue),
      Store(r.div, n.div), Store(r.duty, n.duty))
  }

  /* ----- What can be observed ----- */

  function VrmOf(v: VoltageReference): Vrm
    requires v != Vdd
  {
    match v
    case Off => VrmOff
    case Internal1V024 => Vrm1024
    case Internal2V048 => Vrm2048
    case Internal4V096 => Vrm4096
  }

  /** The reference in force: with the supply selected, the other field plays no part. */
  function Effective(r: ReferenceRegs): VoltageReference {
    if r.source == FromVdd then Vdd
    else
      match r.vrm
      case VrmOff => Off
      case Vrm1024 => Internal1V024
      case Vrm2048 => Internal2V048
      case Vrm4096 => Internal4V096
  }

  datatype Settings = Settings(
    gp: AllPinRegs, posEdge: bool, negEdge: bool, adc: VoltageReference, dac: VoltageReference, dacValue: Byte,
    div: ClockFrequency, duty: ClockDutyCycle)

  function Observed(r: Registers): Settings {
    Settings(r.gp, r.posEdge, r.negEdge, Effective(r.adc), Effective(r.dac), r.dacValue, r.div, r.duty)
  }

  /* ----- What a typed configuration asks for ----- */

  function PinOver(r: PinRegs, p: SramPin): PinRegs {
    PinRegs(Over(r.value, p.outputValue), Over(r.direction, p.direction), Over(r.function', p.function'))
  }

  function Configured(s: Settings, c: SramConfig): Settings {
    Settings(
      seq(4, i requires 0 <= i < 4 => PinOver(s.gp[i], c.gpio[i])),
      Over(s.posEdge, c.risingEdge), Over(s.negEdge, c.fallingEdge),
      Over(s.adc, c.adcReference), Over(s.dac, c.dacReference), Over(s.dacValue, c.dacValue),
      Over(s.div, c.frequency), Over(s.duty, c.dutyCycle))
  }

  function PinMerge(a: SramPin, b: SramPin): SramPin {
    SramPin(Merge(a.outputValue, b.outputValue), Merge(a.direction, b.direction), Merge(a.function', b.function'))
  }

  function ConfigMerge(a: SramConfig, b: SramConfig): SramConfig {
    SramConfig(
      seq(4, i requires 0 <= i < 4 => PinMerge(a.gpio[i], b.gpio[i])),
      Merge(a.risingEdge, b.risingEdge), Merge(a.fallingEdge, b.fallingEdge), Merge(a.clearFlag, b.clearFlag),
      Merge(a.adcReference, b.adcReference), Merge(a.dacReference, b.dacReference), Merge(a.dacValue, b.dacValue),
      Merge(a.frequency, b.frequency), Merge(a.dutyCycle, b.dutyCycle))
  }

  /* ----- The adapter's encoding ----- */

  function Encode<T>(o: Option<T>): Word<T> {
    if o.Some? then Put(o.value) else Keep
  }

  function EncodeReference(o: Option<VoltageReference>): NativeReference {
    match o
    case None => NativeReference(Keep, Keep)
    case Some(Vdd) => NativeReference(Keep, Put(FromVdd))
    case Some(v) => NativeReference(Put(VrmOf(v)), Put(FromVrm))
  }

  function EncodePin(p: SramPin): NativePin {
    NativePin(Encode(p.outputValue), Encode(p.direction), Encode(p.function'))
  }

  function EncodeAll(c: SramConfig): NativeSram {
    NativeSram(
      seq(4, i requires 0 <= i < 4 => EncodePin(c.gpio[i])),
      Encode(c.risingEdge), Encode(c.fallingEdge), Encode(c.clearFlag),
      EncodeReference(c.adcReference), EncodeReference(c.dacReference), Encode(c.dacValue),
      Encode(c.frequency), Encode(c.dutyCycle))
  }

  /** A call, with the error that its native call will report, 0 for none. */
  datatype Attempt = Attempt(config: SramConfig, error: int)

  predicate Takes(a: Attempt) {
    Acceptable(a.config) && a.error == 0
  }

  /** What a call does to the registers; a refused or failed one does nothing. */
  function Applied(r: Registers, a: Attempt): Registers {
    if Takes(a) then StoreAll(r, EncodeAll(a.config)) else r
  }

  function AllApplied(r: Registers, all: seq<Attempt>): Registers
    decreases |all|
  {
    if all == [] then r else AllApplied(Applied(r, all[0]), all[1..])
  }

  /** The merge of the configurations that were neither refused nor failed. */
  function Merged(all: seq<Attempt>): SramConfig
    decreases |all|
  {
    if all == [] then KEEP_ALL
    else if Takes(all[0]) then ConfigMerge(all[0].config, Merged(all[1..]))
    else Merged(all[1..])
  }

  lemma ReferenceTakesEffect(r: ReferenceRegs, o: Option<VoltageReference>)
    ensures Effective(StoreReference(r, EncodeReference(o))) == Over(Effective(r), o)
  {
  }

  lemma StoredIsOver<T>(current: T, o: Option<T>)
    ensures Store(current, Encode(o)) == Over(current, o)
  {
  }

  /** How a reference arrives in its two registers: the supply leaves the voltage alone. */
  predicate ReferenceTakenOver(before: ReferenceRegs, o: Option<VoltageReference>, after: ReferenceRegs) {
    match o
    case None => after == before
    case Some(Off) => after == ReferenceRegs(VrmOff, FromVrm)
    case Some(Vdd) => after == ReferenceRegs(before.vrm, FromVdd)
    case Some(Internal1V024) => after == ReferenceRegs(Vrm1024, FromVrm)
    case Some(Internal2V048) => after == ReferenceRegs(Vrm2048, FromVrm)
    case Some(Internal4V096) => after == ReferenceRegs(Vrm4096, FromVrm)
  }

  predicate FieldTakenOver<T(==)>(before: T, o: Option<T>, after: T) {
    after == match o case None => before case Some(value) => value
  }

  /** A configuration field by field: every register is what the field that is for it says, or as before. */
  predicate TakenOver(before: Registers, c: SramConfig, after: Registers) {
    && (forall i | 0 <= i < 4 ::
          && FieldTakenOver(before.gp[i].value, c.gpio[i].outputValue, after.gp[i].value)
          && FieldTakenOver(before.gp[i].direction, c.gpio[i].direction, after.gp[i].direction)
          && FieldTakenOver(before.gp[i].function', c.gpio[i].function', after.gp[i].function'))
    && FieldTakenOver(before.posEdge, c.risingEdge, after.posEdge)
    && FieldTakenOver(before.negEdge, c.fallingEdge, after.negEdge)
    && ReferenceTakenOver(before.adc, c.adcReference, after.adc)
    && ReferenceTakenOver(before.dac, c.dacReference, after.dac)
    && FieldTakenOver(before.dacValue, c.dacValue, after.dacValue)
    && FieldTakenOver(before.div, c.frequency, after.div)
    && FieldTakenOver(before.duty, c.dutyCycle, after.duty)
  }

  lemma StoringTakesOver(r: Registers, c: SramConfig)
    ensures TakenOver(r, c, StoreAll(r, EncodeAll(c)))
  {
    StoredIsTaken(r.posEdge, c.risingEdge);
    StoredIsTaken(r.negEdge, c.fallingEdge);
    StoredIsTaken(r.dacValue, c.dacValue);
    StoredIsTaken(r.div, c.frequency);
    StoredIsTaken(r.duty, c.dutyCycle);
    ReferenceIsTaken(r.adc, c.adcReference);
    ReferenceIsTaken(r.dac, c.dacReference);
    forall i | 0 <= i < 4
      ensures FieldTakenOver(r.gp[i].value, c.gpio[i].outputValue, StorePin(r.gp[i], EncodePin(c.gpio[i])).value)
      ensures FieldTakenOver(r.gp[i].direction, c.gpio[i].direction,
                             StorePin(r.gp[i], EncodePin(c.gpio[i])).direction)
      ensures FieldTakenOver(r.gp[i].function', c.gpio[i].function',
                             StorePin(r.gp[i], EncodePin(c.gpio[i])).function')
    {
      StoredIsTaken(r.gp[i].value, c.gpio[i].outputValue);
      StoredIsTaken(r.gp[i].direction, c.gpio[i].direction);
      StoredIsTaken(r.gp[i].function', c.gpio[i].function');
    }
    hide Store, Encode, StorePin, EncodePin, StoreReference, EncodeReference, FieldTakenOver, ReferenceTakenOver;
  }

  lemma StoredIsTaken<T>(current: T, o: Option<T>)
    ensures FieldTakenOver(current, o, Store(current, Encode(o)))
  {
  }

  lemma ReferenceIsTaken(r: ReferenceRegs, o: Option<VoltageReference>)
    ensures ReferenceTakenOver(r, o, StoreReference(r, EncodeReference(o)))
  {
  }

  /** Applying the native form has exactly the effect asked for, in spite of the reference being split. */
  lemma EncodingIsFaithful(r: Registers, c: SramConfig)
    ensures Observed(StoreAll(r, EncodeAll(c))) == Configured(Observed(r), c)
  {
    StoredIsOver(r.posEdge, c.risingEdge);
    StoredIsOver(r.negEdge, c.fallingEdge);
    StoredIsOver(r.dacValue, c.dacValue);
    StoredIsOver(r.div, c.frequency);
    StoredIsOver(r.duty, c.dutyCycle);
    ReferenceTakesEffect(r.adc, c.adcReference);
    ReferenceTakesEffect(r.dac, c.dacReference);
    forall i | 0 <= i < 4
      ensures StorePin(r.gp[i], EncodePin(c.gpio[i])) == PinOver(r.gp[i], c.gpio[i])
    {
    }
    hide Store, Encode, Over, StorePin, EncodePin, PinOver, StoreReference, EncodeReference, Effective;
    assert StoreAll(r, EncodeAll(c)).gp == Configured(Observed(r), c).gp;
  }

  lemma ConfiguredTwice(s: Settings, a: SramConfig, b: SramConfig)
    ensures Configured(Configured(s, a), b) == Configured(s, ConfigMerge(a, b))
  {
    assert Configured(Configured(s, a), b).gp == Configured(s, ConfigMerge(a, b)).gp;
  }

  /** Merging is associative, the empty configuration is neutral, and what is accepted stays accepted. */
  lemma ConfigMergeIsMonoid(a: SramConfig, b: SramConfig, c: SramConfig)
    ensures ConfigMerge(ConfigMerge(a, b), c) == ConfigMerge(a, ConfigMerge(b, c))
    ensures ConfigMerge(KEEP_ALL, a) == a == ConfigMerge(a, KEEP_ALL)
    ensures Acceptable(a) && Acceptable(b) ==> Acceptable(ConfigMerge(a, b))
  {
    assert ConfigMerge(ConfigMerge(a, b), c).gpio == ConfigMerge(a, ConfigMerge(b, c)).gpio;
    assert ConfigMerge(KEEP_ALL, a).gpio == a.gpio == ConfigMerge(a, KEEP_ALL).gpio;
  }

  lemma KeepingAllChangesNothing(s: Settings)
    ensures Configured(s, KEEP_ALL) == s
  {
    assert Configured(s, KEEP_ALL).gp == s.gp;
  }

  /** After any sequence of calls, refused and failed ones included, the observed settings are those of one
      call with the right-biased merge of the others. */
  lemma {:induction false} SequenceIsItsMerge(r: Registers, all: seq<Attempt>)
    ensures Takes(Attempt(Merged(all), 0))
    ensures Observed(AllApplied(r, all)) == Configured(Observed(r), Merged(all))
    ensures Observed(AllApplied(r, all)) == Observed(Applied(r, Attempt(Merged(all), 0)))
    decreases |all|
  {
    hide Observed, Configured, ConfigMerge, StoreAll, EncodeAll, Acceptable;
    KeepingAllChangesNothing(Observed(r));
    if all == [] {
      NothingIsAcceptable();
    } else {
      var first, rest := all[0], Merged(all[1..]);
      SequenceIsItsMerge(Applied(r, first), all[1..]);
      EncodingIsFaithful(r, first.config);
      ConfigMergeIsMonoid(first.config, rest, KEEP_ALL);
      ConfiguredTwice(Observed(r), first.config, rest);
    }
    EncodingIsFaithful(r, Merged(all));
  }

  lemma NothingIsAcceptable()
    ensures Acceptable(KEEP_ALL)
  {
  }

  /** Registers that look the same keep looking the same, whatever is configured from then on. */
  lemma LookingTheSameIsKept(r: Registers, q: Registers, later: seq<Attempt>)
    requires Observed(r) == Observed(q)
    ensures Observed(AllApplied(r, later)) == Observed(AllApplied(q, later))
  {
    SequenceIsItsMerge(r, later);
    SequenceIsItsMerge(q, later);
  }

  /** Applying two configurations one after the other, and applying their merge, cannot be told apart, at
      once or after any later calls. */
  lemma TwoCallsAreTheirMerge(r: Registers, a: SramConfig, b: SramConfig, later: seq<Attempt>)
    requires Acceptable(a) && Acceptable(b)
    ensures Acceptable(ConfigMerge(a, b))
    ensures Observed(AllApplied(Applied(Applied(r, Attempt(a, 0)), Attempt(b, 0)), later))
            == Observed(AllApplied(Applied(r, Attempt(ConfigMerge(a, b), 0)), later))
  {
    ConfigMergeIsMonoid(a, b, KEEP_ALL);
    hide Observed, Configured, ConfigMerge, StoreAll, EncodeAll, Acceptable, AllApplied;
    var once, twice := Applied(r, Attempt(a, 0)), Applied(Applied(r, Attempt(a, 0)), Attempt(b, 0));
    EncodingIsFaithful(r, a);
    EncodingIsFaithful(once, b);
    EncodingIsFaithful(r, ConfigMerge(a, b));
    ConfiguredTwice(Observed(r), a, b);
    LookingTheSameIsKept(twice, Applied(r, Attempt(ConfigMerge(a, b), 0)), later);
  }

  /** Whether a first reference leaves a trace that the supply, chosen second, does not cover. */
  predicate LeavesTrace(r: ReferenceRegs, a: Option<VoltageReference>, b: Option<VoltageReference>) {
    b == Some(Vdd) && a.Some? && a.value != Vdd && VrmOf(a.value) != r.vrm
  }

  lemma StoreTwice<T>(current: T, a: Option<T>, b: Option<T>)
    ensures Store(Store(current, Encode(a)), Encode(b)) == Store(current, Encode(Merge(a, b)))
  {
  }

  lemma PinsAgree(r: PinRegs, a: SramPin, b: SramPin)
    ensures StorePin(StorePin(r, EncodePin(a)), EncodePin(b)) == StorePin(r, EncodePin(PinMerge(a, b)))
  {
  }

  lemma ReferencesAgreeIff(r: ReferenceRegs, a: Option<VoltageReference>, b: Option<VoltageReference>)
    ensures StoreReference(StoreReference(r, EncodeReference(a)), EncodeReference(b))
            == StoreReference(r, EncodeReference(Merge(a, b)))
            <==> !LeavesTrace(r, a, b)
  {
  }

  /** The registers themselves agree iff neither reference leaves such a trace. */
  lemma RegistersAgreeIff(r: Registers, a: SramConfig, b: SramConfig)
    ensures StoreAll(StoreAll(r, EncodeAll(a)), EncodeAll(b)) == StoreAll(r, EncodeAll(ConfigMerge(a, b)))
            <==> && !LeavesTrace(r.adc, a.adcReference, b.adcReference)
                 && !LeavesTrace(r.dac, a.dacReference, b.dacReference)
  {
    var two, one := StoreAll(StoreAll(r, EncodeAll(a)), EncodeAll(b)), StoreAll(r, EncodeAll(ConfigMerge(a, b)));
    StoreTwice(r.posEdge, a.risingEdge, b.risingEdge);
    StoreTwice(r.negEdge, a.fallingEdge, b.fallingEdge);
    StoreTwice(r.dacValue, a.dacValue, b.dacValue);
    StoreTwice(r.div, a.frequency, b.frequency);
    StoreTwice(r.duty, a.dutyCycle, b.dutyCycle);
    ReferencesAgreeIff(r.adc, a.adcReference, b.adcReference);
    ReferencesAgreeIff(r.dac, a.dacReference, b.dacReference);
    forall i | 0 <= i < 4
      ensures two.gp[i] == one.gp[i]
    {
      PinsAgree(r.gp[i], a.gpio[i], b.gpio[i]);
    }
    hide Store, Encode, Merge, StorePin, EncodePin, PinMerge, StoreReference, EncodeReference, LeavesTrace;
    assert two.gp == one.gp;
  }

  /** They do differ: an internal reference, then the supply. */
  lemma RegistersMayDiffer(r: Registers)
    requires r.adc.vrm == VrmOff
    ensures var a, b := KEEP_ALL.(adcReference := Some(Internal2V048)), KEEP_ALL.(adcReference := Some(Vdd));
            && Applied(Applied(r, Attempt(a, 0)), Attempt(b, 0)).adc == ReferenceRegs(Vrm2048, FromVdd)
            && Applied(r, Attempt(ConfigMerge(a, b), 0)).adc == ReferenceRegs(VrmOff, FromVdd)
  {
  }

  /** Clearing the interrupt flag is an action and not a setting. */
  function FlagAfter(flag: bool, c: SramConfig): bool {
    flag && c.clearFlag != Some(true)
  }

  /** It is the one part of a configuration that a merge can drop: two calls and their merge agree on the
      flag iff it is not set, or the first does not clear it, or the second does not spell out that it
      shall stay. */
  lemma FlagAgreesIff(flag: bool, a: SramConfig, b: SramConfig)
    ensures FlagAfter(FlagAfter(flag, a), b) == FlagAfter(flag, ConfigMerge(a, b))
            <==> !flag || a.clearFlag != Some(true) || b.clearFlag != Some(false)
  {
    match b.clearFlag
    case None =>
    case Some(clears) =>
      assert b.clearFlag == Some(true) || b.clearFlag == Some(false);
  }

  function FlagAfterAll(flag: bool, all: seq<Attempt>): bool
    decreases |all|
  {
    if all == [] then flag
    else FlagAfterAll(if Takes(all[0]) then FlagAfter(flag, all[0].config) else flag, all[1..])
  }

  /** Some call that was neither refused nor failed clears the flag. */
  predicate Clears(all: seq<Attempt>) {
    exists k | 0 <= k < |all| :: Takes(all[k]) && all[k].config.clearFlag == Some(true)
  }

  lemma ClearsFirst(all: seq<Attempt>)
    requires all != []
    ensures Clears(all) <==> (Takes(all[0]) && all[0].config.clearFlag == Some(true)) || Clears(all[1..])
  {
    if Clears(all[1..]) {
      var k :| 0 <= k < |all[1..]| && Takes(all[1..][k]) && all[1..][k].config.clearFlag == Some(true);
      assert Takes(all[k + 1]);
    }
    if Clears(all) {
      var k :| 0 <= k < |all| && Takes(all[k]) && all[k].config.clearFlag == Some(true);
      if k > 0 { assert Takes(all[1..][k - 1]); }
    }
  }

  lemma {:induction false} FlagStaysUnlessCleared(flag: bool, all: seq<Attempt>)
    ensures FlagAfterAll(flag, all) <==> flag && !Clears(all)
    ensures Merged(all).clearFlag == Some(true) ==> Clears(all)
    decreases |all|
  {
    hide Takes, Clears, ConfigMerge;
    if all == [] {
      NothingClears(all);
    } else {
      ClearsFirst(all);
      FlagStaysUnlessCleared(if Takes(all[0]) then FlagAfter(flag, all[0].config) else flag, all[1..]);
      MergedFlag(all[0].config, Merged(all[1..]));
    }
  }

  lemma NothingClears(all: seq<Attempt>)
    requires all == []
    ensures !Clears(all)
  {
  }

  lemma MergedFlag(a: SramConfig, b: SramConfig)
    ensures ConfigMerge(a, b).clearFlag == Merge(a.clearFlag, b.clearFlag)
  {
  }

  /** Any sequence of calls and its merge agree on the flag iff it is not set, or no call that took effect
      clears it, or the merge still does. */
  lemma FlagSequenceAgreesIff(flag: bool, all: seq<Attempt>)
    ensures FlagAfterAll(flag, all) == FlagAfter(flag, Merged(all))
            <==> !flag || !Clears(all) || Merged(all).clearFlag == Some(true)
  {
    hide Clears;
    FlagStaysUnlessCleared(flag, all);
  }
}
