/**
 * The configuration data model of the Glorious Model O: colours, DPI
 * profiles, the polling rate and the bit-flag types shared by the
 * button map and the macro banks.
 */
module Device {
  import opened Wire

  /** An RGB colour; its order on the wire depends on where it appears. */
  datatype Color = Color(r: bv8, g: bv8, b: bv8)

  /** An actual DPI setting: a multiple of 100 from 100 to 25600. */
  type Dpi = v: int | 100 <= v <= 25600 && v % 100 == 0 witness 100

  /** Whether the two axes share one DPI setting or each have their own. */
  datatype DpiValue = Double(x: Dpi, y: Dpi) | Single(dpi: Dpi)

  datatype DpiProfile = DpiProfile(enabled: bool, value: DpiValue, color: Color)

  datatype PollingRate = Hz125 | Hz250 | Hz500 | Hz1000

  /** `PollingRate as u8`. */
  function PollingRateCode(p: PollingRate): (b: bv8)
    ensures 1 <= b <= 4
  {
    match p
    case Hz125 => 1
    case Hz250 => 2
    case Hz500 => 3
    case Hz1000 => 4
  }

  /** `PollingRate::try_from(u8)`: only the codes 1 to 4 name a rate. */
  function PollingRateFromCode(b: bv8): (r: Option<PollingRate>)
    ensures r.Some? <==> 1 <= b <= 4
    ensures r.Some? ==> PollingRateCode(r.value) == b
  {
    match b
    case 1 => Some(Hz125)
    case 2 => Some(Hz250)
    case 3 => Some(Hz500)
    case 4 => Some(Hz1000)
    case _ => None
  }

  /** The codes and the rates correspond one to one. */
  lemma PollingRateCodes(p: PollingRate, b: bv8)
    ensures PollingRateFromCode(PollingRateCode(p)) == Some(p)
    ensures PollingRateFromCode(b) == Some(p) <==> PollingRateCode(p) == b
  {
  }

  /** Mouse buttons as flags: L = 1, R = 2, M = 4, B = 8, F = 16. */
  const MouseButtonBits: bv8 := 0x1f
  type MouseButtons = b: bv8 | b & !MouseButtonBits == 0

  /** Keyboard modifiers as flags: Ctrl = 1, Shift = 2, Alt = 4, Win = 8. */
  const ModifierBits: bv8 := 0x0f
  type Modifiers = b: bv8 | b & !ModifierBits == 0

  /** Flag-set conversion from a byte: defined only when no unknown bit is set. */
  function MouseButtonsFromBits(b: bv8): (r: Option<MouseButtons>)
    ensures r.Some? <==> b & !MouseButtonBits == 0
    ensures r.Some? ==> r.value == b
  {
    if b & !MouseButtonBits == 0 then Some(b) else None
  }

  function ModifiersFromBits(b: bv8): (r: Option<Modifiers>)
    ensures r.Some? <==> b & !ModifierBits == 0
    ensures r.Some? ==> r.value == b
  {
    if b & !ModifierBits == 0 then Some(b) else None
  }

  /**
   * A media-key flag set is held as its 32-bit pattern.  Which bits name
   * media keys is given by `mediaBits`, the union of all defined flags.
   */
  predicate IsDefinedMedia(bits: bv32, mediaBits: bv32)
  {
    bits & !mediaBits == 0
  }
}

/** The lighting effects the mouse can run. */
module Rgb {
  import opened Wire

  datatype Effect =
    | Off | Glorious | SingleColor | Breathing | Tail | SeamlessBreathing
    | ConstantRgb | Rave | Random | Wave | SingleBreathing

  /** `Effect as u8`. */
  function EffectCode(e: Effect): (b: bv8)
    ensures b <= 10
  {
    match e
    case Off => 0
    case Glorious => 1
    case SingleColor => 2
    case Breathing => 3
    case Tail => 4
    case SeamlessBreathing => 5
    case ConstantRgb => 6
    case Rave => 7
    case Random => 8
    case Wave => 9
    case SingleBreathing => 10
  }

  /** `Effect::try_from(u8)`: only the codes 0 to 10 name an effect. */
  function EffectFromCode(b: bv8): (r: Option<Effect>)
    ensures r.Some? <==> b <= 10
    ensures r.Some? ==> EffectCode(r.value) == b
  {
    match b
    case 0 => Some(Off)
    case 1 => Some(Glorious)
    case 2 => Some(SingleColor)
    case 3 => Some(Breathing)
    case 4 => Some(Tail)
    case 5 => Some(SeamlessBreathing)
    case 6 => Some(ConstantRgb)
    case 7 => Some(Rave)
    case 8 => Some(Random)
    case 9 => Some(Wave)
    case 10 => Some(SingleBreathing)
    case _ => None
  }

  /** The codes and the effects correspond one to one. */
  lemma EffectCodes(e: Effect, b: bv8)
    ensures EffectFromCode(EffectCode(e)) == Some(e)
    ensures EffectFromCode(b) == Some(e) <==> EffectCode(e) == b
  {
  }
}

/**
 * The per-effect parameter blocks.  All ten are stored together, whichever
 * effect is active, so that switching effects keeps the others' settings.
 */
module Params {
  import opened Device

  type Speed = bv8
  type Brightness = bv8
  type Direction = bv8

  /** The colour lists hold at most as many colours as their blocks have room for. */
  type BreathingColors = s: seq<Color> | |s| <= 7
  type ConstantRgbColors = s: seq<Color> | |s| <= 6
  type RaveColors = s: seq<Color> | |s| <= 2

  datatype Glorious = Glorious(speed: Speed, direction: Direction)
  datatype SingleColor = SingleColor(brightness: Brightness, color: Color)
  datatype Breathing = Breathing(speed: Speed, count: bv8, colors: BreathingColors)
  datatype Tail = Tail(speed: Speed, brightness: Brightness)
  datatype SeamlessBreathing = SeamlessBreathing(speed: Speed)
  datatype ConstantRgb = ConstantRgb(colors: ConstantRgbColors)
  datatype Rave = Rave(speed: Speed, brightness: Brightness, colors: RaveColors)
  datatype Random = Random(speed: Speed)
  datatype Wave = Wave(speed: Speed, brightness: Brightness)
  datatype SingleBreathing = SingleBreathing(speed: Speed, color: Color)

  datatype EffectParameters = EffectParameters(
    glorious: Glorious,
    singleColor: SingleColor,
    breathing: Breathing,
    tail: Tail,
    seamlessBreathing: SeamlessBreathing,
    constantRgb: ConstantRgb,
    rave: Rave,
    random: Random,
    wave: Wave,
    singleBreathing: SingleBreathing)
}

/** What a button can be remapped to. */
module ButtonMap {
  import opened Device

  type I8 = x: int | -128 <= x < 128

  datatype DpiSwitch = Cycle | Up | Down

  datatype MacroMode = Burst(count: bv8) | RepeatUntilAnotherPress | RepeatUntilRelease

  datatype ButtonAction =
    | MouseButton(buttons: MouseButtons)
    | Scroll(amount: I8)
    | RepeatButton(which: bv8, interval: bv8, count: bv8)
    | DpiSwitch(switch: DpiSwitch)
    | DpiLock(dpi: Dpi)
    | MediaButton(media: bv32)
    | KeyboardShortcut(modifiers: Modifiers, key: bv8)
    | Disabled
    | Macro(bank: bv8, mode: MacroMode)

  /** One action for each of the six physical buttons. */
  type ButtonMapping = s: seq<ButtonAction> | |s| == 6
    witness [Disabled, Disabled, Disabled, Disabled, Disabled, Disabled]
}

/** Recorded macro banks. */
module Macros {
  import opened Device

  datatype State = Down | Up

  datatype EventType = Keyboard(key: bv8) | Modifier(modifiers: Modifiers) | Mouse(buttons: MouseButtons)

  /** The byte an event carries: the key code or the flag bits. */
  function EventCode(t: EventType): bv8
  {
    match t
    case Keyboard(c) => c
    case Modifier(c) => c
    case Mouse(c) => c
  }

  /** One recorded step: a press or release, and the delay in milliseconds. */
  datatype Event = Event(state: State, evtype: EventType, duration: bv16)

  datatype Macro = Macro(bankNumber: bv8, events: seq<Event>)
}
