/**
 * Decoding of the device's reports into typed values.  Every parser reads
 * `inp` from position `at` on and returns the value together with the
 * position just after it, or fails; nothing is ever read past the end.
 */
module Decode {
  import opened Wire
  import opened Device
  import Rgb
  import opened Params
  import opened ButtonMap
  import Macros
  import opened DeviceConfig

  // ---------------------------------------------------------------------
  // Primitives

  /** A byte split into its high and low nibble. */
  function ParseNibblePair(inp: seq<bv8>, at: nat): (r: Parsed<(bv8, bv8)>)
    ensures r.Ok? <==> at < |inp|
    ensures r.Ok? ==> r.value == ((Hi(inp[at]), Lo(inp[at])), at + 1)
  {
    var (b, at) :- Byte(inp, at);
    Ok(((Hi(b), Lo(b)), at))
  }

  /** A colour stored red, green, blue (DPI profile colours). */
  function ParseColorRgb(inp: seq<bv8>, at: nat): (r: Parsed<Color>)
    ensures r.Ok? <==> at + 3 <= |inp|
    ensures r.Ok? ==> r.value == (Color(inp[at], inp[at + 1], inp[at + 2]), at + 3)
  {
    var (red, at) :- Byte(inp, at);
    var (green, at) :- Byte(inp, at);
    var (blue, at) :- Byte(inp, at);
    Ok((Color(red, green, blue), at))
  }

  /** A colour stored red, blue, green (effect-parameter colours). */
  function ParseColorRbg(inp: seq<bv8>, at: nat): (r: Parsed<Color>)
    ensures r.Ok? <==> at + 3 <= |inp|
    ensures r.Ok? ==> r.value == (Color(inp[at], inp[at + 2], inp[at + 1]), at + 3)
  {
    var (red, at) :- Byte(inp, at);
    var (blue, at) :- Byte(inp, at);
    var (green, at) :- Byte(inp, at);
    Ok((Color(red, green, blue), at))
  }

  /** Exactly `n` colours in red, green, blue order. */
  function ParseColorsRgb(inp: seq<bv8>, at: nat, n: nat): (r: Parsed<seq<Color>>)
    requires at <= |inp|
    ensures r.Ok? <==> at + 3 * n <= |inp|
    ensures r.Ok? ==> |r.value.0| == n && r.value.1 == at + 3 * n
    ensures r.Ok? ==> forall i :: 0 <= i < n ==>
      r.value.0[i] == Color(inp[at + 3 * i], inp[at + 3 * i + 1], inp[at + 3 * i + 2])
    decreases n
  {
    if n == 0 then Ok(([], at))
    else
      var (c, at) :- ParseColorRgb(inp, at);
      var (cs, at) :- ParseColorsRgb(inp, at, n - 1);
      Ok(([c] + cs, at))
  }

  /** The colours `cs` are stored from `at` on, each as red, blue, green. */
  predicate RbgColorsAt(inp: seq<bv8>, at: nat, cs: seq<Color>)
  {
    at + 3 * |cs| <= |inp| &&
    forall i :: 0 <= i < |cs| ==> cs[i] == Color(inp[at + 3 * i], inp[at + 3 * i + 2], inp[at + 3 * i + 1])
  }

  /** Exactly `n` colours in red, blue, green order. */
  function ParseColorsRbg(inp: seq<bv8>, at: nat, n: nat): (r: Parsed<seq<Color>>)
    requires at <= |inp|
    ensures r.Ok? <==> at + 3 * n <= |inp|
    ensures r.Ok? ==> |r.value.0| == n && r.value.1 == at + 3 * n
    ensures r.Ok? ==> RbgColorsAt(inp, at, r.value.0)
    decreases n
  {
    if n == 0 then Ok(([], at))
    else
      var (c, at) :- ParseColorRbg(inp, at);
      var (cs, at) :- ParseColorsRbg(inp, at, n - 1);
      Ok(([c] + cs, at))
  }

  /** The polling rate named by a 4-bit code. */
  function ParsePollingRate(code: bv8): (r: Result<PollingRate>)
    ensures r.Ok? <==> 1 <= code <= 4
    ensures r.Ok? ==> PollingRateCode(r.value) == code
    ensures r.Err? ==> r.error == UnknownPollingRate
  {
    match PollingRateFromCode(code)
    case Some(p) => Ok(p)
    case None => Err(UnknownPollingRate)
  }

  /** A raw DPI magnitude byte as an actual DPI value. */
  function DpiDecode(b: bv8): (v: Dpi)
    ensures v / 100 - 1 == b as int
  {
    (b as int + 1) * 100
  }

  /** The byte with only bit `i` set. */
  function Bit(i: nat): bv8
    requires i < 8
  {
    1 << i
  }

  /**
   * The eight DPI profiles.  Profile `i` is enabled when bit `i` of the
   * mask is clear; its value comes from bytes `2i` and `2i + 1` when the
   * axes are independent and from byte `i` otherwise.
   */
  function DpiProfilesFromRaw(indep: bool, mask: bv8, values: seq<bv8>, colors: seq<Color>): (ps: seq<DpiProfile>)
    requires |values| == 16 && |colors| == 8
    ensures |ps| == 8
  {
    seq(8, i requires 0 <= i < 8 => DpiProfile(mask & Bit(i) == 0, DpiValueFromRaw(indep, values, i), colors[i]))
  }

  function DpiValueFromRaw(indep: bool, values: seq<bv8>, i: nat): DpiValue
    requires |values| == 16 && i < 8
  {
    if indep then Double(DpiDecode(values[2 * i]), DpiDecode(values[2 * i + 1]))
    else Single(DpiDecode(values[i]))
  }

  /** The active effect. */
  function ParseEffect(inp: seq<bv8>, at: nat): (r: Parsed<Rgb.Effect>)
    ensures r.Ok? <==> at < |inp| && inp[at] <= 10
    ensures r.Ok? ==> Rgb.EffectCode(r.value.0) == inp[at] && r.value.1 == at + 1
    ensures at < |inp| && inp[at] > 10 ==> r == Err(UnknownEffect)
  {
    var (b, at) :- Byte(inp, at);
    match Rgb.EffectFromCode(b)
    case Some(e) => Ok((e, at))
    case None => Err(UnknownEffect)
  }

  // ---------------------------------------------------------------------
  // Effect-parameter blocks: the speed is the low nibble of the control
  // byte, the brightness its high nibble.

  function ParseGlorious(inp: seq<bv8>, at: nat): (r: Parsed<Glorious>)
    ensures r.Ok? <==> at + 2 <= |inp|
    ensures r.Ok? ==> r.value == (Glorious(Lo(inp[at]), inp[at + 1]), at + 2)
  {
    var (bs, at) :- Byte(inp, at);
    var (dir, at) :- Byte(inp, at);
    Ok((Glorious(bs & 0xf, dir), at))
  }

  function ParseSingleColor(inp: seq<bv8>, at: nat): (r: Parsed<SingleColor>)
    ensures r.Ok? <==> at + 4 <= |inp|
    ensures r.Ok? ==> r.value == (SingleColor(Hi(inp[at]), Color(inp[at + 1], inp[at + 3], inp[at + 2])), at + 4)
  {
    var (bs, at) :- Byte(inp, at);
    var (color, at) :- ParseColorRbg(inp, at);
    Ok((SingleColor(bs >> 4, color), at))
  }

  function ParseBreathing(inp: seq<bv8>, at: nat): (r: Parsed<Breathing>)
    ensures r.Ok? <==> at + 23 <= |inp|
    ensures r.Ok? ==> r.value.1 == at + 23
    ensures r.Ok? ==> var p := r.value.0;
      p.speed == Lo(inp[at]) && p.count == inp[at + 1] && |p.colors| == 7
    ensures r.Ok? ==> RbgColorsAt(inp, at + 2, r.value.0.colors)
  {
    var (bs, at) :- Byte(inp, at);
    var (count, at) :- Byte(inp, at);
    var (colors, at) :- ParseColorsRbg(inp, at, 7);
    Ok((Breathing(bs & 0xf, count, colors), at))
  }

  function ParseTail(inp: seq<bv8>, at: nat): (r: Parsed<Tail>)
    ensures r.Ok? <==> at < |inp|
    ensures r.Ok? ==> r.value == (Tail(Lo(inp[at]), Hi(inp[at])), at + 1)
  {
    var (bs, at) :- Byte(inp, at);
    Ok((Tail(bs & 0xf, bs >> 4), at))
  }

  function ParseSeamlessBreathing(inp: seq<bv8>, at: nat): (r: Parsed<SeamlessBreathing>)
    ensures r.Ok? <==> at < |inp|
    ensures r.Ok? ==> r.value == (SeamlessBreathing(Lo(inp[at])), at + 1)
  {
    var (bs, at) :- Byte(inp, at);
    Ok((SeamlessBreathing(bs & 0xf), at))
  }

  /** The control byte of this block is read and ignored. */
  function ParseConstantRgb(inp: seq<bv8>, at: nat): (r: Parsed<ConstantRgb>)
    ensures r.Ok? <==> at + 19 <= |inp|
    ensures r.Ok? ==> r.value.1 == at + 19 && |r.value.0.colors| == 6
    ensures r.Ok? ==> RbgColorsAt(inp, at + 1, r.value.0.colors)
  {
    var (_, at) :- Byte(inp, at);
    var (colors, at) :- ParseColorsRbg(inp, at, 6);
    Ok((ConstantRgb(colors), at))
  }

  function ParseRave(inp: seq<bv8>, at: nat): (r: Parsed<Rave>)
    ensures r.Ok? <==> at + 7 <= |inp|
    ensures r.Ok? ==> r.value.1 == at + 7
    ensures r.Ok? ==> var p := r.value.0;
      p.speed == Lo(inp[at]) && p.brightness == Hi(inp[at]) && |p.colors| == 2
    ensures r.Ok? ==> RbgColorsAt(inp, at + 1, r.value.0.colors)
  {
    var (bs, at) :- Byte(inp, at);
    var (colors, at) :- ParseColorsRbg(inp, at, 2);
    Ok((Rave(bs & 0xf, bs >> 4, colors), at))
  }

  function ParseRandom(inp: seq<bv8>, at: nat): (r: Parsed<Random>)
    ensures r.Ok? <==> at < |inp|
    ensures r.Ok? ==> r.value == (Random(Lo(inp[at])), at + 1)
  {
    var (bs, at) :- Byte(inp, at);
    Ok((Random(bs & 0xf), at))
  }

  function ParseWave(inp: seq<bv8>, at: nat): (r: Parsed<Wave>)
    ensures r.Ok? <==> at < |inp|
    ensures r.Ok? ==> r.value == (Wave(Lo(inp[at]), Hi(inp[at])), at + 1)
  {
    var (bs, at) :- Byte(inp, at);
    Ok((Wave(bs & 0xf, bs >> 4), at))
  }

  function ParseSingleBreathing(inp: seq<bv8>, at: nat): (r: Parsed<SingleBreathing>)
    ensures r.Ok? <==> at + 4 <= |inp|
    ensures r.Ok? ==> r.value == (SingleBreathing(Lo(inp[at]), Color(inp[at + 1], inp[at + 3], inp[at + 2])), at + 4)
  {
    var (bs, at) :- Byte(inp, at);
    var (color, at) :- ParseColorRbg(inp, at);
    Ok((SingleBreathing(bs & 0xf, color), at))
  }

  // ---------------------------------------------------------------------
  // The configuration report

  /** Number of bytes of a configuration report that carry the configuration. */
  const ConfigLength: nat := 131

  /**
   * The ten parameter blocks in their fixed order, with the 12 unknown
   * bytes that sit between the constant-RGB and the rave block: 75 bytes.
   */
  function ParseEffectBlocks(inp: seq<bv8>, at: nat): (r: Parsed<(EffectParameters, seq<bv8>)>)
    ensures r.Ok? <==> at + 75 <= |inp|
    ensures r.Ok? ==> r.value.1 == at + 75 && |r.value.0.1| == 12
  {
    var (glorious, at) :- ParseGlorious(inp, at);
    var (singleColor, at) :- ParseSingleColor(inp, at);
    var (breathing, at) :- ParseBreathing(inp, at);
    var (tail, at) :- ParseTail(inp, at);
    var (seamlessBreathing, at) :- ParseSeamlessBreathing(inp, at);
    var (constantRgb, at) :- ParseConstantRgb(inp, at);
    var (unknown, at) :- Take(inp, at, 12);
    var (rave, at) :- ParseRave(inp, at);
    var (random, at) :- ParseRandom(inp, at);
    var (wave, at) :- ParseWave(inp, at);
    var (singleBreathing, at) :- ParseSingleBreathing(inp, at);
    Ok(((EffectParameters(glorious, singleColor, breathing, tail, seamlessBreathing,
                          constantRgb, rave, random, wave, singleBreathing), unknown), at))
  }

  /** The DPI settings of a configuration report, as they are read. */
  datatype DpiSettings = DpiSettings(
    axesIndependent: bool,
    pollingRate: PollingRate,
    currentProfile: bv8,
    profileCount: bv8,
    profiles: DpiProfiles)

  /** The lighting settings of a configuration report, as they are read. */
  datatype Lighting = Lighting(effect: Rgb.Effect, params: EffectParameters, gap: UnknownBytes)

  /**
   * The DPI settings `s` are what bytes `at` to `at + 42` hold: any non-zero
   * high nibble of the first byte sets the axes apart, its low nibble is the
   * polling rate's code, the next byte holds the current profile and the
   * profile count, and the profiles come from the mask, the 16-byte region
   * and the eight R,G,B colours after it.
   */
  predicate DpiSettingsRead(inp: seq<bv8>, at: nat, s: DpiSettings)
  {
    && at + 43 <= |inp|
    && s.axesIndependent == (Hi(inp[at]) > 0)
    && PollingRateCode(s.pollingRate) == Lo(inp[at])
    && s.currentProfile == Hi(inp[at + 1])
    && s.profileCount == Lo(inp[at + 1])
    && s.profiles == DpiProfilesFromRaw(Hi(inp[at]) > 0, inp[at + 2], inp[at + 3..at + 19],
                                        StoredProfileColors(inp, at + 19))
  }

  /** The eight profile colours stored from `at` on, each as red, green, blue. */
  function StoredProfileColors(inp: seq<bv8>, at: nat): (cs: seq<Color>)
    requires at + 24 <= |inp|
    ensures |cs| == 8
  {
    seq(8, i requires 0 <= i < 8 => Color(inp[at + 3 * i], inp[at + 3 * i + 1], inp[at + 3 * i + 2]))
  }

  /** Reading eight R,G,B colours gives the stored profile colours. */
  lemma StoredColorsRead(inp: seq<bv8>, at: nat)
    requires at + 24 <= |inp|
    ensures ParseColorsRgb(inp, at, 8) == Ok((StoredProfileColors(inp, at), at + 24))
  {
    var cs := ParseColorsRgb(inp, at, 8).value.0;
    assert forall i :: 0 <= i < 8 ==> cs[i] == StoredProfileColors(inp, at)[i];
    assert cs == StoredProfileColors(inp, at);
  }

  /**
   * Bytes 10 to 52 of a configuration report: the axes flag and the
   * polling rate, the current profile and the profile count, the enable
   * mask, the 16-byte DPI region and the eight profile colours.  It fails
   * when the input is too short or the polling-rate code is not 1 to 4.
   */
  function ParseDpiSettings(inp: seq<bv8>, at: nat): (r: Parsed<DpiSettings>)
    ensures r.Ok? <==> at + 43 <= |inp| && 1 <= Lo(inp[at]) <= 4
    ensures r.Ok? ==> r.value.1 == at + 43
    ensures at + 43 <= |inp| && !(1 <= Lo(inp[at]) <= 4) ==> r == Err(UnknownPollingRate)
    ensures r.Ok? ==> DpiSettingsRead(inp, at, r.value.0)
  {
    var ((indep, rate), next) :- ParseNibblePair(inp, at);
    var pollingRate :- ParsePollingRate(rate);
    var ((dpiCurrent, dpiCount), next) :- ParseNibblePair(inp, next);
    var (mask, next) :- Byte(inp, next);
    var (dpiValues, next) :- Take(inp, next, 16);
    var (dpiColors, next) :- ParseColorsRgb(inp, next, 8);
    StoredColorsRead(inp, at + 19);
    var dpiProfiles := DpiProfilesFromRaw(indep > 0, mask, dpiValues, dpiColors);
    var s := DpiSettings(indep > 0, pollingRate, dpiCurrent, dpiCount, dpiProfiles);
    assert DpiSettingsRead(inp, at, s);
    Ok((s, next))
  }

  /**
   * Bytes 53 to 128 of a configuration report: the effect selector and the
   * parameter blocks.  It fails when the input is too short or the effect
   * code is above 10.
   */
  function ParseLighting(inp: seq<bv8>, at: nat): (r: Parsed<Lighting>)
    ensures r.Ok? <==> at + 76 <= |inp| && inp[at] <= 10
    ensures r.Ok? ==> r.value.1 == at + 76
    ensures at + 76 <= |inp| && inp[at] > 10 ==> r == Err(UnknownEffect)
    ensures r.Ok? ==> Rgb.EffectCode(r.value.0.effect) == inp[at]
    ensures r.Ok? ==> ParseEffectBlocks(inp, at + 1) == Ok(((r.value.0.params, r.value.0.gap), at + 76))
  {
    var (effect, at) :- ParseEffect(inp, at);
    var ((params, gap), at) :- ParseEffectBlocks(inp, at);
    Ok((Lighting(effect, params, gap), at))
  }

  /**
   * The configuration `c` is what the 131 bytes of a report hold: the
   * header is bytes 0 to 8 and the sensor id byte 9, the DPI settings are
   * those `ParseDpiSettings` reads from byte 10 on (`DpiSettingsRead`), the effect code is byte 53 and the parameter
   * blocks and the gap are read from byte 54 on, and the lift-off distance
   * and the trailing byte are bytes 129 and 130.
   */
  predicate ConfigRead(inp: seq<bv8>, c: Config)
  {
    && ConfigLength <= |inp|
    && c.header == inp[..9]
    && c.sensorId == inp[9]
    && ParseDpiSettings(inp, 10) == Ok((DpiSettings(c.dpiAxesIndependent, c.pollingRate, c.dpiCurrentProfile,
                                                     c.dpiProfileCount, c.dpiProfiles), 53))
    && Rgb.EffectCode(c.rgbCurrentEffect) == inp[53]
    && ParseEffectBlocks(inp, 54) == Ok(((c.rgbEffectParameters, c.unknown.0), 129))
    && c.lod == inp[129]
    && c.unknown.1 == inp[130]
  }

  /**
   * The configuration report, read from its first byte.  It fails exactly
   * when the input is shorter than 131 bytes, the polling-rate code is not
   * 1 to 4 or the effect code is above 10, and otherwise reads exactly 131
   * bytes.
   */
  function ParseConfigReport(inp: seq<bv8>): (r: Parsed<Config>)
    ensures r.Ok? <==> ConfigLength <= |inp| && 1 <= Lo(inp[10]) <= 4 && inp[53] <= 10
    ensures r.Ok? ==> r.value.1 == ConfigLength
    ensures ConfigLength <= |inp| && !(1 <= Lo(inp[10]) <= 4) ==> r == Err(UnknownPollingRate)
    ensures ConfigLength <= |inp| && 1 <= Lo(inp[10]) <= 4 && inp[53] > 10 ==> r == Err(UnknownEffect)
    ensures r.Ok? ==> ConfigRead(inp, r.value.0)
  {
    var (header, next) :- Take(inp, 0, 9);
    var (sensorId, next) :- Byte(inp, next);
    var (dpi, next) :- ParseDpiSettings(inp, next);
    var (lighting, next) :- ParseLighting(inp, next);
    var (lod, next) :- Byte(inp, next);
    var (trailer, next) :- Byte(inp, next);
    var c := Config(header, sensorId, dpi.axesIndependent, dpi.pollingRate, dpi.currentProfile,
                    dpi.profileCount, dpi.profiles, lighting.effect, lighting.params,
                    (lighting.gap, trailer), lod);
    Ok((c, next))
  }

  // ---------------------------------------------------------------------
  // The button map

  /** A byte read as mouse-button flags; unknown bits are rejected. */
  function ParseMouseButtons(inp: seq<bv8>, at: nat): (r: Parsed<MouseButtons>)
    ensures r.Ok? <==> at < |inp| && inp[at] & !MouseButtonBits == 0
    ensures r.Ok? ==> r.value == (inp[at], at + 1)
  {
    var (b, at) :- Byte(inp, at);
    match MouseButtonsFromBits(b)
    case Some(m) => Ok((m, at))
    case None => Err(UnknownMouseButton)
  }

  /** A byte read as modifier flags; unknown bits are rejected. */
  function ParseModifiers(inp: seq<bv8>, at: nat): (r: Parsed<Modifiers>)
    ensures r.Ok? <==> at < |inp| && inp[at] & !ModifierBits == 0
    ensures r.Ok? ==> r.value == (inp[at], at + 1)
  {
    var (b, at) :- Byte(inp, at);
    match ModifiersFromBits(b)
    case Some(m) => Ok((m, at))
    case None => Err(UnknownModifier)
  }

  /** Three bytes as one big-endian 24-bit value. */
  function Media24(b0: bv8, b1: bv8, b2: bv8): (v: bv32)
    ensures v < 0x100_0000
    ensures (v >> 16) as bv8 == b0 && ((v >> 8) & 0xff) as bv8 == b1 && (v & 0xff) as bv8 == b2
  {
    ((b0 as bv32) << 16) | ((b1 as bv32) << 8) | (b2 as bv32)
  }

  /** A media-key flag set stored in three big-endian bytes. */
  function ParseMediaButton(inp: seq<bv8>, at: nat, mediaBits: bv32): (r: Parsed<bv32>)
    ensures r.Ok? <==> at + 3 <= |inp| && IsDefinedMedia(Media24(inp[at], inp[at + 1], inp[at + 2]), mediaBits)
    ensures r.Ok? ==> r.value == (Media24(inp[at], inp[at + 1], inp[at + 2]), at + 3)
    ensures r.Ok? ==> r.value.0 < 0x100_0000
    ensures at + 3 <= |inp| && !IsDefinedMedia(Media24(inp[at], inp[at + 1], inp[at + 2]), mediaBits) ==>
      r == Err(UnknownMediaBitmask)
  {
    var (v, at) :- Take(inp, at, 3);
    var value := Media24(v[0], v[1], v[2]);
    if IsDefinedMedia(value, mediaBits) then Ok((value, at)) else Err(UnknownMediaBitmask)
  }

  /** A byte read as a two's-complement signed byte. */
  function ScrollFromByte(b: bv8): (x: I8)
    ensures 0 <= x ==> x == b as int
    ensures x < 0 ==> x + 256 == b as int
  {
    var n := b as int;
    if n < 128 then n else n - 256
  }

  /** The tags of the nine kinds of button action. */
  predicate KnownActionTag(tag: bv8)
  {
    tag == 0x11 || tag == 0x12 || tag == 0x31 || tag == 0x41 || tag == 0x42 ||
    tag == 0x22 || tag == 0x21 || tag == 0x50 || tag == 0x70
  }

  /** The four bytes of a slot from `at` on hold an action the decoder accepts. */
  predicate ValidSlot(inp: seq<bv8>, at: nat, mediaBits: bv32)
    requires at + 4 <= |inp|
  {
    var tag := inp[at];
    if tag == 0x11 then inp[at + 1] & !MouseButtonBits == 0
    else if tag == 0x12 || tag == 0x31 || tag == 0x42 || tag == 0x50 then true
    else if tag == 0x41 then inp[at + 1] <= 2
    else if tag == 0x22 then IsDefinedMedia(Media24(inp[at + 1], inp[at + 2], inp[at + 3]), mediaBits)
    else if tag == 0x21 then inp[at + 1] & !ModifierBits == 0
    else if tag == 0x70 then inp[at + 2] == 1 || inp[at + 2] == 2 || inp[at + 2] == 4
    else false
  }

  /**
   * The action a valid slot holds, from its significant bytes only: the
   * bytes a kind of action does not use are not read.
   */
  function SlotAction(inp: seq<bv8>, at: nat, mediaBits: bv32): ButtonAction
    requires at + 4 <= |inp| && ValidSlot(inp, at, mediaBits)
  {
    var tag, b1, b2, b3 := inp[at], inp[at + 1], inp[at + 2], inp[at + 3];
    if tag == 0x11 then MouseButton(b1)
    else if tag == 0x12 then Scroll(ScrollFromByte(b1))
    else if tag == 0x31 then RepeatButton(b1, b2, b3)
    else if tag == 0x41 then DpiSwitch(if b1 == 0x01 then Up else if b1 == 0x02 then Down else Cycle)
    else if tag == 0x42 then DpiLock(DpiDecode(b1))
    else if tag == 0x22 then MediaButton(Media24(b1, b2, b3))
    else if tag == 0x21 then KeyboardShortcut(b1, b2)
    else if tag == 0x50 then Disabled
    else Macro(b1, if b2 == 0x01 then Burst(b3) else if b2 == 0x02 then RepeatUntilAnotherPress else RepeatUntilRelease)
  }

  /**
   * One 4-byte button slot, dispatched on its first byte.  A keyboard
   * shortcut's key is read from the third byte of the slot, where the
   * encoder writes it.
   */
  function ParseButtonAction(inp: seq<bv8>, at: nat, mediaBits: bv32): (r: Parsed<ButtonAction>)
    ensures r.Ok? <==> at + 4 <= |inp| && ValidSlot(inp, at, mediaBits)
    ensures r.Ok? ==> r.value.1 == at + 4
    ensures at < |inp| && !KnownActionTag(inp[at]) ==> r == Err(UnknownActionTag)
  {
    var (tag, at) :- Byte(inp, at);
    if tag == 0x11 then
      var (buttons, at) :- ParseMouseButtons(inp, at);
      var (_, at) :- Take(inp, at, 2);
      Ok((MouseButton(buttons), at))
    else if tag == 0x12 then
      var (v, at) :- Take(inp, at, 3);
      Ok((Scroll(ScrollFromByte(v[0])), at))
    else if tag == 0x31 then
      var (which, at) :- Byte(inp, at);
      var (v, at) :- Take(inp, at, 2);
      Ok((RepeatButton(which, v[0], v[1]), at))
    else if tag == 0x41 then
      var (mode, at) :- Byte(inp, at);
      var switch :-
        if mode == 0x01 then Ok(Up)
        else if mode == 0x02 then Ok(Down)
        else if mode == 0x00 then Ok(Cycle)
        else Err(UnknownDpiSwitch);
      var (_, at) :- Take(inp, at, 2);
      Ok((DpiSwitch(switch), at))
    else if tag == 0x42 then
      var (v, at) :- Take(inp, at, 3);
      Ok((DpiLock(DpiDecode(v[0])), at))
    else if tag == 0x22 then
      var (media, at) :- ParseMediaButton(inp, at, mediaBits);
      Ok((MediaButton(media), at))
    else if tag == 0x21 then
      var (modifiers, at) :- ParseModifiers(inp, at);
      var (v, at) :- Take(inp, at, 2);
      Ok((KeyboardShortcut(modifiers, v[0]), at))
    else if tag == 0x50 then
      var (_, at) :- Take(inp, at, 3);
      Ok((Disabled, at))
    else if tag == 0x70 then
      var (bank, at) :- Byte(inp, at);
      var (selector, at) :- Byte(inp, at);
      if selector == 0x01 then
        var (count, at) :- Byte(inp, at);
        Ok((Macro(bank, Burst(count)), at))
      else if selector == 0x02 then
        var (_, at) :- Byte(inp, at);
        Ok((Macro(bank, RepeatUntilAnotherPress), at))
      else if selector == 0x04 then
        var (_, at) :- Byte(inp, at);
        Ok((Macro(bank, RepeatUntilRelease), at))
      else Err(UnknownMacroMode)
    else Err(UnknownActionTag)
  }

  /**
   * A decoded slot is the action its significant bytes hold, whatever the
   * bytes the action does not use contain.
   */
  lemma ButtonActionRead(inp: seq<bv8>, at: nat, mediaBits: bv32)
    requires ParseButtonAction(inp, at, mediaBits).Ok?
    ensures at + 4 <= |inp| && ValidSlot(inp, at, mediaBits)
    ensures ParseButtonAction(inp, at, mediaBits).value.0 == SlotAction(inp, at, mediaBits)
  {
    var tag := inp[at];
    if tag == 0x11 {
    } else if tag == 0x12 {
    } else if tag == 0x31 {
    } else if tag == 0x41 {
    } else if tag == 0x42 {
    } else if tag == 0x22 {
    } else if tag == 0x21 {
    } else if tag == 0x50 {
    } else {
    }
  }

  /**
   * A keyboard-shortcut slot as the source's decoder reads it: the key is
   * taken from the fourth byte of the slot, not the third, where the
   * encoder puts it.
   */
  function ParseShortcutAsWritten(inp: seq<bv8>, at: nat): (r: Parsed<ButtonAction>)
    requires at < |inp| && inp[at] == 0x21
    ensures r.Ok? <==> at + 4 <= |inp| && inp[at + 1] & !ModifierBits == 0
    ensures r.Ok? ==> r.value == (KeyboardShortcut(inp[at + 1], inp[at + 3]), at + 4)
  {
    var (modifiers, at) :- ParseModifiers(inp, at + 1);
    var (v, at) :- Take(inp, at, 2);
    Ok((KeyboardShortcut(modifiers, v[1]), at))
  }

  /** Exactly `n` consecutive button slots. */
  function ParseButtonActions(inp: seq<bv8>, at: nat, n: nat, mediaBits: bv32): (r: Parsed<seq<ButtonAction>>)
    requires at <= |inp|
    ensures r.Ok? ==> |r.value.0| == n && r.value.1 == at + 4 * n
    decreases n
  {
    if n == 0 then Ok(([], at))
    else
      var (a, at) :- ParseButtonAction(inp, at, mediaBits);
      var (rest, at) :- ParseButtonActions(inp, at, n - 1, mediaBits);
      Ok(([a] + rest, at))
  }

  /** A run of slots is accepted exactly when it fits and every slot in it is valid. */
  lemma {:induction false} ButtonActionsAccepted(inp: seq<bv8>, at: nat, n: nat, mediaBits: bv32)
    requires at <= |inp|
    ensures ParseButtonActions(inp, at, n, mediaBits).Ok? <==>
      at + 4 * n <= |inp| && forall k :: 0 <= k < n ==> ValidSlot(inp, at + 4 * k, mediaBits)
    decreases n
  {
    if n > 0 {
      SlotsSplit(inp, at, n, mediaBits);
      if ParseButtonAction(inp, at, mediaBits).Ok? {
        ButtonActionsAccepted(inp, at + 4, n - 1, mediaBits);
      }
    }
  }

  /** Slot `k` of a decoded run is the action the slot at `at + 4k` decodes to. */
  lemma {:induction false} ButtonActionsElements(inp: seq<bv8>, at: nat, n: nat, mediaBits: bv32)
    requires at <= |inp| && ParseButtonActions(inp, at, n, mediaBits).Ok?
    ensures var actions := ParseButtonActions(inp, at, n, mediaBits).value.0;
      forall k :: 0 <= k < n ==> ParseButtonAction(inp, at + 4 * k, mediaBits) == Ok((actions[k], (at + 4 * k + 4) as nat))
    decreases n
  {
    if n > 0 {
      var first := ParseButtonAction(inp, at, mediaBits).value.0;
      var rest := ParseButtonActions(inp, at + 4, n - 1, mediaBits).value.0;
      assert ParseButtonActions(inp, at, n, mediaBits).value.0 == [first] + rest;
      ButtonActionsElements(inp, at + 4, n - 1, mediaBits);
      forall k | 0 <= k < n
        ensures ParseButtonAction(inp, at + 4 * k, mediaBits) == Ok((([first] + rest)[k], (at + 4 * k + 4) as nat))
      {
        if k > 0 {
          assert at + 4 * k == at + 4 + 4 * (k - 1);
        }
      }
    }
  }

  lemma SlotsSplit(inp: seq<bv8>, at: nat, n: nat, mediaBits: bv32)
    requires 0 < n
    ensures at + 4 * n <= |inp| ==>
      ((forall k :: 0 <= k < n ==> ValidSlot(inp, at + 4 * k, mediaBits)) <==>
       ValidSlot(inp, at, mediaBits) && forall k :: 0 <= k < n - 1 ==> ValidSlot(inp, at + 4 + 4 * k, mediaBits))
  {
    if at + 4 * n <= |inp| {
      if ValidSlot(inp, at, mediaBits) && forall k :: 0 <= k < n - 1 ==> ValidSlot(inp, at + 4 + 4 * k, mediaBits) {
        forall k | 0 <= k < n ensures ValidSlot(inp, at + 4 * k, mediaBits) {
          if k > 0 {
            assert at + 4 * k == at + 4 + 4 * (k - 1);
          }
        }
      }
      if forall k :: 0 <= k < n ==> ValidSlot(inp, at + 4 * k, mediaBits) {
        assert ValidSlot(inp, at + 4 * 0, mediaBits);
        forall k | 0 <= k < n - 1 ensures ValidSlot(inp, at + 4 + 4 * k, mediaBits) {
          assert at + 4 + 4 * k == at + 4 * (k + 1);
        }
      }
    }
  }

  /**
   * The button-map report: an 8-byte header that is skipped, then the six
   * slots.  It reads exactly 32 bytes.
   */
  function ParseButtonmap(inp: seq<bv8>, mediaBits: bv32): (r: Parsed<ButtonMapping>)
    ensures r.Ok? ==> 32 <= |inp| && r.value.1 == 32
  {
    var (_, at) :- Take(inp, 0, 8);
    var (actions, at) :- ParseButtonActions(inp, at, 6, mediaBits);
    var mapping: ButtonMapping := actions;
    Ok((mapping, at))
  }

  /** A button-map report is accepted exactly when it has 32 bytes and its six slots are valid. */
  lemma ButtonmapAccepted(inp: seq<bv8>, mediaBits: bv32)
    ensures ParseButtonmap(inp, mediaBits).Ok? <==>
      32 <= |inp| && forall k :: 0 <= k < 6 ==> ValidSlot(inp, 8 + 4 * k, mediaBits)
  {
    if 8 <= |inp| {
      ButtonActionsAccepted(inp, 8, 6, mediaBits);
    }
  }

  // ---------------------------------------------------------------------
  // Macro banks

  /** The three bytes from `at` on hold an event the decoder accepts. */
  predicate ValidEventRecord(inp: seq<bv8>, at: nat)
    requires at + 3 <= |inp|
  {
    var typ := (inp[at] >> 4) & 7;
    (typ == 1 && inp[at + 2] & !MouseButtonBits == 0) ||
    typ == 5 ||
    (typ == 6 && inp[at + 2] & !ModifierBits == 0)
  }

  /**
   * One macro event: bit 7 of the first byte is the state (set means up),
   * bits 4 to 6 the type, the low nibble and the second byte a 12-bit
   * duration, and the third byte the type's code.
   */
  function ParseEvent(inp: seq<bv8>, at: nat): (r: Parsed<Macros.Event>)
    ensures r.Ok? <==> at + 3 <= |inp| && ValidEventRecord(inp, at)
    ensures r.Ok? ==> r.value.1 == at + 3
    ensures r.Ok? ==> var e := r.value.0;
      && (e.state == Macros.Up <==> inp[at] & 0x80 != 0)
      && e.duration < 4096
      && e.duration == (((inp[at] & 0xf) as bv16) << 8) | (inp[at + 1] as bv16)
      && (e.evtype.Mouse? <==> (inp[at] >> 4) & 7 == 1)
      && (e.evtype.Keyboard? <==> (inp[at] >> 4) & 7 == 5)
      && (e.evtype.Modifier? <==> (inp[at] >> 4) & 7 == 6)
      && Macros.EventCode(e.evtype) == inp[at + 2]
  {
    var (head, at) :- Take(inp, at, 2);
    var state := head[0] >> 7;
    var typ := (head[0] >> 4) & 7;
    var duration := (((head[0] & 0xf) as bv16) << 8) | (head[1] as bv16);
    var st := if state == 0 then Macros.Down else Macros.Up;
    if typ == 0x01 then
      var (buttons, at) :- ParseMouseButtons(inp, at);
      Ok((Macros.Event(st, Macros.Mouse(buttons), duration), at))
    else if typ == 0x05 then
      var (key, at) :- Byte(inp, at);
      Ok((Macros.Event(st, Macros.Keyboard(key), duration), at))
    else if typ == 0x06 then
      var (modifiers, at) :- ParseModifiers(inp, at);
      Ok((Macros.Event(st, Macros.Modifier(modifiers), duration), at))
    else Err(UnknownEventType)
  }

  /** Exactly `n` consecutive events. */
  function ParseEvents(inp: seq<bv8>, at: nat, n: nat): (r: Parsed<seq<Macros.Event>>)
    requires at <= |inp|
    ensures r.Ok? ==> |r.value.0| == n && r.value.1 == at + 3 * n
    decreases n
  {
    if n == 0 then Ok(([], at))
    else
      var (e, at) :- ParseEvent(inp, at);
      var (rest, at) :- ParseEvents(inp, at, n - 1);
      Ok(([e] + rest, at))
  }

  /** A run of events is accepted exactly when it fits and every record in it is valid. */
  lemma {:induction false} EventsAccepted(inp: seq<bv8>, at: nat, n: nat)
    requires at <= |inp|
    ensures ParseEvents(inp, at, n).Ok? <==>
      at + 3 * n <= |inp| && forall k :: 0 <= k < n ==> ValidEventRecord(inp, at + 3 * k)
    decreases n
  {
    if n > 0 {
      EventsSplit(inp, at, n);
      if ParseEvent(inp, at).Ok? {
        EventsAccepted(inp, at + 3, n - 1);
      }
    }
  }

  /** Event `k` of a decoded run is the event the record at `at + 3k` decodes to. */
  lemma {:induction false} EventsElements(inp: seq<bv8>, at: nat, n: nat)
    requires at <= |inp| && ParseEvents(inp, at, n).Ok?
    ensures var es := ParseEvents(inp, at, n).value.0;
      forall k :: 0 <= k < n ==> ParseEvent(inp, at + 3 * k) == Ok((es[k], (at + 3 * k + 3) as nat))
    decreases n
  {
    if n > 0 {
      var first := ParseEvent(inp, at).value.0;
      var rest := ParseEvents(inp, at + 3, n - 1).value.0;
      assert ParseEvents(inp, at, n).value.0 == [first] + rest;
      EventsElements(inp, at + 3, n - 1);
      forall k | 0 <= k < n
        ensures ParseEvent(inp, at + 3 * k) == Ok((([first] + rest)[k], (at + 3 * k + 3) as nat))
      {
        if k > 0 {
          assert at + 3 * k == at + 3 + 3 * (k - 1);
        }
      }
    }
  }

  lemma EventsSplit(inp: seq<bv8>, at: nat, n: nat)
    requires 0 < n
    ensures at + 3 * n <= |inp| ==>
      ((forall k :: 0 <= k < n ==> ValidEventRecord(inp, at + 3 * k)) <==>
       ValidEventRecord(inp, at) && forall k :: 0 <= k < n - 1 ==> ValidEventRecord(inp, at + 3 + 3 * k))
  {
    if at + 3 * n <= |inp| {
      if ValidEventRecord(inp, at) && forall k :: 0 <= k < n - 1 ==> ValidEventRecord(inp, at + 3 + 3 * k) {
        forall k | 0 <= k < n ensures ValidEventRecord(inp, at + 3 * k) {
          if k > 0 {
            assert at + 3 * k == at + 3 + 3 * (k - 1);
          }
        }
      }
      if forall k :: 0 <= k < n ==> ValidEventRecord(inp, at + 3 * k) {
        assert ValidEventRecord(inp, at + 3 * 0);
        forall k | 0 <= k < n - 1 ensures ValidEventRecord(inp, at + 3 + 3 * k) {
          assert at + 3 + 3 * k == at + 3 * (k + 1);
        }
      }
    }
  }

  /**
   * A macro-bank record: an 8-byte header, the bank number, a reserved
   * byte, the event count and that many events.
   */
  function ParseMacro(inp: seq<bv8>): (r: Parsed<Macros.Macro>)
    ensures r.Ok? ==> 11 <= |inp| && r.value.0.bankNumber == inp[8]
    ensures r.Ok? ==> |r.value.0.events| == inp[10] as int && r.value.1 == 11 + 3 * inp[10] as int
  {
    var (_, at) :- Take(inp, 0, 8);
    var (bank, at) :- Byte(inp, at);
    var (_, at) :- Byte(inp, at);
    var (count, at) :- Byte(inp, at);
    var (events, at) :- ParseEvents(inp, at, count as nat);
    Ok((Macros.Macro(bank, events), at))
  }

  /** A bank record is accepted exactly when its count of events fit and every one of them is valid. */
  lemma MacroAccepted(inp: seq<bv8>)
    ensures ParseMacro(inp).Ok? <==>
      && 11 <= |inp|
      && 11 + 3 * inp[10] as int <= |inp|
      && forall k :: 0 <= k < inp[10] as int ==> ValidEventRecord(inp, 11 + 3 * k)
  {
    if 11 <= |inp| {
      EventsAccepted(inp, 11, inp[10] as nat);
    }
  }
}
