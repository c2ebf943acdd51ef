/**
 * Encoding of typed values into the device's reports.  Each encoder
 * appends to a growing byte buffer; the reports are that buffer padded
 * with zeros to 520 bytes.  Next to every encoding method stands the
 * function that gives the bytes it appends.
 */
module Encode {
  import opened Wire
  import opened Device
  import Rgb
  import opened Params
  import opened ButtonMap
  import Macros
  import opened DeviceConfig

  // ---------------------------------------------------------------------
  // The bytes each encoder appends

  function RgbBytes(c: Color): seq<bv8>
  {
    [c.r, c.g, c.b]
  }

  function RbgBytes(c: Color): seq<bv8>
  {
    [c.r, c.b, c.g]
  }

  /** The raw magnitude byte of an actual DPI value: the `b` with `(b + 1) * 100 == v`. */
  function DpiEncode(v: Dpi): (b: bv8)
    ensures (b as int + 1) * 100 == v
  {
    ByteOf(v / 100 - 1)
  }

  /**
   * The byte the source's encoder writes for a stored DPI value: it puts
   * the stored number itself, which is the decoded DPI, into one byte.
   */
  function DpiByteAsWritten(v: Dpi): (b: bv8)
    ensures b as int == v % 256
  {
    ByteOf(v % 256)
  }

  // The control bytes: speed in the low nibble, brightness in the high
  // nibble; 0x40 is the brightness the firmware expects for effects that
  // have none.

  function GloriousBytes(p: Glorious): seq<bv8>
  {
    [p.speed | 0x40, p.direction]
  }

  function SingleColorBytes(p: SingleColor): seq<bv8>
  {
    [p.brightness << 4] + RbgBytes(p.color)
  }

  function BreathingBytes(p: Breathing): seq<bv8>
  {
    [p.speed | 0x40, p.count] + Flatten(p.colors, RbgBytes)
  }

  function TailBytes(p: Tail): seq<bv8>
  {
    [Pack(p.brightness, p.speed)]
  }

  function SeamlessBreathingBytes(p: SeamlessBreathing): seq<bv8>
  {
    [p.speed | 0x40]
  }

  function ConstantRgbBytes(p: ConstantRgb): seq<bv8>
  {
    [0] + Flatten(p.colors, RbgBytes)
  }

  function RaveBytes(p: Rave): seq<bv8>
  {
    [Pack(p.brightness, p.speed)] + Flatten(p.colors, RbgBytes)
  }

  function RandomBytes(p: Random): seq<bv8>
  {
    [p.speed | 0x00]
  }

  function WaveBytes(p: Wave): seq<bv8>
  {
    [Pack(p.brightness, p.speed)]
  }

  function SingleBreathingBytes(p: SingleBreathing): seq<bv8>
  {
    [p.speed | 0x00] + RbgBytes(p.color)
  }

  /** Byte 10: the axis-independence flag over the polling-rate code. */
  function AxesAndRateByte(c: Config): bv8
  {
    Pack(if c.dpiAxesIndependent then 1 else 0, PollingRateCode(c.pollingRate))
  }

  /** Byte 11: the current profile over the profile count. */
  function ProfileNibbles(c: Config): bv8
  {
    Pack(c.dpiCurrentProfile, c.dpiProfileCount)
  }

  /** The enable mask: bit `i` is set when profile `i` is disabled. */
  function EnabledMask(ps: seq<DpiProfile>): bv8
    requires |ps| <= 8
  {
    if |ps| == 0 then 0
    else EnabledMask(ps[..|ps| - 1]) | DisabledBit(ps[|ps| - 1], |ps| - 1)
  }

  /** Bit `i` of the enable mask alone, for profile `p` at position `i`. */
  function DisabledBit(p: DpiProfile, i: nat): bv8
    requires i < 8
  {
    (if p.enabled then 0 else 1) << i
  }

  function DpiValueBytes(p: DpiProfile): (bs: seq<bv8>)
    ensures 1 <= |bs| <= 2
  {
    match p.value
    case Single(x) => [DpiEncode(x)]
    case Double(x, y) => [DpiEncode(x), DpiEncode(y)]
  }

  function ProfileColorBytes(p: DpiProfile): seq<bv8>
  {
    RgbBytes(p.color)
  }

  /** The DPI region: each profile's values, then 8 zeros when the axes share values. */
  function DpiRegion(ps: seq<DpiProfile>, independent: bool): seq<bv8>
  {
    Flatten(ps, DpiValueBytes) + (if independent then [] else Zeros(8))
  }

  /** The ten effect-parameter blocks with the opaque gap after the constant-RGB block. */
  function EffectBlocksBytes(p: EffectParameters, gap: seq<bv8>): seq<bv8>
  {
    GloriousBytes(p.glorious)
    + SingleColorBytes(p.singleColor)
    + BreathingBytes(p.breathing)
    + TailBytes(p.tail)
    + SeamlessBreathingBytes(p.seamlessBreathing)
    + ConstantRgbBytes(p.constantRgb)
    + gap
    + RaveBytes(p.rave)
    + RandomBytes(p.random)
    + WaveBytes(p.wave)
    + SingleBreathingBytes(p.singleBreathing)
  }

  /** The header, the sensor id, the two nibble-packed bytes and the enable mask. */
  function Preamble(c: Config): seq<bv8>
  {
    c.header + [c.sensorId] + [AxesAndRateByte(c)] + [ProfileNibbles(c)] + [EnabledMask(c.dpiProfiles)]
  }

  /** The content of a configuration report, in the order the encoder writes it. */
  function ConfigContent(c: Config): seq<bv8>
  {
    Preamble(c)
    + DpiRegion(c.dpiProfiles, c.dpiAxesIndependent)
    + Flatten(c.dpiProfiles, ProfileColorBytes)
    + [Rgb.EffectCode(c.rgbCurrentEffect)]
    + EffectBlocksBytes(c.rgbEffectParameters, c.unknown.0)
    + [c.lod] + [c.unknown.1]
  }

  /** Even at full capacity the content of a configuration report fits in a report. */
  lemma ConfigContentFits(c: Config)
    ensures |ConfigContent(c)| <= 139
  {
    var p := c.rgbEffectParameters;
    FlattenLengthAtMost(c.dpiProfiles, DpiValueBytes, 2);
    FlattenLength(c.dpiProfiles, ProfileColorBytes, 3);
    FlattenLength(p.breathing.colors, RbgBytes, 3);
    FlattenLength(p.constantRgb.colors, RbgBytes, 3);
    FlattenLength(p.rave.colors, RbgBytes, 3);
  }

  lemma {:induction false} FlattenLengthAtMost<T>(s: seq<T>, f: T -> seq<bv8>, k: nat)
    requires forall x :: |f(x)| <= k
    ensures |Flatten(s, f)| <= k * |s|
  {
    if |s| > 0 {
      FlattenLengthAtMost(s[1..], f, k);
    }
  }

  function DpiSwitchCode(s: DpiSwitch): bv8
  {
    match s
    case Cycle => 0x00
    case Up => 0x01
    case Down => 0x02
  }

  /** A signed byte in two's complement. */
  function ScrollByte(x: I8): bv8
  {
    ByteOf(if x >= 0 then x else x + 256)
  }

  /** The four bytes of a button slot. */
  function ActionBytes(a: ButtonAction): (bs: seq<bv8>)
    ensures |bs| == 4
  {
    match a
    case MouseButton(b) => [0x11, b, 0x00, 0x00]
    case Scroll(x) => [0x12, ScrollByte(x), 0x00, 0x00]
    case RepeatButton(which, interval, count) => [0x31, which, interval, count]
    case DpiSwitch(s) => [0x41, DpiSwitchCode(s)] + [0x00, 0x00]
    case DpiLock(d) => [0x42, DpiEncode(d), 0x00, 0x00]
    case MediaButton(x) => [0x22, ((x >> 16) & 0xff) as bv8, ((x >> 8) & 0xff) as bv8, (x & 0xff) as bv8]
    case KeyboardShortcut(modifiers, key) => [0x21, modifiers, key, 0x00]
    case Disabled => [0x50, 0x01, 0x00, 0x00]
    case Macro(bank, mode) =>
      [0x70, bank] +
      match mode
      case Burst(c) => [0x01, c]
      case RepeatUntilRelease => [0x04, 0x01]
      case RepeatUntilAnotherPress => [0x02, 0x01]
  }

  const ButtonmapHeader: seq<bv8> := [0x04, 0x12, 0x00, 0x00, 0x00, 0x00, 0x06, 0x00]

  /** Number of slots the button-map report always holds. */
  const ButtonmapSlots: nat := 20

  /** The button-map content: the header, the actions, then disabled slots up to 20. */
  function ButtonmapContent(m: ButtonMapping): seq<bv8>
  {
    ButtonmapHeader + Flatten(m, ActionBytes) + Flatten(seq(ButtonmapSlots - |m|, _ => Disabled), ActionBytes)
  }

  /** The code byte of a macro event and its 3-bit type. */
  function EventTypeCode(t: Macros.EventType): bv8
  {
    match t
    case Keyboard(_) => 5
    case Modifier(_) => 6
    case Mouse(_) => 1
  }

  /** The three bytes of a macro event; only the low 12 bits of the duration are kept. */
  function EventBytes(e: Macros.Event): seq<bv8>
  {
    var stateBit: bv8 := if e.state == Macros.Up then 1 << 7 else 0 << 7;
    var hi := (e.duration >> 8) as bv8;
    var lo := (e.duration & 0xff) as bv8;
    [stateBit | (EventTypeCode(e.evtype) << 4) | (hi & 0xf), lo, Macros.EventCode(e.evtype)]
  }

  /** Appending to a buffer that holds `start + done` gives one that holds `start + (done + more)`. */
  lemma Grow(start: seq<bv8>, done: seq<bv8>, more: seq<bv8>)
    ensures start + done + more == start + (done + more)
  {
  }

  // ---------------------------------------------------------------------
  // The growing buffer

  class ByteBuffer {
    var buf: seq<bv8>

    constructor WithCapacity(cap: nat)
      ensures buf == []
    {
      buf := [];
    }

    method PutByte(b: bv8)
      modifies this
      ensures buf == old(buf) + [b]
    {
      buf := buf + [b];
    }

    method PutBytes(bs: seq<bv8>)
      modifies this
      ensures buf == old(buf) + bs
    {
      buf := buf + bs;
    }

    /** The report: the content followed by zeros up to 520 bytes. */
    method ToRawConfig() returns (raw: DataReport)
      requires |buf| <= ReportSize
      ensures |raw| == ReportSize && raw[..|buf|] == buf
      ensures forall i :: |buf| <= i < ReportSize ==> raw[i] == 0
    {
      var padded := buf;
      padded := padded + Zeros(ReportSize - |padded|);
      raw := padded;
    }
  }

  /** A report that starts with the content and is zero after it is the padded content. */
  lemma PaddedUnique(content: seq<bv8>, raw: DataReport)
    requires |content| <= ReportSize && raw[..|content|] == content
    requires forall i :: |content| <= i < ReportSize ==> raw[i] == 0
    ensures raw == Padded(content)
  {
    var p := Padded(content);
    forall i | 0 <= i < ReportSize
      ensures raw[i] == p[i]
    {
      if i < |content| {
        assert raw[..|content|][i] == p[..|content|][i];
      }
    }
  }

  // ---------------------------------------------------------------------
  // Encoders

  method PutRgb(c: Color, out: ByteBuffer)
    modifies out
    ensures out.buf == old(out.buf) + RgbBytes(c)
  {
    out.PutBytes([c.r, c.g, c.b]);
  }

  method PutRbg(c: Color, out: ByteBuffer)
    modifies out
    ensures out.buf == old(out.buf) + RbgBytes(c)
  {
    out.PutBytes([c.r, c.b, c.g]);
  }

  /** Appends the colours one after the other, each red, blue, green. */
  method PutColorsRbg(colors: seq<Color>, out: ByteBuffer)
    modifies out
    ensures out.buf == old(out.buf) + Flatten(colors, RbgBytes)
  {
    for i := 0 to |colors|
      invariant out.buf == old(out.buf) + Flatten(colors[..i], RbgBytes)
    {
      FlattenSnoc(colors[..i], colors[i], RbgBytes);
      assert colors[..i + 1] == colors[..i] + [colors[i]];
      PutRbg(colors[i], out);
    }
    assert colors[..|colors|] == colors;
  }

  method PutGlorious(p: Glorious, out: ByteBuffer)
    modifies out
    ensures out.buf == old(out.buf) + GloriousBytes(p)
  {
    out.PutByte(p.speed | 0x40);
    out.PutByte(p.direction);
  }

  method PutSingleColor(p: SingleColor, out: ByteBuffer)
    modifies out
    ensures out.buf == old(out.buf) + SingleColorBytes(p)
  {
    ghost var start := out.buf;
    var control := p.brightness << 4;
    out.PutByte(control);
    PutRbg(p.color, out);
    Grow(start, [control], RbgBytes(p.color));
  }

  method PutBreathing(p: Breathing, out: ByteBuffer)
    modifies out
    ensures out.buf == old(out.buf) + BreathingBytes(p)
  {
    ghost var start := out.buf;
    out.PutByte(p.speed | 0x40);
    out.PutByte(p.count);
    Grow(start, [p.speed | 0x40], [p.count]);
    PutColorsRbg(p.colors, out);
    Grow(start, [p.speed | 0x40, p.count], Flatten(p.colors, RbgBytes));
  }

  method PutTail(p: Tail, out: ByteBuffer)
    modifies out
    ensures out.buf == old(out.buf) + TailBytes(p)
  {
    var control := p.speed | (p.brightness << 4);
    PackCommutes(p.brightness, p.speed);
    out.PutByte(control);
  }

  method PutSeamlessBreathing(p: SeamlessBreathing, out: ByteBuffer)
    modifies out
    ensures out.buf == old(out.buf) + SeamlessBreathingBytes(p)
  {
    out.PutByte(p.speed | 0x40);
  }

  method PutConstantRgb(p: ConstantRgb, out: ByteBuffer)
    modifies out
    ensures out.buf == old(out.buf) + ConstantRgbBytes(p)
  {
    ghost var start := out.buf;
    out.PutByte(0);
    PutColorsRbg(p.colors, out);
    Grow(start, [0], Flatten(p.colors, RbgBytes));
  }

  method PutRave(p: Rave, out: ByteBuffer)
    modifies out
    ensures out.buf == old(out.buf) + RaveBytes(p)
  {
    ghost var start := out.buf;
    var control := p.speed | (p.brightness << 4);
    PackCommutes(p.brightness, p.speed);
    out.PutByte(control);
    PutColorsRbg(p.colors, out);
    Grow(start, [control], Flatten(p.colors, RbgBytes));
  }

  method PutRandom(p: Random, out: ByteBuffer)
    modifies out
    ensures out.buf == old(out.buf) + RandomBytes(p)
  {
    out.PutByte(p.speed | 0x00);
  }

  method PutWave(p: Wave, out: ByteBuffer)
    modifies out
    ensures out.buf == old(out.buf) + WaveBytes(p)
  {
    var control := p.speed | (p.brightness << 4);
    PackCommutes(p.brightness, p.speed);
    out.PutByte(control);
  }

  method PutSingleBreathing(p: SingleBreathing, out: ByteBuffer)
    modifies out
    ensures out.buf == old(out.buf) + SingleBreathingBytes(p)
  {
    ghost var start := out.buf;
    var control := p.speed | 0x00;
    out.PutByte(control);
    PutRbg(p.color, out);
    Grow(start, [control], RbgBytes(p.color));
  }

  method PutPreamble(cfg: Config, out: ByteBuffer)
    modifies out
    ensures out.buf == old(out.buf) + Preamble(cfg)
  {
    var axesAndRate: bv8 := ((if cfg.dpiAxesIndependent then 1 else 0) << 4) | PollingRateCode(cfg.pollingRate);
    var profiles: bv8 := (cfg.dpiCurrentProfile << 4) | cfg.dpiProfileCount;
    assert axesAndRate == AxesAndRateByte(cfg) && profiles == ProfileNibbles(cfg);
    ghost var start := out.buf;
    out.PutBytes(cfg.header);
    out.PutByte(cfg.sensorId);
    Grow(start, cfg.header, [cfg.sensorId]);
    ghost var done := cfg.header + [cfg.sensorId];
    out.PutByte(axesAndRate);
    Grow(start, done, [axesAndRate]);
    done := done + [axesAndRate];
    out.PutByte(profiles);
    Grow(start, done, [profiles]);
    done := done + [profiles];
    PutEnabledMask(cfg.dpiProfiles, out);
    Grow(start, done, [EnabledMask(cfg.dpiProfiles)]);
  }

  /** Computes the enable mask by OR-ing in one bit per disabled profile, and appends it. */
  method PutEnabledMask(ps: seq<DpiProfile>, out: ByteBuffer)
    requires |ps| <= 8
    modifies out
    ensures out.buf == old(out.buf) + [EnabledMask(ps)]
  {
    var enabledMask: bv8 := 0;
    for i := 0 to |ps|
      invariant enabledMask == EnabledMask(ps[..i])
    {
      assert ps[..i + 1][..i] == ps[..i];
      enabledMask := enabledMask | DisabledBit(ps[i], i);
    }
    assert ps[..|ps|] == ps;
    out.PutByte(enabledMask);
  }

  method PutDpiValue(p: DpiProfile, out: ByteBuffer)
    modifies out
    ensures out.buf == old(out.buf) + DpiValueBytes(p)
  {
    match p.value {
      case Single(x) =>
        out.PutByte(DpiEncode(x));
      case Double(x, y) =>
        out.PutByte(DpiEncode(x));
        out.PutByte(DpiEncode(y));
    }
  }

  method PutDpiRegion(ps: seq<DpiProfile>, independent: bool, out: ByteBuffer)
    modifies out
    ensures out.buf == old(out.buf) + DpiRegion(ps, independent)
  {
    for i := 0 to |ps|
      invariant out.buf == old(out.buf) + Flatten(ps[..i], DpiValueBytes)
    {
      FlattenSnoc(ps[..i], ps[i], DpiValueBytes);
      assert ps[..i + 1] == ps[..i] + [ps[i]];
      PutDpiValue(ps[i], out);
    }
    assert ps[..|ps|] == ps;
    if !independent {
      out.PutBytes(Zeros(8));
    }
  }

  method PutProfileColors(ps: seq<DpiProfile>, out: ByteBuffer)
    modifies out
    ensures out.buf == old(out.buf) + Flatten(ps, ProfileColorBytes)
  {
    for i := 0 to |ps|
      invariant out.buf == old(out.buf) + Flatten(ps[..i], ProfileColorBytes)
    {
      FlattenSnoc(ps[..i], ps[i], ProfileColorBytes);
      assert ps[..i + 1] == ps[..i] + [ps[i]];
      PutRgb(ps[i].color, out);
    }
    assert ps[..|ps|] == ps;
  }

  method PutEffectBlocks(p: EffectParameters, gap: seq<bv8>, out: ByteBuffer)
    modifies out
    ensures out.buf == old(out.buf) + EffectBlocksBytes(p, gap)
  {
    ghost var start := out.buf;
    ghost var done: seq<bv8> := [];
    PutGlorious(p.glorious, out);
    done := GloriousBytes(p.glorious);
    PutSingleColor(p.singleColor, out);
    Grow(start, done, SingleColorBytes(p.singleColor));
    done := done + SingleColorBytes(p.singleColor);
    PutBreathing(p.breathing, out);
    Grow(start, done, BreathingBytes(p.breathing));
    done := done + BreathingBytes(p.breathing);
    PutTail(p.tail, out);
    Grow(start, done, TailBytes(p.tail));
    done := done + TailBytes(p.tail);
    PutSeamlessBreathing(p.seamlessBreathing, out);
    Grow(start, done, SeamlessBreathingBytes(p.seamlessBreathing));
    done := done + SeamlessBreathingBytes(p.seamlessBreathing);
    PutConstantRgb(p.constantRgb, out);
    Grow(start, done, ConstantRgbBytes(p.constantRgb));
    done := done + ConstantRgbBytes(p.constantRgb);
    out.PutBytes(gap);
    Grow(start, done, gap);
    done := done + gap;
    PutRave(p.rave, out);
    Grow(start, done, RaveBytes(p.rave));
    done := done + RaveBytes(p.rave);
    PutRandom(p.random, out);
    Grow(start, done, RandomBytes(p.random));
    done := done + RandomBytes(p.random);
    PutWave(p.wave, out);
    Grow(start, done, WaveBytes(p.wave));
    done := done + WaveBytes(p.wave);
    PutSingleBreathing(p.singleBreathing, out);
    Grow(start, done, SingleBreathingBytes(p.singleBreathing));
    done := done + SingleBreathingBytes(p.singleBreathing);
    assert out.buf == start + done;
  }

  /** Encodes the configuration report.  The derived fields are written as stored. */
  method ConfigReport(cfg: Config) returns (raw: DataReport)
    ensures |ConfigContent(cfg)| <= ReportSize && raw == Padded(ConfigContent(cfg))
  {
    var buf := new ByteBuffer.WithCapacity(ReportSize);
    PutPreamble(cfg, buf);
    ghost var done := Preamble(cfg);
    assert buf.buf == done;
    PutDpiRegion(cfg.dpiProfiles, cfg.dpiAxesIndependent, buf);
    done := done + DpiRegion(cfg.dpiProfiles, cfg.dpiAxesIndependent);
    PutProfileColors(cfg.dpiProfiles, buf);
    done := done + Flatten(cfg.dpiProfiles, ProfileColorBytes);
    buf.PutByte(Rgb.EffectCode(cfg.rgbCurrentEffect));
    done := done + [Rgb.EffectCode(cfg.rgbCurrentEffect)];
    PutEffectBlocks(cfg.rgbEffectParameters, cfg.unknown.0, buf);
    done := done + EffectBlocksBytes(cfg.rgbEffectParameters, cfg.unknown.0);
    buf.PutByte(cfg.lod);
    done := done + [cfg.lod];
    buf.PutByte(cfg.unknown.1);
    done := done + [cfg.unknown.1];
    assert buf.buf == done;
    assert buf.buf == ConfigContent(cfg);
    ConfigContentFits(cfg);
    raw := buf.ToRawConfig();
    PaddedUnique(buf.buf, raw);
  }

  method PutButtonAction(a: ButtonAction, out: ByteBuffer)
    modifies out
    ensures out.buf == old(out.buf) + ActionBytes(a)
  {
    match a {
      case MouseButton(b) => out.PutBytes([0x11, b, 0x00, 0x00]);
      case Scroll(x) => out.PutBytes([0x12, ScrollByte(x), 0x00, 0x00]);
      case RepeatButton(which, interval, count) => out.PutBytes([0x31, which, interval, count]);
      case DpiSwitch(s) =>
        out.PutByte(0x41);
        match s {
          case Cycle => out.PutByte(0x00);
          case Up => out.PutByte(0x01);
          case Down => out.PutByte(0x02);
        }
        out.PutBytes([0x00, 0x00]);
      case DpiLock(d) => out.PutBytes([0x42, DpiEncode(d), 0x00, 0x00]);
      case MediaButton(x) =>
        out.PutBytes([0x22, ((x >> 16) & 0xff) as bv8, ((x >> 8) & 0xff) as bv8, (x & 0xff) as bv8]);
      case KeyboardShortcut(modifiers, key) => out.PutBytes([0x21, modifiers, key, 0x00]);
      case Disabled => out.PutBytes([0x50, 0x01, 0x00, 0x00]);
      case Macro(bank, mode) =>
        out.PutBytes([0x70, bank]);
        match mode {
          case Burst(c) => out.PutBytes([0x01, c]);
          case RepeatUntilRelease => out.PutBytes([0x04, 0x01]);
          case RepeatUntilAnotherPress => out.PutBytes([0x02, 0x01]);
        }
    }
  }

  /** Encodes the button-map report, padding the six actions with disabled slots to 20. */
  method Buttonmap(mapping: ButtonMapping) returns (raw: DataReport)
    ensures |ButtonmapContent(mapping)| <= ReportSize && raw == Padded(ButtonmapContent(mapping))
  {
    var buf := new ByteBuffer.WithCapacity(ReportSize);
    buf.PutBytes(ButtonmapHeader);
    assert buf.buf == ButtonmapHeader;
    PutActions(mapping, buf);
    PutDisabledPadding(ButtonmapSlots - |mapping|, buf);
    assert buf.buf == ButtonmapContent(mapping);
    FlattenLength(mapping, ActionBytes, 4);
    FlattenLength(seq(ButtonmapSlots - |mapping|, _ => Disabled), ActionBytes, 4);
    raw := buf.ToRawConfig();
    PaddedUnique(buf.buf, raw);
  }

  method PutActions(actions: seq<ButtonAction>, out: ByteBuffer)
    modifies out
    ensures out.buf == old(out.buf) + Flatten(actions, ActionBytes)
  {
    for i := 0 to |actions|
      invariant out.buf == old(out.buf) + Flatten(actions[..i], ActionBytes)
    {
      FlattenSnoc(actions[..i], actions[i], ActionBytes);
      assert actions[..i + 1] == actions[..i] + [actions[i]];
      PutButtonAction(actions[i], out);
    }
    assert actions[..|actions|] == actions;
  }

  /** Appends `n` disabled slots. */
  method PutDisabledPadding(n: nat, out: ByteBuffer)
    modifies out
    ensures out.buf == old(out.buf) + Flatten(seq(n, _ => Disabled), ActionBytes)
  {
    ghost var pads: seq<ButtonAction> := [];
    for i := 0 to n
      invariant pads == seq(i, _ => Disabled)
      invariant out.buf == old(out.buf) + Flatten(pads, ActionBytes)
    {
      FlattenSnoc(pads, Disabled, ActionBytes);
      PutButtonAction(Disabled, out);
      pads := pads + [Disabled];
    }
  }

  /** Appends a macro event, building its first byte bit field by bit field. */
  method PutEvent(e: Macros.Event, out: ByteBuffer)
    modifies out
    ensures out.buf == old(out.buf) + EventBytes(e)
  {
    var b1: bv8 := 0;
    if e.state == Macros.Up {
      b1 := b1 | (1 << 7);
    }
    var typ: bv8, keycode: bv8;
    match e.evtype {
      case Keyboard(c) => typ, keycode := 5, c;
      case Modifier(c) => typ, keycode := 6, c;
      case Mouse(c) => typ, keycode := 1, c;
    }
    assert typ == EventTypeCode(e.evtype) && keycode == Macros.EventCode(e.evtype);
    b1 := b1 | (typ << 4);
    var durationHi := (e.duration >> 8) as bv8;
    var durationLo := (e.duration & 0xff) as bv8;
    b1 := b1 | (durationHi & 0xf);
    out.PutBytes([b1, durationLo, keycode]);
  }
}
