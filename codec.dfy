/**
 * The two directions of each report put together: the configuration
 * entry points, and the round trips that show the decoder reads back
 * what the encoder writes.
 */
module Codec {
  import opened Wire
  import opened Device
  import Rgb
  import opened Params
  import opened ButtonMap
  import Macros
  import opened DeviceConfig
  import opened Decode
  import opened Encode

  // ---------------------------------------------------------------------
  // Facts about the byte layout

  lemma AtSlice(inp: seq<bv8>, at: nat, bs: seq<bv8>)
    requires At(inp, at, bs)
    ensures inp[at..at + |bs|] == bs
  {
    forall j | 0 <= j < |bs| ensures inp[at..at + |bs|][j] == bs[j] {
      AtIndex(inp, at, bs, j);
    }
  }

  lemma AtIndex(inp: seq<bv8>, at: nat, bs: seq<bv8>, j: nat)
    requires At(inp, at, bs) && j < |bs|
    ensures inp[at + j] == bs[j]
  {
  }

  /** The three bytes of a colour from `at` on. */
  lemma AtColor(inp: seq<bv8>, at: nat, bs: seq<bv8>)
    requires At(inp, at, bs) && |bs| == 3
    ensures inp[at] == bs[0] && inp[at + 1] == bs[1] && inp[at + 2] == bs[2]
  {
    AtIndex(inp, at, bs, 0);
    AtIndex(inp, at, bs, 1);
    AtIndex(inp, at, bs, 2);
  }

  /** A padded report begins with its content. */
  lemma AtPadded(content: seq<bv8>)
    requires |content| <= ReportSize
    ensures At(Padded(content), 0, content)
  {
    var raw := Padded(content);
    forall j | 0 <= j < |content| ensures raw[0 + j] == content[j] {
      assert raw[..|content|][j] == raw[j];
    }
  }

  /** With elements of `k` bytes each, byte `j` of element `i` sits at `k * i + j`. */
  lemma {:induction false} FlattenIndex<T>(s: seq<T>, f: T -> seq<bv8>, k: nat, i: nat, j: nat)
    requires forall x :: x in s ==> |f(x)| == k
    requires i < |s| && j < k && k * i + j < k * |s|
    ensures |Flatten(s, f)| == k * |s|
    ensures Flatten(s, f)[k * i + j] == f(s[i])[j]
    decreases i
  {
    FlattenLengthIn(s, f, k);
    assert Flatten(s, f) == f(s[0]) + Flatten(s[1..], f);
    assert |f(s[0])| == k;
    if i > 0 {
      assert forall x :: x in s[1..] ==> x in s;
      MulStep(k, i);
      MulStep(k, |s|);
      FlattenIndex(s[1..], f, k, i - 1, j);
      assert s[1..][i - 1] == s[i];
    }
  }

  /**
   * Peeling one element off a run of `n` fixed-size pieces; the induction
   * steps of `FlattenIndex`, `FlattenLengthIn` and `ButtonCodec`'s slot
   * layout need it, since the solver does not expand `k * n` by itself.
   */
  lemma MulStep(k: nat, n: nat)
    requires 0 < n
    ensures k * n == k + k * (n - 1)
  {
  }

  lemma {:induction false} FlattenLengthIn<T>(s: seq<T>, f: T -> seq<bv8>, k: nat)
    requires forall x :: x in s ==> |f(x)| == k
    ensures |Flatten(s, f)| == k * |s|
  {
    if |s| > 0 {
      assert forall x :: x in s[1..] ==> x in s;
      FlattenLengthIn(s[1..], f, k);
      MulStep(k, |s|);
    }
  }

  /** A nibble survives being put under a fixed high nibble, or shifted up. */
  lemma NibbleFacts(x: bv8)
    requires x < 16
    ensures Lo(x | 0x40) == x && Lo(x | 0x00) == x && Hi(x << 4) == x
  {
  }

  // ---------------------------------------------------------------------
  // Colours and parameter blocks

  lemma {:induction false} ColorsRbgRoundTrip(inp: seq<bv8>, at: nat, cs: seq<Color>)
    requires At(inp, at, Flatten(cs, RbgBytes))
    ensures ParseColorsRbg(inp, at, |cs|) == Ok((cs, at + 3 * |cs|))
    decreases |cs|
  {
    if |cs| > 0 {
      assert Flatten(cs, RbgBytes) == RbgBytes(cs[0]) + Flatten(cs[1..], RbgBytes);
      AtAppend(inp, at, RbgBytes(cs[0]), Flatten(cs[1..], RbgBytes));
      AtColor(inp, at, RbgBytes(cs[0]));
      assert ParseColorRbg(inp, at).Ok? && ParseColorRbg(inp, at).value == (cs[0], at + 3);
      ColorsRbgRoundTrip(inp, at + 3, cs[1..]);
      assert [cs[0]] + cs[1..] == cs;
    }
  }

  lemma GloriousRoundTrip(inp: seq<bv8>, at: nat, p: Glorious)
    requires At(inp, at, GloriousBytes(p)) && p.speed < 16
    ensures ParseGlorious(inp, at) == Ok((p, at + 2))
  {
    NibbleFacts(p.speed);
    AtIndex(inp, at, GloriousBytes(p), 0);
    AtIndex(inp, at, GloriousBytes(p), 1);
  }

  lemma SingleColorRoundTrip(inp: seq<bv8>, at: nat, p: SingleColor)
    requires At(inp, at, SingleColorBytes(p)) && p.brightness < 16
    ensures ParseSingleColor(inp, at) == Ok((p, at + 4))
  {
    NibbleFacts(p.brightness);
    AtAppend(inp, at, [p.brightness << 4], RbgBytes(p.color));
    AtIndex(inp, at, [p.brightness << 4], 0);
    AtColor(inp, at + 1, RbgBytes(p.color));
  }

  lemma BreathingRoundTrip(inp: seq<bv8>, at: nat, p: Breathing)
    requires At(inp, at, BreathingBytes(p)) && p.speed < 16 && |p.colors| == 7
    ensures ParseBreathing(inp, at) == Ok((p, at + 23))
  {
    NibbleFacts(p.speed);
    AtAppend(inp, at, [p.speed | 0x40, p.count], Flatten(p.colors, RbgBytes));
    AtIndex(inp, at, [p.speed | 0x40, p.count], 0);
    AtIndex(inp, at, [p.speed | 0x40, p.count], 1);
    ColorsRbgRoundTrip(inp, at + 2, p.colors);
  }

  lemma TailRoundTrip(inp: seq<bv8>, at: nat, p: Tail)
    requires At(inp, at, TailBytes(p)) && p.speed < 16 && p.brightness < 16
    ensures ParseTail(inp, at) == Ok((p, at + 1))
  {
    AtIndex(inp, at, TailBytes(p), 0);
  }

  lemma SeamlessBreathingRoundTrip(inp: seq<bv8>, at: nat, p: SeamlessBreathing)
    requires At(inp, at, SeamlessBreathingBytes(p)) && p.speed < 16
    ensures ParseSeamlessBreathing(inp, at) == Ok((p, at + 1))
  {
    NibbleFacts(p.speed);
    AtIndex(inp, at, SeamlessBreathingBytes(p), 0);
  }

  lemma ConstantRgbRoundTrip(inp: seq<bv8>, at: nat, p: ConstantRgb)
    requires At(inp, at, ConstantRgbBytes(p)) && |p.colors| == 6
    ensures ParseConstantRgb(inp, at) == Ok((p, at + 19))
  {
    AtAppend(inp, at, [0], Flatten(p.colors, RbgBytes));
    ColorsRbgRoundTrip(inp, at + 1, p.colors);
  }

  lemma RaveRoundTrip(inp: seq<bv8>, at: nat, p: Rave)
    requires At(inp, at, RaveBytes(p)) && p.speed < 16 && p.brightness < 16 && |p.colors| == 2
    ensures ParseRave(inp, at) == Ok((p, at + 7))
  {
    var control := Pack(p.brightness, p.speed);
    AtAppend(inp, at, [control], Flatten(p.colors, RbgBytes));
    AtIndex(inp, at, [control], 0);
    ColorsRbgRoundTrip(inp, at + 1, p.colors);
  }

  lemma RandomRoundTrip(inp: seq<bv8>, at: nat, p: Random)
    requires At(inp, at, RandomBytes(p)) && p.speed < 16
    ensures ParseRandom(inp, at) == Ok((p, at + 1))
  {
    NibbleFacts(p.speed);
    AtIndex(inp, at, RandomBytes(p), 0);
  }

  lemma WaveRoundTrip(inp: seq<bv8>, at: nat, p: Wave)
    requires At(inp, at, WaveBytes(p)) && p.speed < 16 && p.brightness < 16
    ensures ParseWave(inp, at) == Ok((p, at + 1))
  {
    AtIndex(inp, at, WaveBytes(p), 0);
  }

  lemma SingleBreathingRoundTrip(inp: seq<bv8>, at: nat, p: SingleBreathing)
    requires At(inp, at, SingleBreathingBytes(p)) && p.speed < 16
    ensures ParseSingleBreathing(inp, at) == Ok((p, at + 4))
  {
    NibbleFacts(p.speed);
    AtAppend(inp, at, [p.speed | 0x00], RbgBytes(p.color));
    AtIndex(inp, at, [p.speed | 0x00], 0);
    AtColor(inp, at + 1, RbgBytes(p.color));
  }

  /** The block lengths when every colour list is full. */
  lemma BlockLengths(p: EffectParameters)
    requires ParamsReportShaped(p)
    ensures |BreathingBytes(p.breathing)| == 23
    ensures |ConstantRgbBytes(p.constantRgb)| == 19
    ensures |RaveBytes(p.rave)| == 7
  {
    FlattenLength(p.breathing.colors, RbgBytes, 3);
    FlattenLength(p.constantRgb.colors, RbgBytes, 3);
    FlattenLength(p.rave.colors, RbgBytes, 3);
  }

  /** The ten blocks and the gap, each where the encoder put it, read back. */
  lemma EffectBlocksRoundTrip(inp: seq<bv8>, at: nat, p: EffectParameters, gap: seq<bv8>)
    requires At(inp, at, EffectBlocksBytes(p, gap)) && ParamsReportShaped(p) && |gap| == 12
    ensures ParseEffectBlocks(inp, at) == Ok(((p, gap), at + 75))
  {
    BlockLengths(p);
    var g := GloriousBytes(p.glorious);
    var s1 := g + SingleColorBytes(p.singleColor);
    var s2 := s1 + BreathingBytes(p.breathing);
    var s3 := s2 + TailBytes(p.tail);
    var s4 := s3 + SeamlessBreathingBytes(p.seamlessBreathing);
    var s5 := s4 + ConstantRgbBytes(p.constantRgb);
    var s6 := s5 + gap;
    var s7 := s6 + RaveBytes(p.rave);
    var s8 := s7 + RandomBytes(p.random);
    var s9 := s8 + WaveBytes(p.wave);
    assert EffectBlocksBytes(p, gap) == s9 + SingleBreathingBytes(p.singleBreathing);
    AtAppend(inp, at, s9, SingleBreathingBytes(p.singleBreathing));
    AtAppend(inp, at, s8, WaveBytes(p.wave));
    AtAppend(inp, at, s7, RandomBytes(p.random));
    AtAppend(inp, at, s6, RaveBytes(p.rave));
    AtAppend(inp, at, s5, gap);
    AtAppend(inp, at, s4, ConstantRgbBytes(p.constantRgb));
    AtAppend(inp, at, s3, SeamlessBreathingBytes(p.seamlessBreathing));
    AtAppend(inp, at, s2, TailBytes(p.tail));
    AtAppend(inp, at, s1, BreathingBytes(p.breathing));
    AtAppend(inp, at, g, SingleColorBytes(p.singleColor));
    GloriousRoundTrip(inp, at, p.glorious);
    SingleColorRoundTrip(inp, at + 2, p.singleColor);
    BreathingRoundTrip(inp, at + 6, p.breathing);
    TailRoundTrip(inp, at + 29, p.tail);
    SeamlessBreathingRoundTrip(inp, at + 30, p.seamlessBreathing);
    ConstantRgbRoundTrip(inp, at + 31, p.constantRgb);
    AtSlice(inp, at + 50, gap);
    RaveRoundTrip(inp, at + 62, p.rave);
    RandomRoundTrip(inp, at + 69, p.random);
    WaveRoundTrip(inp, at + 70, p.wave);
    SingleBreathingRoundTrip(inp, at + 71, p.singleBreathing);
  }

  // ---------------------------------------------------------------------
  // DPI profiles

  /** Bit `i` of the enable mask is clear exactly when profile `i` is enabled or absent. */
  lemma {:induction false} EnabledMaskBit(ps: seq<DpiProfile>, i: nat)
    requires |ps| <= 8 && i < 8
    ensures EnabledMask(ps) & Bit(i) == 0 <==> i >= |ps| || ps[i].enabled
  {
    if |ps| > 0 {
      var init := ps[..|ps| - 1];
      EnabledMaskBit(init, i);
      assert forall k :: 0 <= k < |init| ==> init[k] == ps[k];
      DisabledBitAt(ps[|ps| - 1], |ps| - 1, i);
      OrClear(EnabledMask(init), DisabledBit(ps[|ps| - 1], |ps| - 1), Bit(i));
    }
  }

  /** The bit one profile contributes to the enable mask is bit `j`, set when the profile is disabled. */
  lemma DisabledBitAt(p: DpiProfile, j: nat, i: nat)
    requires j < 8 && i < 8
    ensures DisabledBit(p, j) & Bit(i) == 0 <==> i != j || p.enabled
  {
  }

  lemma OrClear(a: bv8, b: bv8, m: bv8)
    ensures (a | b) & m == 0 <==> a & m == 0 && b & m == 0
  {
  }

  /** A byte that encodes a DPI value decodes to it, and only that byte does. */
  lemma DpiRoundTrip(v: Dpi, b: bv8)
    ensures DpiDecode(DpiEncode(v)) == v
    ensures DpiEncode(DpiDecode(b)) == b
    ensures DpiDecode(b) == v <==> DpiEncode(v) == b
  {
  }

  /**
   * Writing the stored DPI value itself, as the source does, does not read
   * back: the lowest setting, 100, is written as the byte 100 and read
   * back as 10100.
   */
  lemma DpiAsWrittenDrifts()
    ensures DpiDecode(0) == 100
    ensures DpiByteAsWritten(100) == 100
    ensures DpiDecode(DpiByteAsWritten(100)) == 10100
  {
    ByteInjective(DpiByteAsWritten(100), 100);
  }

  /** Where the encoder puts profile `i`'s values in the DPI region. */
  lemma RegionIndex(ps: seq<DpiProfile>, indep: bool, i: nat)
    requires |ps| == 8 && i < 8
    requires forall i :: 0 <= i < 8 ==> ps[i].value.Double? == indep
    ensures |DpiRegion(ps, indep)| == 16
    ensures indep ==> DpiRegion(ps, indep)[2 * i] == DpiEncode(ps[i].value.x)
    ensures indep ==> DpiRegion(ps, indep)[2 * i + 1] == DpiEncode(ps[i].value.y)
    ensures !indep ==> DpiRegion(ps, indep)[i] == DpiEncode(ps[i].value.dpi)
  {
    RegionLength(ps, indep);
    if indep {
      RegionIndexDouble(ps, i);
    } else {
      RegionIndexSingle(ps, i);
    }
  }

  lemma RegionIndexDouble(ps: seq<DpiProfile>, i: nat)
    requires |ps| == 8 && i < 8
    requires forall i :: 0 <= i < 8 ==> ps[i].value.Double?
    ensures |DpiRegion(ps, true)| == 16
    ensures DpiRegion(ps, true)[2 * i] == DpiEncode(ps[i].value.x)
    ensures DpiRegion(ps, true)[2 * i + 1] == DpiEncode(ps[i].value.y)
  {
    var values := Flatten(ps, DpiValueBytes);
    assert forall x :: x in ps ==> |DpiValueBytes(x)| == 2;
    FlattenLengthIn(ps, DpiValueBytes, 2);
    var bs := DpiValueBytes(ps[i]);
    assert DpiRegion(ps, true) == values;
    assert bs == [DpiEncode(ps[i].value.x), DpiEncode(ps[i].value.y)];
    FlattenIndex(ps, DpiValueBytes, 2, i, 0);
    FlattenIndex(ps, DpiValueBytes, 2, i, 1);
  }

  lemma RegionIndexSingle(ps: seq<DpiProfile>, i: nat)
    requires |ps| == 8 && i < 8
    requires forall i :: 0 <= i < 8 ==> ps[i].value.Single?
    ensures |DpiRegion(ps, false)| == 16
    ensures DpiRegion(ps, false)[i] == DpiEncode(ps[i].value.dpi)
  {
    var values := Flatten(ps, DpiValueBytes);
    assert forall x :: x in ps ==> |DpiValueBytes(x)| == 1;
    FlattenLengthIn(ps, DpiValueBytes, 1);
    var bs := DpiValueBytes(ps[i]);
    assert DpiRegion(ps, false) == values + Zeros(8);
    assert bs == [DpiEncode(ps[i].value.dpi)];
    FlattenIndex(ps, DpiValueBytes, 1, i, 0);
  }

  /** The DPI region is always sixteen bytes long. */
  lemma RegionLength(ps: seq<DpiProfile>, indep: bool)
    requires |ps| == 8
    requires forall i :: 0 <= i < 8 ==> ps[i].value.Double? == indep
    ensures |DpiRegion(ps, indep)| == 16
  {
    var k := if indep then 2 else 1;
    assert forall x :: x in ps ==> |DpiValueBytes(x)| == k;
    FlattenLengthIn(ps, DpiValueBytes, k);
  }

  /** Profile `i`'s value read back from the DPI region. */
  lemma ValueRoundTrip(ps: seq<DpiProfile>, indep: bool, i: nat)
    requires |ps| == 8 && i < 8
    requires forall i :: 0 <= i < 8 ==> ps[i].value.Double? == indep
    ensures |DpiRegion(ps, indep)| == 16
    ensures DpiValueFromRaw(indep, DpiRegion(ps, indep), i) == ps[i].value
  {
    RegionIndex(ps, indep, i);
    match ps[i].value {
      case Double(x, y) =>
        DpiRoundTrip(x, 0);
        DpiRoundTrip(y, 0);
      case Single(x) =>
        DpiRoundTrip(x, 0);
    }
  }

  /** The eight profiles read back from their mask, DPI region and colours. */
  lemma ProfilesRoundTrip(ps: seq<DpiProfile>, indep: bool, colors: seq<Color>)
    requires |ps| == 8 && |colors| == 8
    requires forall i :: 0 <= i < 8 ==> ps[i].value.Double? == indep
    requires forall i :: 0 <= i < 8 ==> colors[i] == ps[i].color
    ensures |DpiRegion(ps, indep)| == 16
    ensures DpiProfilesFromRaw(indep, EnabledMask(ps), DpiRegion(ps, indep), colors) == ps
  {
    RegionLength(ps, indep);
    var decoded := DpiProfilesFromRaw(indep, EnabledMask(ps), DpiRegion(ps, indep), colors);
    forall i | 0 <= i < 8
      ensures decoded[i] == ps[i]
    {
      EnabledMaskBit(ps, i);
      ValueRoundTrip(ps, indep, i);
    }
  }

  /** The profiles' colours, in order. */
  function ProfileColors(ps: seq<DpiProfile>): (cs: seq<Color>)
    ensures |cs| == |ps| && forall i :: 0 <= i < |ps| ==> cs[i] == ps[i].color
  {
    seq(|ps|, i requires 0 <= i < |ps| => ps[i].color)
  }

  /** The profile colours, each red, green, blue, read back. */
  lemma {:induction false} ProfileColorsRoundTrip(inp: seq<bv8>, at: nat, ps: seq<DpiProfile>)
    requires At(inp, at, Flatten(ps, ProfileColorBytes))
    ensures ParseColorsRgb(inp, at, |ps|) == Ok((ProfileColors(ps), at + 3 * |ps|))
    decreases |ps|
  {
    if |ps| > 0 {
      assert Flatten(ps, ProfileColorBytes) == RgbBytes(ps[0].color) + Flatten(ps[1..], ProfileColorBytes);
      AtAppend(inp, at, RgbBytes(ps[0].color), Flatten(ps[1..], ProfileColorBytes));
      AtColor(inp, at, RgbBytes(ps[0].color));
      assert ParseColorRgb(inp, at).Ok? && ParseColorRgb(inp, at).value == (ps[0].color, at + 3);
      ProfileColorsRoundTrip(inp, at + 3, ps[1..]);
      assert [ps[0].color] + ProfileColors(ps[1..]) == ProfileColors(ps);
    }
  }

  /** With every fixed-size part full, the content of a configuration report is 131 bytes. */
  lemma ConfigContentLength(c: Config)
    requires ReportShaped(c)
    ensures |Preamble(c)| == 13
    ensures |DpiRegion(c.dpiProfiles, c.dpiAxesIndependent)| == 16
    ensures |Flatten(c.dpiProfiles, ProfileColorBytes)| == 24
    ensures |EffectBlocksBytes(c.rgbEffectParameters, c.unknown.0)| == 75
    ensures |ConfigContent(c)| == ConfigLength
  {
    RegionLength(c.dpiProfiles, c.dpiAxesIndependent);
    FlattenLength(c.dpiProfiles, ProfileColorBytes, 3);
    BlockLengths(c.rgbEffectParameters);
  }

  /** The two nibble-packed bytes of the preamble read back as the fields they pack. */
  lemma NibblesReadBack(c: Config)
    requires ReportShaped(c)
    ensures Hi(AxesAndRateByte(c)) > 0 <==> c.dpiAxesIndependent
    ensures ParsePollingRate(Lo(AxesAndRateByte(c))) == Ok(c.pollingRate)
    ensures Hi(ProfileNibbles(c)) == c.dpiCurrentProfile && Lo(ProfileNibbles(c)) == c.dpiProfileCount
  {
    PollingRateCodes(c.pollingRate, PollingRateCode(c.pollingRate));
  }

  /** The enable mask, the DPI region and the profile colours read back as the profiles. */
  lemma ProfilesReadBack(c: Config)
    requires ReportShaped(c)
    ensures |DpiRegion(c.dpiProfiles, c.dpiAxesIndependent)| == 16
    ensures DpiProfilesFromRaw(c.dpiAxesIndependent, EnabledMask(c.dpiProfiles),
      DpiRegion(c.dpiProfiles, c.dpiAxesIndependent), ProfileColors(c.dpiProfiles)) == c.dpiProfiles
  {
    ProfilesRoundTrip(c.dpiProfiles, c.dpiAxesIndependent, ProfileColors(c.dpiProfiles));
  }

  /** Bytes 10 to 52 of a report laid out as the encoder writes them read back as the DPI settings. */
  lemma DpiSettingsDecode(inp: seq<bv8>, c: Config)
    requires ReportShaped(c) && 53 <= |inp|
    requires inp[10] == AxesAndRateByte(c) && inp[11] == ProfileNibbles(c)
    requires inp[12] == EnabledMask(c.dpiProfiles)
    requires inp[13..29] == DpiRegion(c.dpiProfiles, c.dpiAxesIndependent)
    requires ParseColorsRgb(inp, 29, 8) == Ok((ProfileColors(c.dpiProfiles), 53))
    ensures ParseDpiSettings(inp, 10) == Ok((DpiSettings(c.dpiAxesIndependent, c.pollingRate,
      c.dpiCurrentProfile, c.dpiProfileCount, c.dpiProfiles), 53))
  {
    NibblesReadBack(c);
    ProfilesReadBack(c);
  }

  /** Bytes 53 to 128 of a report laid out as the encoder writes them read back as the lighting settings. */
  lemma LightingDecode(inp: seq<bv8>, c: Config)
    requires ReportShaped(c) && 129 <= |inp|
    requires inp[53] == Rgb.EffectCode(c.rgbCurrentEffect)
    requires ParseEffectBlocks(inp, 54) == Ok(((c.rgbEffectParameters, c.unknown.0), 129))
    ensures ParseLighting(inp, 53) == Ok((Lighting(c.rgbCurrentEffect, c.rgbEffectParameters, c.unknown.0), 129))
  {
    Rgb.EffectCodes(c.rgbCurrentEffect, inp[53]);
  }

  /**
   * The decoder's steps on a report whose parts are each known to read
   * back: the configuration comes out whole.
   */
  lemma ConfigDecodeSteps(inp: seq<bv8>, c: Config)
    requires ConfigLength <= |inp|
    requires inp[..9] == c.header && inp[9] == c.sensorId
    requires ParseDpiSettings(inp, 10) == Ok((DpiSettings(c.dpiAxesIndependent, c.pollingRate,
      c.dpiCurrentProfile, c.dpiProfileCount, c.dpiProfiles), 53))
    requires ParseLighting(inp, 53) == Ok((Lighting(c.rgbCurrentEffect, c.rgbEffectParameters, c.unknown.0), 129))
    requires inp[129] == c.lod && inp[130] == c.unknown.1
    ensures ParseConfigReport(inp) == Ok((c, ConfigLength))
  {
    assert Take(inp, 0, 9).value.0 == c.header;
  }

  /** The bytes of the preamble, where it sits at the start of `inp`. */
  lemma PreambleLayout(inp: seq<bv8>, c: Config)
    requires |c.header| == 9 && At(inp, 0, Preamble(c))
    ensures inp[..9] == c.header && inp[9] == c.sensorId
    ensures inp[10] == AxesAndRateByte(c) && inp[11] == ProfileNibbles(c)
    ensures inp[12] == EnabledMask(c.dpiProfiles)
  {
    var bytes := [c.sensorId, AxesAndRateByte(c), ProfileNibbles(c), EnabledMask(c.dpiProfiles)];
    assert Preamble(c) == c.header + bytes;
    AtAppend(inp, 0, c.header, bytes);
    AtSlice(inp, 0, c.header);
    AtIndex(inp, 9, bytes, 0);
    AtIndex(inp, 9, bytes, 1);
    AtIndex(inp, 9, bytes, 2);
    AtIndex(inp, 9, bytes, 3);
  }

  /** Where each part of the content of a configuration report sits in the padded report. */
  lemma ConfigLayout(inp: seq<bv8>, c: Config)
    requires ReportShaped(c) && At(inp, 0, ConfigContent(c))
    ensures ConfigLength <= |inp|
    ensures
      && At(inp, 0, Preamble(c))
      && At(inp, 13, DpiRegion(c.dpiProfiles, c.dpiAxesIndependent))
      && At(inp, 29, Flatten(c.dpiProfiles, ProfileColorBytes))
      && At(inp, 53, [Rgb.EffectCode(c.rgbCurrentEffect)])
      && At(inp, 54, EffectBlocksBytes(c.rgbEffectParameters, c.unknown.0))
      && At(inp, 129, [c.lod]) && At(inp, 130, [c.unknown.1])
  {
    ConfigContentLength(c);
    AtSeven(inp, Preamble(c), DpiRegion(c.dpiProfiles, c.dpiAxesIndependent),
      Flatten(c.dpiProfiles, ProfileColorBytes), [Rgb.EffectCode(c.rgbCurrentEffect)],
      EffectBlocksBytes(c.rgbEffectParameters, c.unknown.0), [c.lod], [c.unknown.1]);
  }

  /** A report holding each part the encoder writes for `c` where the encoder puts it reads back as `c`. */
  lemma ConfigReadBack(inp: seq<bv8>, c: Config)
    requires ReportShaped(c) && ConfigLength <= |inp|
    requires At(inp, 0, Preamble(c))
    requires At(inp, 13, DpiRegion(c.dpiProfiles, c.dpiAxesIndependent))
    requires At(inp, 29, Flatten(c.dpiProfiles, ProfileColorBytes))
    requires At(inp, 53, [Rgb.EffectCode(c.rgbCurrentEffect)])
    requires At(inp, 54, EffectBlocksBytes(c.rgbEffectParameters, c.unknown.0))
    requires At(inp, 129, [c.lod]) && At(inp, 130, [c.unknown.1])
    ensures ParseConfigReport(inp) == Ok((c, ConfigLength))
  {
    PreambleLayout(inp, c);
    DpiSettingsAt(inp, c);
    LightingAt(inp, c);
    AtIndex(inp, 129, [c.lod], 0);
    AtIndex(inp, 130, [c.unknown.1], 0);
    ConfigDecodeSteps(inp, c);
  }

  /** The preamble, the DPI region and the profile colours where the encoder puts them read back as the DPI settings. */
  lemma DpiSettingsAt(inp: seq<bv8>, c: Config)
    requires ReportShaped(c) && ConfigLength <= |inp|
    requires At(inp, 0, Preamble(c))
    requires At(inp, 13, DpiRegion(c.dpiProfiles, c.dpiAxesIndependent))
    requires At(inp, 29, Flatten(c.dpiProfiles, ProfileColorBytes))
    ensures ParseDpiSettings(inp, 10) == Ok((DpiSettings(c.dpiAxesIndependent, c.pollingRate,
      c.dpiCurrentProfile, c.dpiProfileCount, c.dpiProfiles), 53))
  {
    DpiSettingsBytes(inp, c);
    DpiSettingsDecode(inp, c);
  }

  /** Where the encoder puts them, the bytes of the DPI settings are those `DpiSettingsDecode` reads back. */
  lemma DpiSettingsBytes(inp: seq<bv8>, c: Config)
    requires ReportShaped(c) && ConfigLength <= |inp|
    requires At(inp, 0, Preamble(c))
    requires At(inp, 13, DpiRegion(c.dpiProfiles, c.dpiAxesIndependent))
    requires At(inp, 29, Flatten(c.dpiProfiles, ProfileColorBytes))
    ensures inp[10] == AxesAndRateByte(c) && inp[11] == ProfileNibbles(c)
    ensures inp[12] == EnabledMask(c.dpiProfiles)
    ensures inp[13..29] == DpiRegion(c.dpiProfiles, c.dpiAxesIndependent)
    ensures ParseColorsRgb(inp, 29, 8) == Ok((ProfileColors(c.dpiProfiles), 53))
  {
    PreambleLayout(inp, c);
    RegionBytesAt(inp, c.dpiProfiles, c.dpiAxesIndependent);
    ProfileColorsAt(inp, c.dpiProfiles);
  }

  lemma RegionBytesAt(inp: seq<bv8>, ps: seq<DpiProfile>, indep: bool)
    requires |ps| == 8 && forall i :: 0 <= i < 8 ==> ps[i].value.Double? == indep
    requires 29 <= |inp| && At(inp, 13, DpiRegion(ps, indep))
    ensures inp[13..29] == DpiRegion(ps, indep)
  {
    RegionLength(ps, indep);
    AtSlice(inp, 13, DpiRegion(ps, indep));
  }

  lemma ProfileColorsAt(inp: seq<bv8>, ps: seq<DpiProfile>)
    requires |ps| == 8 && At(inp, 29, Flatten(ps, ProfileColorBytes))
    ensures ParseColorsRgb(inp, 29, 8) == Ok((ProfileColors(ps), 53))
  {
    ProfileColorsRoundTrip(inp, 29, ps);
  }

  /** The effect code and the parameter blocks where the encoder puts them read back as the lighting settings. */
  lemma LightingAt(inp: seq<bv8>, c: Config)
    requires ReportShaped(c) && ConfigLength <= |inp|
    requires At(inp, 53, [Rgb.EffectCode(c.rgbCurrentEffect)])
    requires At(inp, 54, EffectBlocksBytes(c.rgbEffectParameters, c.unknown.0))
    ensures ParseLighting(inp, 53) == Ok((Lighting(c.rgbCurrentEffect, c.rgbEffectParameters, c.unknown.0), 129))
  {
    AtIndex(inp, 53, [Rgb.EffectCode(c.rgbCurrentEffect)], 0);
    EffectBlocksRoundTrip(inp, 54, c.rgbEffectParameters, c.unknown.0);
    LightingDecode(inp, c);
  }

  /**
   * Decoding what the encoder writes gives back the configuration, for
   * every configuration of the shape a report holds.
   */
  lemma ConfigRoundTrip(c: Config)
    requires ReportShaped(c)
    ensures |ConfigContent(c)| == ConfigLength
    ensures ParseConfigReport(Padded(ConfigContent(c))) == Ok((c, ConfigLength))
  {
    ConfigContentLength(c);
    var inp := Padded(ConfigContent(c));
    AtPadded(ConfigContent(c));
    ConfigLayout(inp, c);
    ConfigReadBack(inp, c);
  }
}
