/**
 * The configuration report as the rest of the program sees it: a 520-byte
 * report read into a configuration and written from one, what every
 * decoded configuration looks like, and the normalisation of the two
 * derived fields.
 */
module Reports {
  import opened Wire
  import opened Device
  import opened Params
  import opened DeviceConfig
  import opened Decode
  import opened Encode
  import opened Codec

  /** `Config::from_raw`: the configuration a report holds, or why it holds none. */
  function FromRaw(raw: DataReport): (r: Result<Config>)
    ensures r.Ok? <==> 1 <= Lo(raw[10]) <= 4 && raw[53] <= 10
    ensures !(1 <= Lo(raw[10]) <= 4) ==> r == Err(UnknownPollingRate)
    ensures 1 <= Lo(raw[10]) <= 4 && raw[53] > 10 ==> r == Err(UnknownEffect)
    ensures r.Ok? ==> ConfigRead(raw, r.value)
  {
    var (c, _) :- ParseConfigReport(raw);
    Ok(c)
  }

  /** `Config::to_raw`: always a full report, and one that reads back as `c` when `c` has report shape. */
  method ToRaw(c: Config) returns (raw: DataReport)
    ensures |ConfigContent(c)| <= ReportSize && raw == Padded(ConfigContent(c))
    ensures ReportShaped(c) ==> FromRaw(raw) == Ok(c)
  {
    raw := ConfigReport(c);
    if ReportShaped(c) {
      ConfigRoundTrip(c);
    }
  }

  // ---------------------------------------------------------------------
  // What the decoder gives

  /** The DPI settings the decoder reads have the shape a report gives them. */
  lemma DpiSettingsShaped(inp: seq<bv8>, at: nat)
    requires ParseDpiSettings(inp, at).Ok?
    ensures var s := ParseDpiSettings(inp, at).value.0;
      && s.currentProfile < 16 && s.profileCount < 16 && |s.profiles| == 8
      && forall i :: 0 <= i < 8 ==> s.profiles[i].value.Double? == s.axesIndependent
  {
  }

  /** The parameter blocks the decoder reads have every nibble below 16 and every colour list full. */
  lemma EffectBlocksShaped(inp: seq<bv8>, at: nat)
    requires ParseEffectBlocks(inp, at).Ok?
    ensures ParamsReportShaped(ParseEffectBlocks(inp, at).value.0.0)
  {
  }

  /** The lighting settings the decoder reads have the shape a report gives them. */
  lemma LightingShaped(inp: seq<bv8>, at: nat)
    requires ParseLighting(inp, at).Ok?
    ensures var l := ParseLighting(inp, at).value.0;
      ParamsReportShaped(l.params) && |l.gap| == 12
  {
    EffectBlocksShaped(inp, at + 1);
  }

  /** Every configuration the decoder reads has report shape. */
  lemma DecodedIsReportShaped(inp: seq<bv8>)
    requires ParseConfigReport(inp).Ok?
    ensures ReportShaped(ParseConfigReport(inp).value.0)
  {
    DpiSettingsShaped(inp, 10);
    LightingShaped(inp, 53);
  }

  /**
   * Reading a report, writing the configuration out again and reading that
   * gives the same configuration: one pass through the two directions
   * normalises a report.
   */
  lemma ReencodeStable(raw: DataReport)
    requires FromRaw(raw).Ok?
    ensures |ConfigContent(FromRaw(raw).value)| <= ReportSize
    ensures FromRaw(Padded(ConfigContent(FromRaw(raw).value))) == FromRaw(raw)
  {
    DecodedIsReportShaped(raw);
    ConfigRoundTrip(FromRaw(raw).value);
  }

  // ---------------------------------------------------------------------
  // The derived fields

  /**
   * With both derived fields set from the profiles, a configuration whose
   * profiles all have the same kind of value, and which otherwise has
   * report shape, reads back from its report.
   */
  lemma NormalisedRoundTrip(c: Config, n: bv8)
    requires ReportShaped(FixAxesIndependent(c))
    requires n as int == EnabledCount(c.dpiProfiles)
    ensures var r := FixAxesIndependent(c).(dpiProfileCount := n);
      && ProfileCountConsistent(r) && AxesFlagConsistent(r)
      && ReportShaped(r)
      && |ConfigContent(r)| == ConfigLength
      && FromRaw(Padded(ConfigContent(r))) == Ok(r)
  {
    var r := FixAxesIndependent(c).(dpiProfileCount := n);
    assert ReportShaped(r);
    ConfigRoundTrip(r);
  }

  // ---------------------------------------------------------------------
  // DPI profiles as the decoder reads them

  /**
   * Profile `i` is enabled exactly when bit `i` of the mask is clear, has
   * colour `i`, and has the value whose byte is `2i` and `2i + 1` of the
   * region when the axes are independent and byte `i` otherwise.
   */
  lemma ProfileDecoding(indep: bool, mask: bv8, values: seq<bv8>, colors: seq<Color>, i: nat)
    requires |values| == 16 && |colors| == 8 && i < 8
    ensures var p := DpiProfilesFromRaw(indep, mask, values, colors)[i];
      && (p.enabled <==> mask & Bit(i) == 0)
      && p.color == colors[i]
      && (indep ==> p.value.Double? && DpiEncode(p.value.x) == values[2 * i] && DpiEncode(p.value.y) == values[2 * i + 1])
      && (!indep ==> p.value.Single? && DpiEncode(p.value.dpi) == values[i])
  {
    ValueDecoding(indep, values, i);
  }

  /** The value of profile `i` is the one whose bytes sit where the mode says. */
  lemma ValueDecoding(indep: bool, values: seq<bv8>, i: nat)
    requires |values| == 16 && i < 8
    ensures var v := DpiValueFromRaw(indep, values, i);
      && (indep ==> v.Double? && DpiEncode(v.x) == values[2 * i] && DpiEncode(v.y) == values[2 * i + 1])
      && (!indep ==> v.Single? && DpiEncode(v.dpi) == values[i])
  {
    if indep {
      DpiRoundTrip(100, values[2 * i]);
      DpiRoundTrip(100, values[2 * i + 1]);
    } else {
      DpiRoundTrip(100, values[i]);
    }
  }

  /** When the axes share values, bytes 8 to 15 of the region do not matter. */
  lemma SingleIgnoresUpperBytes(mask: bv8, values: seq<bv8>, others: seq<bv8>, colors: seq<Color>)
    requires |values| == 16 && |others| == 16 && |colors| == 8
    requires values[..8] == others[..8]
    ensures DpiProfilesFromRaw(false, mask, values, colors) == DpiProfilesFromRaw(false, mask, others, colors)
  {
    forall i | 0 <= i < 8
      ensures DpiValueFromRaw(false, values, i) == DpiValueFromRaw(false, others, i)
    {
      assert values[..8][i] == others[..8][i];
    }
  }

  /**
   * With shared axes (a zero high nibble in the first byte), the upper half
   * of the DPI region, bytes `at + 11` to `at + 18`, does not affect the DPI
   * settings read; in a report these are bytes 21 to 28.
   */
  lemma DpiSettingsIgnoreUpperRegion(a: seq<bv8>, b: seq<bv8>, at: nat)
    requires ParseDpiSettings(a, at).Ok? && ParseDpiSettings(b, at).Ok? && Hi(a[at]) == 0
    requires forall i :: at <= i < at + 43 && !(at + 11 <= i < at + 19) ==> a[i] == b[i]
    ensures ParseDpiSettings(a, at) == ParseDpiSettings(b, at)
  {
    SharedAxesSettingsAgree(a, b, at, ParseDpiSettings(a, at).value.0, ParseDpiSettings(b, at).value.0);
  }

  lemma SharedAxesSettingsAgree(a: seq<bv8>, b: seq<bv8>, at: nat, sa: DpiSettings, sb: DpiSettings)
    requires DpiSettingsRead(a, at, sa) && DpiSettingsRead(b, at, sb) && Hi(a[at]) == 0
    requires forall i :: at <= i < at + 43 && !(at + 11 <= i < at + 19) ==> a[i] == b[i]
    ensures sa == sb
  {
    var ca, cb := StoredProfileColors(a, at + 19), StoredProfileColors(b, at + 19);
    forall i | 0 <= i < 8
      ensures ca[i] == cb[i]
    {
      assert a[at + 19 + 3 * i] == b[at + 19 + 3 * i];
      assert a[at + 19 + 3 * i + 1] == b[at + 19 + 3 * i + 1];
      assert a[at + 19 + 3 * i + 2] == b[at + 19 + 3 * i + 2];
    }
    assert a[at + 3..at + 19][..8] == b[at + 3..at + 19][..8];
    SingleIgnoresUpperBytes(a[at + 2], a[at + 3..at + 19], b[at + 3..at + 19], ca);
    assert ca == cb;
    assert a[at] == b[at] && a[at + 1] == b[at + 1] && a[at + 2] == b[at + 2];
    PollingRateCodes(sa.pollingRate, 0);
    PollingRateCodes(sb.pollingRate, 0);
  }

  /** The mask 0b00000101 leaves exactly profiles 0 and 2 disabled. */
  lemma MaskExample(indep: bool, values: seq<bv8>, colors: seq<Color>)
    requires |values| == 16 && |colors| == 8
    ensures var ps := DpiProfilesFromRaw(indep, 0x05, values, colors);
      forall i :: 0 <= i < 8 ==> (!ps[i].enabled <==> i == 0 || i == 2)
  {
  }

  /** Profile colours are stored red, green, blue; effect colours red, blue, green. */
  lemma ColorOrderExample()
    ensures ParseColorRgb([0x10, 0x20, 0x30], 0) == Ok((Color(0x10, 0x20, 0x30), 3))
    ensures ParseColorRbg([0x10, 0x20, 0x30], 0) == Ok((Color(0x10, 0x30, 0x20), 3))
  {
  }

  /** When the axes share values the encoder fills bytes 8 to 15 of the region with zeros. */
  lemma RegionUpperZeros(ps: seq<DpiProfile>)
    requires |ps| == 8
    requires forall i :: 0 <= i < 8 ==> ps[i].value.Single?
    ensures |DpiRegion(ps, false)| == 16
    ensures forall j :: 8 <= j < 16 ==> DpiRegion(ps, false)[j] == 0
  {
    assert forall x :: x in ps ==> |DpiValueBytes(x)| == 1;
    FlattenLengthIn(ps, DpiValueBytes, 1);
  }
}
