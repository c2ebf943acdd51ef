/**
 * The whole device configuration held in a configuration report, and the
 * two fields that are derived from its DPI profiles.
 */
module DeviceConfig {
  import opened Wire
  import opened Device
  import Rgb
  import Params

  /** The capacities of the source's fixed-capacity vectors. */
  type Header = s: seq<bv8> | |s| <= 9
  type DpiProfiles = s: seq<DpiProfile> | |s| <= 8
  type UnknownBytes = s: seq<bv8> | |s| <= 12

  datatype Config = Config(
    header: Header,                   // passed through unchanged
    sensorId: bv8,
    dpiAxesIndependent: bool,         // derived: some profile sets the axes apart
    pollingRate: PollingRate,
    dpiCurrentProfile: bv8,
    dpiProfileCount: bv8,             // derived: the number of enabled profiles
    dpiProfiles: DpiProfiles,
    rgbCurrentEffect: Rgb.Effect,
    rgbEffectParameters: Params.EffectParameters,
    unknown: (UnknownBytes, bv8),     // a 12-byte gap and the trailing byte, passed through
    lod: bv8)                         // lift-off distance

  /** The number of enabled profiles in `ps`. */
  function EnabledCount(ps: seq<DpiProfile>): (n: nat)
    ensures n <= |ps|
    ensures n == 0 <==> forall i :: 0 <= i < |ps| ==> !ps[i].enabled
    ensures n == |ps| <==> forall i :: 0 <= i < |ps| ==> ps[i].enabled
  {
    if |ps| == 0 then 0
    else EnabledCount(ps[..|ps| - 1]) + (if ps[|ps| - 1].enabled then 1 else 0)
  }

  /** The profile count agrees with the profiles. */
  predicate ProfileCountConsistent(c: Config)
  {
    c.dpiProfileCount as int == EnabledCount(c.dpiProfiles)
  }

  /** Some profile gives the two axes their own DPI values. */
  predicate AnyDouble(ps: seq<DpiProfile>)
  {
    exists i :: 0 <= i < |ps| && ps[i].value.Double?
  }

  /** The axis-independence flag agrees with the profiles. */
  predicate AxesFlagConsistent(c: Config)
  {
    c.dpiAxesIndependent == AnyDouble(c.dpiProfiles)
  }

  /** Every speed and brightness fits its nibble and every colour list is full. */
  predicate ParamsReportShaped(p: Params.EffectParameters)
  {
    && p.glorious.speed < 16
    && p.singleColor.brightness < 16
    && p.breathing.speed < 16 && |p.breathing.colors| == 7
    && p.tail.speed < 16 && p.tail.brightness < 16
    && p.seamlessBreathing.speed < 16
    && |p.constantRgb.colors| == 6
    && p.rave.speed < 16 && p.rave.brightness < 16 && |p.rave.colors| == 2
    && p.random.speed < 16
    && p.wave.speed < 16 && p.wave.brightness < 16
    && p.singleBreathing.speed < 16
  }

  /**
   * The shape of every configuration a report can hold: all fixed-size
   * parts full, every nibble-packed field below 16, and every profile's
   * value of the kind the axis-independence flag announces.
   */
  predicate ReportShaped(c: Config)
  {
    && |c.header| == 9
    && |c.dpiProfiles| == 8
    && |c.unknown.0| == 12
    && c.dpiCurrentProfile < 16
    && c.dpiProfileCount < 16
    && (forall i :: 0 <= i < |c.dpiProfiles| ==> c.dpiProfiles[i].value.Double? == c.dpiAxesIndependent)
    && ParamsReportShaped(c.rgbEffectParameters)
  }

  /** In a configuration of that shape the axis-independence flag agrees with the profiles. */
  lemma ReportShapedFlagConsistent(c: Config)
    ensures ReportShaped(c) ==> AxesFlagConsistent(c)
  {
    if ReportShaped(c) && c.dpiAxesIndependent {
      assert c.dpiProfiles[0].value.Double?;
    }
  }

  /**
   * Sets the profile count to the number of enabled profiles, counting them
   * one by one, and changes nothing else.
   */
  method FixProfileCount(c: Config) returns (r: Config)
    ensures r == c.(dpiProfileCount := r.dpiProfileCount)
    ensures ProfileCountConsistent(r)
    ensures r.dpiProfileCount <= 8
    ensures ReportShaped(c) ==> ReportShaped(r)
  {
    var ps := c.dpiProfiles;
    var count := 0;
    for i := 0 to |ps|
      invariant count == EnabledCount(ps[..i])
    {
      assert ps[..i + 1][..i] == ps[..i];
      if ps[i].enabled {
        count := count + 1;
      }
    }
    assert ps[..|ps|] == ps;
    r := c.(dpiProfileCount := ByteOf(count));
  }

  /**
   * Sets the axis-independence flag to whether some profile gives the axes
   * their own values, and changes nothing else.
   */
  function FixAxesIndependent(c: Config): (r: Config)
    ensures r == c.(dpiAxesIndependent := r.dpiAxesIndependent)
    ensures AxesFlagConsistent(r)
    ensures ReportShaped(c) ==> r == c
    ensures ReportShaped(c.(dpiAxesIndependent := !c.dpiAxesIndependent)) ==> ReportShaped(r)
  {
    ReportShapedFlagConsistent(c);
    ReportShapedFlagConsistent(c.(dpiAxesIndependent := !c.dpiAxesIndependent));
    c.(dpiAxesIndependent := AnyDouble(c.dpiProfiles))
  }
}
