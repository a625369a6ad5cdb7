/**
 * How the client merges the last Indoor Bike Data values and the last Cycling
 * Power Measurement values into the one reading it publishes.
 */
module Merge {
  import opened Wrappers
  import opened IndoorBike

  /** Power: the Indoor Bike Data value when there is one, else the power meter's. */
  function MergedPower(ftms: Option<int>, cycling: Option<int>): (p: Option<int>)
    ensures p.Some? <==> ftms.Some? || cycling.Some?
    ensures p.Some? ==> (ftms.Some? && p == ftms) || (ftms.None? && p == cycling)
  {
    if ftms.Some? then ftms else cycling
  }

  /**
   * Cadence: the last power-meter cadence once one has been seen; before that
   * the Indoor Bike Data cadence, except that a missing or zero one gives none.
   */
  function MergedCadence(ftms: Option<real>, cycling: Option<real>): (c: Option<real>)
    ensures cycling.Some? ==> c == cycling
    ensures cycling.None? ==> (c.Some? <==> ftms.Some? && ftms.value != 0.0)
    ensures c.Some? ==> c == cycling || c == ftms
  {
    if cycling.Some? then cycling
    else if ftms.None? || ftms.value == 0.0 then cycling
    else ftms
  }

  /** The published reading; speed comes from Indoor Bike Data only. */
  function Merged(ftmsPower: Option<int>, ftmsCadence: Option<real>, ftmsSpeed: Option<real>,
                  cyclingPower: Option<int>, cyclingCadence: Option<real>): IndoorBikeData
  {
    IndoorBikeData(MergedPower(ftmsPower, cyclingPower), MergedCadence(ftmsCadence, cyclingCadence), ftmsSpeed)
  }

  /**
   * The merged reading never invents a value: each field is one of its sources,
   * a zero cadence can only come from the power meter, and the speed is the
   * Indoor Bike Data speed whatever the power meter says.
   */
  lemma MergedFromSources(ftmsPower: Option<int>, ftmsCadence: Option<real>, ftmsSpeed: Option<real>,
                          cyclingPower: Option<int>, cyclingCadence: Option<real>,
                          otherPower: Option<int>, otherCadence: Option<real>)
    ensures var m := Merged(ftmsPower, ftmsCadence, ftmsSpeed, cyclingPower, cyclingCadence);
      (m.power == ftmsPower || m.power == cyclingPower) &&
      (m.cadence.Some? && m.cadence.value == 0.0 ==> m.cadence == cyclingCadence) &&
      m.speedKmh == Merged(ftmsPower, ftmsCadence, ftmsSpeed, otherPower, otherCadence).speedKmh
  {
  }

  /** Once the power meter has given a cadence, the Indoor Bike Data cadence no longer matters. */
  lemma CyclingCadenceSticks(ftmsCadence: Option<real>, otherFtmsCadence: Option<real>, cyclingCadence: real)
    ensures MergedCadence(ftmsCadence, Some(cyclingCadence)) == MergedCadence(otherFtmsCadence, Some(cyclingCadence))
    ensures MergedCadence(ftmsCadence, Some(cyclingCadence)) == Some(cyclingCadence)
  {
  }
}
