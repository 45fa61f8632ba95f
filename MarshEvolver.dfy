/** The marsh evolver component: the mean sea level it advances each time
    step, and the water-depth and fully-wet-depth arrays it derives from the
    ground elevation, the mean sea level and the tidal range. */
module Marsh {
  import opened WaterDepth

  /** Mean sea level after a run of time steps of lengths `dts`, starting at
      `msl` and rising at `rate` per unit time: each step adds `rate * dt`. */
  function SeaLevelAfter(msl: real, rate: real, dts: seq<real>): (r: real)
    ensures rate >= 0.0 && (forall k :: 0 <= k < |dts| ==> dts[k] >= 0.0) ==> r >= msl
    decreases |dts|
  {
    if dts == [] then msl else SeaLevelAfter(msl + rate * dts[0], rate, dts[1..])
  }

  function Sum(dts: seq<real>): real
  {
    if dts == [] then 0.0 else dts[0] + Sum(dts[1..])
  }

  /** The rise over any run of steps is the rate times the total elapsed time. */
  lemma {:induction false} SeaLevelAfterIsLinear(msl: real, rate: real, dts: seq<real>)
    ensures SeaLevelAfter(msl, rate, dts) == msl + rate * Sum(dts)
    decreases |dts|
  {
    if dts != [] {
      SeaLevelAfterIsLinear(msl + rate * dts[0], rate, dts[1..]);
    }
  }

  /** Running the steps `a` and then the steps `b` is running `a + b`. */
  lemma {:induction false} SeaLevelAfterAppend(msl: real, rate: real, a: seq<real>, b: seq<real>)
    ensures SeaLevelAfter(msl, rate, a + b) == SeaLevelAfter(SeaLevelAfter(msl, rate, a), rate, b)
    decreases |a|
  {
    if a != [] {
      var next := msl + rate * a[0];
      assert a + b != [] && (a + b)[0] == a[0] && (a + b)[1..] == a[1..] + b;
      assert SeaLevelAfter(msl, rate, a + b) == SeaLevelAfter(next, rate, a[1..] + b);
      assert SeaLevelAfter(msl, rate, a) == SeaLevelAfter(next, rate, a[1..]);
      SeaLevelAfterAppend(next, rate, a[1..], b);
    } else {
      assert a + b == b;
    }
  }

  class MarshEvolver {
    /** Ground elevation per node, borrowed from the grid and only read here. */
    const elev: array<real>
    /** Water depth per node, overwritten by GetWaterDepth. */
    const waterDepth: array<real>
    /** Depth per node as if the node were always submerged, never below the
        minimum depth; overwritten by GetWaterDepth. */
    const fullyWetDepth: array<real>

    var meanSeaLevel: real
    const relSlRiseRate: real
    const tidalRange: real
    const tidalHalfRange: real

    /** The three arrays have one entry per node and are distinct, so that
        writing the outputs leaves the elevation alone. */
    ghost predicate Valid()
    {
      waterDepth.Length == elev.Length && fullyWetDepth.Length == elev.Length
      && waterDepth != fullyWetDepth && waterDepth != elev && fullyWetDepth != elev
      && tidalHalfRange == tidalRange / 2.0
    }

    constructor (elev: array<real>, relSlRiseRate: real := 2.74e-6, tidalRange: real := 3.1)
      ensures Valid()
      ensures this.elev == elev && fresh(waterDepth) && fresh(fullyWetDepth)
      ensures meanSeaLevel == 0.0
      ensures this.relSlRiseRate == relSlRiseRate
      ensures this.tidalRange == tidalRange && tidalHalfRange == tidalRange / 2.0
    {
      this.elev := elev;
      waterDepth := new real[elev.Length];
      fullyWetDepth := new real[elev.Length];
      meanSeaLevel := 0.0;
      this.relSlRiseRate := relSlRiseRate;
      this.tidalRange := tidalRange;
      tidalHalfRange := tidalRange / 2.0;
    }

    /** Derives the fully-wet depth and then the water depth of every node. */
    method GetWaterDepth(minDepth: real := 0.01)
      requires Valid()
      modifies waterDepth, fullyWetDepth
      ensures fullyWetDepth[..]
           == FullyWetDepths(elev[..], meanSeaLevel, tidalHalfRange, tidalRange, minDepth)
      ensures waterDepth[..]
           == WaterDepths(elev[..], meanSeaLevel, tidalHalfRange, tidalRange, minDepth)
      ensures forall i :: 0 <= i < elev.Length ==>
                fullyWetDepth[i] >= minDepth && waterDepth[i] >= 0.0
      ensures forall i :: 0 <= i < elev.Length ==>
                waterDepth[i] == if elev[i] > meanSeaLevel + tidalHalfRange then 0.0 else fullyWetDepth[i]
      ensures unchanged(elev)
    {
      var n := elev.Length;
      var i := 0;
      while i < n
        invariant 0 <= i <= n
        invariant forall k :: 0 <= k < i ==>
                    fullyWetDepth[k] == FullyWetDepthAt(elev[k], meanSeaLevel, tidalHalfRange, tidalRange, minDepth)
        invariant unchanged(elev) && unchanged(waterDepth)
      {
        var d := Max(0.0, -elev[i] + meanSeaLevel + tidalHalfRange);
        fullyWetDepth[i] := 0.5 * (d + Max(0.0, d - tidalRange));
        if fullyWetDepth[i] < minDepth {
          fullyWetDepth[i] := minDepth;
        }
        i := i + 1;
      }
      i := 0;
      while i < n
        invariant 0 <= i <= n
        invariant forall k :: 0 <= k < i ==>
                    waterDepth[k] == WaterDepthAt(elev[k], meanSeaLevel, tidalHalfRange, tidalRange, minDepth)
        invariant forall k :: 0 <= k < n ==>
                    fullyWetDepth[k] == FullyWetDepthAt(elev[k], meanSeaLevel, tidalHalfRange, tidalRange, minDepth)
        invariant unchanged(elev)
      {
        waterDepth[i] := fullyWetDepth[i];
        if elev[i] > meanSeaLevel + tidalHalfRange {
          waterDepth[i] := 0.0;
        }
        i := i + 1;
      }
      forall k | 0 <= k < n
        ensures fullyWetDepth[..][k]
             == FullyWetDepths(elev[..], meanSeaLevel, tidalHalfRange, tidalRange, minDepth)[k]
        ensures waterDepth[..][k]
             == WaterDepths(elev[..], meanSeaLevel, tidalHalfRange, tidalRange, minDepth)[k]
      {
        FullyWetDepthsAt(elev[..], meanSeaLevel, tidalHalfRange, tidalRange, minDepth, k);
        WaterDepthsAt(elev[..], meanSeaLevel, tidalHalfRange, tidalRange, minDepth, k);
      }
      WaterDepthsFromFullyWet(elev[..], meanSeaLevel, tidalHalfRange, tidalRange, minDepth);
    }

    /** Advances the model by `dt`: the mean sea level rises by the rate times
        `dt`; nothing else changes. */
    method RunOneStep(dt: real)
      modifies this`meanSeaLevel
      ensures meanSeaLevel == old(meanSeaLevel) + relSlRiseRate * dt
      ensures meanSeaLevel == SeaLevelAfter(old(meanSeaLevel), relSlRiseRate, [dt])
      ensures relSlRiseRate >= 0.0 && dt >= 0.0 ==> meanSeaLevel >= old(meanSeaLevel)
      ensures unchanged(elev) && unchanged(waterDepth) && unchanged(fullyWetDepth)
    {
      meanSeaLevel := meanSeaLevel + relSlRiseRate * dt;
    }
  }

  /** Calling GetWaterDepth a second time with the same minimum depth, with the
      elevation and the sea level left as they were, leaves both arrays as the
      first call made them. */
  method GetWaterDepthTwice(m: MarshEvolver, minDepth: real) returns (water: seq<real>, fullyWet: seq<real>)
    requires m.Valid()
    modifies m.waterDepth, m.fullyWetDepth
    ensures m.waterDepth[..] == water && m.fullyWetDepth[..] == fullyWet
    ensures water == WaterDepths(m.elev[..], m.meanSeaLevel, m.tidalHalfRange, m.tidalRange, minDepth)
  {
    m.GetWaterDepth(minDepth);
    water, fullyWet := m.waterDepth[..], m.fullyWetDepth[..];
    m.GetWaterDepth(minDepth);
  }
}
