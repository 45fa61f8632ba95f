/** The per-node water-depth formula of the marsh evolver, as pure functions.
    Every node's depths depend only on its own elevation and on the shared
    scalars (mean sea level, tidal half range, tidal range, minimum depth), so
    the per-node functions below are the whole of the computation; the
    sequence-level functions apply them node by node and are what the
    in-place method of the evolver is proved against. */
module WaterDepth {

  function Max(a: real, b: real): (m: real)
    ensures m >= a && m >= b
    ensures m == a || m == b
  {
    if a >= b then a else b
  }

  /** Depth of water over a node of elevation `z` if the tide stood at mean
      high water (`msl + half`), clamped at zero. */
  function DepthAtMeanHighWater(z: real, msl: real, half: real): (d: real)
    ensures d >= 0.0 && d >= msl + half - z
    ensures d == 0.0 || d == msl + half - z
  {
    Max(0.0, -z + msl + half)
  }

  /** Tide-averaged depth of a permanently submerged node, before the floor at
      the minimum depth: the mean of the high-tide depth and the low-tide
      depth, the latter clamped at zero. */
  function RawFullyWetDepth(z: real, msl: real, half: real, range: real): (r: real)
    ensures r >= 0.0
    ensures r <= DepthAtMeanHighWater(z, msl, half) || range < 0.0
  {
    var d := DepthAtMeanHighWater(z, msl, half);
    0.5 * (d + Max(0.0, d - range))
  }

  /** The fully-wet depth of one node: the raw depth, raised to `minDepth`
      wherever it falls below it. */
  function FullyWetDepthAt(z: real, msl: real, half: real, range: real, minDepth: real): (r: real)
    ensures r >= minDepth && r >= 0.0
    ensures r == Max(minDepth, RawFullyWetDepth(z, msl, half, range))
  {
    var raw := RawFullyWetDepth(z, msl, half, range);
    if raw < minDepth then minDepth else raw
  }

  /** The water depth of one node: its fully-wet depth, except that a node
      above mean high water is dry. */
  function WaterDepthAt(z: real, msl: real, half: real, range: real, minDepth: real): (r: real)
    ensures r >= 0.0
    ensures z > msl + half ==> r == 0.0
    ensures z <= msl + half ==> r >= minDepth
  {
    if z > msl + half then 0.0 else FullyWetDepthAt(z, msl, half, range, minDepth)
  }

  /** Fully-wet depths of a whole grid, node by node. */
  function FullyWetDepths(elev: seq<real>, msl: real, half: real, range: real, minDepth: real): (r: seq<real>)
    ensures |r| == |elev|
    ensures forall i :: 0 <= i < |r| ==> r[i] >= minDepth
  {
    if elev == [] then []
    else [FullyWetDepthAt(elev[0], msl, half, range, minDepth)]
         + FullyWetDepths(elev[1..], msl, half, range, minDepth)
  }

  /** Water depths of a whole grid, node by node. */
  function WaterDepths(elev: seq<real>, msl: real, half: real, range: real, minDepth: real): (r: seq<real>)
    ensures |r| == |elev|
    ensures forall i :: 0 <= i < |r| ==> r[i] >= 0.0
    ensures forall i :: 0 <= i < |r| && elev[i] > msl + half ==> r[i] == 0.0
  {
    if elev == [] then []
    else [WaterDepthAt(elev[0], msl, half, range, minDepth)]
         + WaterDepths(elev[1..], msl, half, range, minDepth)
  }

  /** Node `i` of the grid-wide fully-wet depths is the per-node formula
      applied to node `i`'s elevation. */
  lemma {:induction false} FullyWetDepthsAt(elev: seq<real>, msl: real, half: real, range: real, minDepth: real, i: nat)
    requires i < |elev|
    ensures FullyWetDepths(elev, msl, half, range, minDepth)[i]
         == FullyWetDepthAt(elev[i], msl, half, range, minDepth)
  {
    if i > 0 {
      FullyWetDepthsAt(elev[1..], msl, half, range, minDepth, i - 1);
    }
  }

  /** Node `i` of the grid-wide water depths is the per-node formula applied
      to node `i`'s elevation. */
  lemma {:induction false} WaterDepthsAt(elev: seq<real>, msl: real, half: real, range: real, minDepth: real, i: nat)
    requires i < |elev|
    ensures WaterDepths(elev, msl, half, range, minDepth)[i]
         == WaterDepthAt(elev[i], msl, half, range, minDepth)
  {
    if i > 0 {
      WaterDepthsAt(elev[1..], msl, half, range, minDepth, i - 1);
    }
  }

  /** The water depth is the fully-wet depth copied over, then zeroed at the
      nodes above mean high water, and nowhere else. */
  lemma {:induction false} WaterDepthsFromFullyWet(elev: seq<real>, msl: real, half: real, range: real, minDepth: real)
    ensures var w := WaterDepths(elev, msl, half, range, minDepth);
            var f := FullyWetDepths(elev, msl, half, range, minDepth);
            forall i :: 0 <= i < |elev| ==>
              w[i] == if elev[i] > msl + half then 0.0 else f[i]
  {
    if elev != [] {
      WaterDepthsFromFullyWet(elev[1..], msl, half, range, minDepth);
    }
  }

  /** A node at or below mean low water is submerged all tide long: its
      tide-averaged depth is its depth below mean sea level. */
  lemma BelowMeanLowWater(z: real, msl: real, half: real, range: real)
    requires half == range / 2.0 && range >= 0.0
    requires z <= msl - half
    ensures RawFullyWetDepth(z, msl, half, range) == msl - z
  {
  }

  /** An intertidal node (above mean low water, at or below mean high water)
      is dry at low tide: its tide-averaged depth is half its high-tide depth. */
  lemma Intertidal(z: real, msl: real, half: real, range: real)
    requires half == range / 2.0
    requires msl - half < z <= msl + half
    ensures RawFullyWetDepth(z, msl, half, range) == (msl + half - z) / 2.0
  {
  }

  /** A node above mean high water has no water, and its fully-wet depth is
      the floor alone. */
  lemma AboveMeanHighWater(z: real, msl: real, half: real, range: real, minDepth: real)
    requires range >= 0.0 && minDepth >= 0.0
    requires z > msl + half
    ensures RawFullyWetDepth(z, msl, half, range) == 0.0
    ensures FullyWetDepthAt(z, msl, half, range, minDepth) == minDepth
    ensures WaterDepthAt(z, msl, half, range, minDepth) == 0.0
  {
  }

  /** Three nodes below, at and well above mean sea level, with the default
      tidal range of 3.1 m and the default minimum depth of 0.01 m: the two
      lower nodes are wet, the highest is dry and keeps only the floor as its
      fully-wet depth. */
  lemma ThreeNodeExample()
    ensures FullyWetDepths([-1.0, 0.0, 2.0], 0.0, 1.55, 3.1, 0.01) == [1.275, 0.775, 0.01]
    ensures WaterDepths([-1.0, 0.0, 2.0], 0.0, 1.55, 3.1, 0.01) == [1.275, 0.775, 0.0]
  {
  }
}
