# Marsh evolver: sea level and water depth

A Dafny model of the `MarshEvolver` component of pyMarshMorpho2D, a tidal
marsh evolution model built on a node-based grid. The component keeps two
pieces of logic:

- **Sea-level tracking.** The component starts with mean sea level 0 and a
  fixed rise rate (default 2.74e-6 m/day). It also keeps a tidal range
  (default 3.1 m) and its half. Each `run_one_step(dt)` raises the mean sea
  level by `rate * dt`.
- **Water depth.** For each grid node of elevation `z`:
  - The depth at mean high water is `d = max(0, msl + half - z)`.
  - The fully-wet depth is `0.5 * (d + max(0, d - range))`. Any value below
    `min_depth` (default 0.01 m) is raised to `min_depth`.
  - The water depth is a copy of the fully-wet depth, set to 0 wherever
    `z > msl + half`.

The model has two files:

- `WaterDepth.dfy` (module `WaterDepth`) holds the depth formula.
  - The per-node functions are `DepthAtMeanHighWater`, `RawFullyWetDepth`,
    `FullyWetDepthAt` and `WaterDepthAt`.
  - `FullyWetDepths` and `WaterDepths` apply them to a whole grid.
  - The lemmas give the depth below mean low water, between the tides and
    above mean high water. A three-node example is worked out.
- `MarshEvolver.dfy` (module `Marsh`) holds the class `MarshEvolver`.
  - The elevation array is borrowed and only read.
  - The class owns the `waterDepth` and `fullyWetDepth` arrays.
  - `meanSeaLevel` is the only mutable scalar.
  - `GetWaterDepth` fills the two arrays in place, one loop per array. Its
    contract ties each array to the grid-wide function.
  - `RunOneStep` changes only `meanSeaLevel`.
  - `SeaLevelAfter` says what a run of steps does to the sea level.

The source has two slips, and the model follows the evident intent:

- Lines 73 and 77 call `np.amax(0, x)`. This passes `0` as the array and the
  node array as the axis, so the code as written does not compute an
  elementwise maximum. The model takes the elementwise `max(0, x[i])`.
- Line 81 compares an undefined name `z`. The model compares the
  component's elevation array.

## Model

| member | source | states |
|---|---|---|
| `WaterDepth.DepthAtMeanHighWater` | pymarshmorpho2d/marsh_evolver.py:73-75 | The high-water depth is non-negative and at least `msl + half - z`. It is one of those two values. |
| `WaterDepth.RawFullyWetDepth` | pymarshmorpho2d/marsh_evolver.py:76-78 | The tide-averaged depth before the floor is non-negative. For a non-negative tidal range it never exceeds the high-water depth. |
| `WaterDepth.FullyWetDepthAt` | pymarshmorpho2d/marsh_evolver.py:76-79 | A node's fully-wet depth is at least `min_depth` and at least 0. It is the larger of `min_depth` and the raw depth. |
| `WaterDepth.WaterDepthAt` | pymarshmorpho2d/marsh_evolver.py:80-81 | A node's water depth is non-negative. It is 0 above mean high water. At or below mean high water it is at least `min_depth`. |
| `WaterDepth.FullyWetDepths` | pymarshmorpho2d/marsh_evolver.py:73-79 | The grid-wide fully-wet depths have one entry per node, each at least `min_depth`. |
| `WaterDepth.WaterDepths` | pymarshmorpho2d/marsh_evolver.py:73-81 | The grid-wide water depths have one entry per node. Each is non-negative, and each is 0 at a node above mean high water. |
| `WaterDepth.FullyWetDepthsAt` | pymarshmorpho2d/marsh_evolver.py:73-79 | Entry `i` of the grid-wide fully-wet depths depends only on node `i`'s elevation and the shared scalars. |
| `WaterDepth.WaterDepthsAt` | pymarshmorpho2d/marsh_evolver.py:73-81 | Entry `i` of the grid-wide water depths depends only on node `i`'s elevation and the shared scalars. |
| `WaterDepth.WaterDepthsFromFullyWet` | pymarshmorpho2d/marsh_evolver.py:80-81 | The water depth is the fully-wet depth copied over and then set to 0 at the nodes above mean high water, and at no other node. |
| `WaterDepth.BelowMeanLowWater` | pymarshmorpho2d/marsh_evolver.py:73-78 | At or below mean low water, with half range = range / 2 >= 0, the raw fully-wet depth is `msl - z`. |
| `WaterDepth.Intertidal` | pymarshmorpho2d/marsh_evolver.py:73-78 | Between mean low water and mean high water, the raw fully-wet depth is half the high-water depth, `(msl + half - z) / 2`. |
| `WaterDepth.AboveMeanHighWater` | pymarshmorpho2d/marsh_evolver.py:73-81 | Above mean high water, with non-negative range and floor, the raw depth is 0, the fully-wet depth is `min_depth` and the water depth is 0. |
| `WaterDepth.ThreeNodeExample` | pymarshmorpho2d/marsh_evolver.py:70-81 | Elevations [-1, 0, 2] with msl 0, range 3.1 and floor 0.01 give fully-wet depths [1.275, 0.775, 0.01] and water depths [1.275, 0.775, 0]. |
| `Marsh.SeaLevelAfter` | pymarshmorpho2d/marsh_evolver.py:87 | Repeated steps with a non-negative rate and non-negative step lengths never lower the mean sea level. |
| `Marsh.SeaLevelAfterIsLinear` | pymarshmorpho2d/marsh_evolver.py:87 | After any run of steps, the sea level equals its start plus the rate times the total elapsed time. |
| `Marsh.SeaLevelAfterAppend` | pymarshmorpho2d/marsh_evolver.py:87 | Two runs of steps in a row give the same sea level as one run of their concatenation. |
| `Marsh.MarshEvolver.constructor` | pymarshmorpho2d/marsh_evolver.py:43-68 | The evolver starts with mean sea level 0. It keeps the given rate and tidal range, with half range = range / 2. It keeps the given elevation array and allocates fresh output arrays of the same length. |
| `Marsh.MarshEvolver.GetWaterDepth` | pymarshmorpho2d/marsh_evolver.py:70-81 | Afterwards both arrays equal the grid-wide functions of elevation, sea level, tidal range and `min_depth`. Every fully-wet depth is at least `min_depth` and every water depth is non-negative. The water depth is 0 above mean high water and equals the fully-wet depth elsewhere. The elevation array and the sea level are unchanged. |
| `Marsh.MarshEvolver.RunOneStep` | pymarshmorpho2d/marsh_evolver.py:83-93 | The mean sea level rises by exactly `rate * dt`, which is one step of `SeaLevelAfter`. A non-negative rate and step never lower it. The elevation and both depth arrays are unchanged. |
| `Marsh.GetWaterDepthTwice` | pymarshmorpho2d/marsh_evolver.py:70-81 | `get_water_depth` is idempotent: a second call with the same `min_depth` leaves both arrays exactly as the first call made them. |

## Left out

- The Landlab `Component` base class, the `_info` field-metadata table and the grid's named node fields (lines 5, 16-41, 59-63) are left out because they belong to the host framework. The elevation array is passed to the constructor, and the evolver allocates its two output arrays.
- Line 76 rebinds `_fully_wet_depth` to a new array instead of writing into the grid field. This aliasing detail is not modelled: `fullyWetDepth` is an array owned by the evolver and overwritten in place.
- numpy's vectorised masked assignments become explicit loops over nodes.
- Floating-point rounding is not modelled: elevations, depths, rates and times are `real`.
- The code as written fails at `np.amax(0, …)` (lines 73, 77) and at the undefined `z` (line 81). That failure is not modelled; the model computes the elementwise maximum and compares the elevation.
- Vegetation and roughness are left out because this file has no code for them: lines 89-93 are empty comments.
- The driver loop that calls `run_one_step` repeatedly is outside the component. `SeaLevelAfter` states what such a loop does to the sea level.
