# Parallel-beam CT simulator: geometric core in Dafny

This project models the geometric engine of a parallel-beam computed-tomography
simulator over exact `real` arithmetic. The engine has four parts:

- a square density map read from an 8-bit image;
- a fan of parallel rays for each scan angle, launched from a detector line tangent to a circle around the image centre;
- a ray tracer that clips each ray against the image square and sums the densities at fixed 0.5 steps;
- an orchestrator that collects one projection per angle into a `size x numAngles` sinogram, min-max normalises it, and backprojects it into a `size x size` image.

The older single-class version of the same pipeline, `src/ct_sim.cpp`, is modelled
separately, as `LegacyCtSim`. It is proved to produce the same sinogram as the refactored code.

Modules, one per source component:

| module | models |
|---|---|
| `Wrappers` | `Option` and `Result` |
| `Geometry` | `glm::dvec2` arithmetic, the rotation `v * dmat2(cos, -sin, sin, cos)`, `glm::normalize` |
| `Matrices` | `cv::Mat` as rows of reals, zero allocation, column copy, `cv::normalize(..., 0, 1, NORM_MINMAX)` |
| `DensityMaps` | `DensityMap`: loading rules, `getSize`, `getDensity` |
| `Rays` | `Ray`: origin, direction and length; the getters are the datatype's fields |
| `RayTracer` | `RayTracer::setupRays` and `RayTracer::traceRay` |
| `Simulation` | `Simulation::simulateCT`, `simulateProjectionForAngle`, `filterProjections`, `backProject` |
| `SimulationResults` | `SimulationResult`: the (image, projections) pair; the getters are the datatype's fields |
| `LegacyCtSim` | `ct_sim.cpp`: construction, `getDensity`, `run`, `simulateRayColumn`, `traceRay`, and the reconstruction in `saveProjectionImage` |

How the model represents what reals cannot:

- **Angles.** A scan angle is given by its cosine and sine as a `Trig` pair, constrained only by `cos^2 + sin^2 = 1`. The orchestrator takes `rot`, which maps an angle in degrees to its pair. Angle `i` of `k` is `i * (360 / k)` degrees, as both versions compute it. The same angle therefore gets the same pair in projection and in backprojection.
- **Square roots.** `glm::normalize` receives the vector's norm as a witness, `len` with `len * len == |v|^2`. The rotated base vector's norm is `|size/2 - 1|`.
- **Infinities and NaN.**
  - The clip's `±infinity` seeds are the missing ends of an `Interval` of `Option<real>`.
  - At `size == 2` the rotated base vector is zero. The C++ simulator then normalises it into NaN, and its tracer loops forever. Here there is no detector at that size (`DetectorFor` returns `None`), and the operations that would hang require `size != 2`.
- **Integer casts.** `floor` is `real.Floor`. The `size_t`/`int` casts of cell indices are plain integers, with "outside the grid" meaning `< 0` or `>= size`.

## Model

| member | source | states |
|---|---|---|
| `DensityMaps.Scaled` | src/DensityMap.cpp:41 | an 8-bit intensity scaled by 1/255 lies in [0, 1], and is 0 or 1 exactly for intensity 0 or 255 |
| `DensityMaps.Load` | src/DensityMap.cpp:32-53 | a load succeeds iff the image is non-empty and square. Otherwise it fails with `EmptyImage` or `NotSquare(rows, cols)`. On success the grid is `size x size` with `size == rows == cols`, every cell is the scaled pixel at the same row and column, and every cell is in [0, 1] |
| `DensityMaps.GetSize` | src/DensityMap.cpp:28-30 | the stored side length equals the number of rows and of columns of the grid |
| `DensityMaps.GetDensityOfLoaded` | src/DensityMap.cpp:16-26 | reading a loaded map at column `x`, row `y` gives the scaled pixel `pixels[y][x]`, and exactly 0.0 when either index is `>= size` |
| `DensityMaps.GetDensity` | src/DensityMap.cpp:16-26 | a read at column `x`, row `y` is 0.0 when either index is `>= size`, and otherwise the cell at row `y`, column `x`; it is defined for every pair of naturals |
| `DensityMaps.GetDensityBounds` | src/DensityMap.cpp:16-26 | over a grid with cells in [lo, hi] a read lies in [lo, hi] or is the out-of-grid 0.0 |
| `Geometry.Rotate` | src/RayTracer.cpp:26-27 | the row-vector rotation preserves length, and turns `(r, 0)` into `r * (cos, sin)` |
| `Geometry.Perp` | src/RayTracer.cpp:43 | `(-v.y, v.x)` is perpendicular to `v` and as long as `v` |
| `Geometry.Normalize` | src/RayTracer.cpp:28 | normalising gives a unit vector that, scaled by the norm, is the input; there is no result exactly for the zero vector |
| `RayTracer.AngleVector` | src/RayTracer.cpp:22-27 | the rotated base vector is `(radius - 1) * (cos, sin)` and has squared length `(radius - 1)^2` |
| `RayTracer.DetectorFor` | src/RayTracer.cpp:21-43 | a detector exists iff `size != 2`. Its beam direction and tangent are perpendicular unit vectors, its tangent point is `center + angle`, the direction scaled by `abs(radius - 1)` is `-angle`, and stepping that far from the tangent point reaches the image centre |
| `RayTracer.DetectorAt` | src/RayTracer.cpp:28-43 | the direction is `normalize(-a)` and the tangent is `normalize((-a.y, a.x))`; both are unit and perpendicular |
| `RayTracer.SetupRays` | src/RayTracer.cpp:18-62 | exactly `numRays` rays. All share one unit direction, the detector's `normalize(-angle)`, and all have length `size`. Ray `i` starts at `tangentCenter + tangent * (i * size/numRays - radius)`. At `size == 2` no rays can be set up unless `numRays == 0` |
| `RayTracer.RaysEvenlySpaced` | src/RayTracer.cpp:52-59 | consecutive origins differ by `size/numRays` times the unit tangent: they are `size/numRays` apart, and the step is perpendicular to the shared direction |
| `RayTracer.RayOrigin` | src/RayTracer.cpp:57 | ray `i` starts on the detector line through the tangent point: its offset along a unit tangent is `i * size/numRays - radius`, and its offset along a perpendicular beam direction is 0 |
| `RayTracer.OneRayPerColumn` | src/RayTracer.cpp:52-57 | with `numRays == size`, ray `i` starts `i - size/2` along the tangent from the tangent point |
| `RayTracer.ClipAxis` | src/RayTracer.cpp:89-117 | one axis misses iff its direction component is 0 and the origin is outside `[0, size]` on that axis. A moving axis yields finite ends; a fixed axis inside the slab leaves the interval unchanged |
| `RayTracer.SlabCrossings` | src/RayTracer.cpp:89-96 | for a nonzero component, `t` lies between the two slab crossings iff `o + t*d` lies in `[0, size]` |
| `RayTracer.ClipAxisExact` | src/RayTracer.cpp:89-117 | one axis's clip keeps exactly the parameters of the incoming interval at which that coordinate is in `[0, size]`, and a miss has none |
| `RayTracer.ClipBothAxes` | src/RayTracer.cpp:81-117 | after both axes, the interval holds exactly the parameters at which the ray is in the square; an axis miss means the ray is never in the square |
| `RayTracer.ClipRay` | src/RayTracer.cpp:81-125 | the interval is unbounded iff the direction is zero and the origin is in the square. A segment satisfies `0 <= tStart <= tEnd` |
| `RayTracer.ClipRayExact` | src/RayTracer.cpp:81-125 | a segment `[tStart, tEnd]` holds exactly the `t >= 0` at which the ray is in the square. An axis-parallel miss, an empty interval and an interval behind the origin all hold no such `t` |
| `RayTracer.SampleCount` | src/RayTracer.cpp:131-137 | sample `k` (at `t0 + k*0.5`) is taken iff `k` is below the count, i.e. iff it is `< tEnd` |
| `RayTracer.Contribution` | src/RayTracer.cpp:138-149 | a sample at `p` adds 0.5 times the density of cell `floor(p)`. A cell left of, right of, below or above the grid adds nothing, which is what `getDensity` reads there |
| `RayTracer.LineIntegral` | src/RayTracer.cpp:64-161 | a ray whose clip is not a segment traces to 0.0. A segment traces to 0.5 times the sum of the densities read at the samples `tStart + k*0.5 < tEnd` |
| `RayTracer.SampleSumIsDensitySum` | src/RayTracer.cpp:135-150 | after `k` steps the running total is 0.5 times the sum of the first `k` sampled densities |
| `RayTracer.TraceRay` | src/RayTracer.cpp:64-162 | the clip-then-loop method returns the line integral: 0.0 on a miss, otherwise the sum over samples `tStart + k*0.5 < tEnd` of `0.5 * density(floor(p))`, where cells outside the grid add 0 |
| `RayTracer.SampleSumBounds` | src/RayTracer.cpp:135-158 | with cells in [0, hi], the densities read at `n` samples, times 0.5, add up to between 0 and `n * hi * 0.5` |
| `RayTracer.SamplesInBox` | src/RayTracer.cpp:124-143 | every sample point of a clipped segment lies in the closed square `[0, size]^2` |
| `RayTracer.MissTracesZero` | src/RayTracer.cpp:99-122 | a ray that is in the square at no `t >= 0` traces to exactly 0.0 |
| `RayTracer.LineIntegralBounds` | src/RayTracer.cpp:119-161 | with cells in [0, hi] a trace is non-negative. A segment with `n` samples traces to at most `n * hi * 0.5`, and a miss traces to 0.0 |
| `RayTracer.SampleCountBound` | src/RayTracer.cpp:131-137 | a segment of length `L` holds at most `2L + 1` samples |
| `Matrices.Zeros` | src/Simulation.cpp:20 | the allocated `rows x cols` matrix has every entry 0 |
| `Matrices.SetColumn` | src/Simulation.cpp:24 | copying into column `col` replaces exactly that column and keeps the shape and every other entry |
| `Matrices.MinMaxScale` | src/Simulation.cpp:45 | a value range above DBL_EPSILON is scaled by its reciprocal; a smaller range is scaled by 0 |
| `Matrices.NormalizeBetween` | src/Simulation.cpp:45 | rescaling by a minimum and maximum keeps the shape and maps into [0, 1]. Over a range above DBL_EPSILON the minimum's entries map to 0 and the maximum's to 1, and every entry `v` maps to `w` with `w * (hi - lo) == v - lo`; otherwise everything maps to 0 |
| `Matrices.MinMaxNormalize` | src/Simulation.cpp:44-48 | filtering keeps the shape and puts every entry in [0, 1]. When the range exceeds DBL_EPSILON the least entry becomes 0, the greatest 1, and every entry `v` becomes `(v - min) / (max - min)`; otherwise all entries become 0 |
| `Matrices.MinMaxNormalizeIdempotent` | src/Simulation.cpp:44-48 | filtering an already filtered matrix changes nothing |
| `Simulation.AngleDegrees` | src/Simulation.cpp:23 | angle `i` of `k` lies in [0, 360) and is `i/k` of a full turn |
| `Simulation.Projection` | src/Simulation.cpp:33-41 | one projection has one entry per image column |
| `Simulation.SimulateProjectionForAngle` | src/Simulation.cpp:33-42 | the loop fills a zero column of length `size` so that entry `i` is the trace of ray `i` from `setupRays(phi, size)`, in ray order |
| `Simulation.ProjectionNonNegative` | src/Simulation.cpp:33-41 | with non-negative densities every projection entry is non-negative |
| `Simulation.Sinogram` | src/Simulation.cpp:19-24 | the unfiltered projections matrix is `size x numAngles` |
| `Simulation.BuildSinogram` | src/Simulation.cpp:19-25 | copying projection `i` into column `i` of a zero matrix for every angle yields the sinogram whose column `c` is the projection at angle `c` |
| `Simulation.DetectorIndex` | src/Simulation.cpp:68-74 | the detector coordinate of pixel (`x`, `y`) is its offset from the image centre along the detector axis `(-sin, cos)`, plus `size/2` |
| `Simulation.DetectorCoordinateOfRay` | src/Simulation.cpp:68-74 | every point of ray `i` (as set up with `numRays == size`) has detector coordinate `i`, so backprojection smears the trace of ray `i` along that ray. At `size == 1` the coordinate is `size - i` |
| `Simulation.BinValue` | src/Simulation.cpp:73-96 | a pixel reads a value iff `-1 <= floor(index) < size` (and the column is non-empty). With both bins present the value is `v[index0] + frac * (v[index1] - v[index0])`, the blend with weights `(1 - frac, frac)`, and lies between the two; with only `index0` present it is `v[size-1]`; with only `index1` present it is `v[0]`; an integral index reads that bin exactly |
| `Simulation.Interpolate` | src/Simulation.cpp:78-86 | weights `(1 - frac, frac)` with `frac` in [0, 1] keep the blend between the two bin values, and `frac == 0` gives `v[index0]` |
| `Simulation.BinValueWithin` | src/Simulation.cpp:76-96 | with a column in [lo, hi], whatever a pixel reads is in [lo, hi] |
| `Simulation.BackProjection` | src/Simulation.cpp:53-54 | the reconstructed image is `size x size` |
| `Simulation.BackProject` | src/Simulation.cpp:50-104 | the angle/row/column loops over a zero image produce, at each pixel, the unweighted sum over angles of the bin values read there, with pixels that read nothing left unchanged for that angle |
| `Simulation.AngleContributionBounds` | src/Simulation.cpp:81-98 | with projections in [0, hi] one angle adds between 0 and `hi` to a pixel |
| `Simulation.PixelSumBounds` | src/Simulation.cpp:59-98 | with projections in [0, hi] the first `n` angles add up to between 0 and `n * hi` |
| `Simulation.BackProjectionBounds` | src/Simulation.cpp:50-104 | with projections in [0, hi] every pixel lies in [0, numAngles * hi]; zero projections give a zero image |
| `Simulation.NormalizedBackProjectionBounds` | src/Simulation.cpp:27-29 | backprojecting filtered projections gives pixels in [0, numAngles] |
| `Simulation.SimulateCT` | src/Simulation.cpp:16-31 | the result holds the min-max filtered `size x numAngles` sinogram, with entries in [0, 1], and its `size x size` backprojection, with pixels in [0, numAngles] |
| `LegacyCtSim.Create` | src/ct_sim.cpp:16-52 | construction succeeds exactly when the image loads under the density-map rules, and fails with the same error. The grid is the loaded map, and the projections are a zero `size x angles` matrix |
| `LegacyCtSim.GetDensity` | src/ct_sim.cpp:73-81 | the legacy read agrees with the density map's read at every pair of naturals: 0.0 outside, cell (row `y`, column `x`) inside |
| `LegacyCtSim.PartialStep` | src/ct_sim.cpp:223-247 | once the loop has left `t == tStart + step*0.5 >= tEnd`, the partial-step block adds nothing |
| `LegacyCtSim.TraceRay` | src/ct_sim.cpp:134-251 | the legacy tracer (same clip and early returns, same loop, plus the partial step) returns exactly the refactored line integral |
| `LegacyCtSim.ColumnRay` | src/ct_sim.cpp:119-121 | ray `i` of a column runs along `an` with length `size`, and starts on the detector line, `i - size/2` along a unit `td` from `tc` and 0 along a perpendicular `an` |
| `LegacyCtSim.ColumnProjection` | src/ct_sim.cpp:119-121 | a column has one traced entry per image row |
| `LegacyCtSim.SimulateRayColumn` | src/ct_sim.cpp:104-132 | column `col` is overwritten with the traces of the `size` rays starting at `tc + td * (i - size/2)` along `normalize(-a)`. An out-of-range column writes nothing, and nothing else changes |
| `LegacyCtSim.ColumnMatchesProjection` | src/ct_sim.cpp:104-121 | the legacy column for an angle equals the refactored projection for it: same origins, same direction |
| `LegacyCtSim.Run` | src/ct_sim.cpp:83-102 | after the scan the projections matrix is exactly the refactored, unfiltered sinogram; the out-of-range write guard is never taken |
| `LegacyCtSim.Reconstruct` | src/ct_sim.cpp:253-307 | the image is the min-max normalised backprojection of the unnormalised projections, using the same bin policy, with pixels in [0, 1] |

## Left out

- Image decoding and encoding, and all file-system work, are not modelled: `cv::imread`, `cv::imwrite`, the debug PNG dumps, output-directory creation, and the 8- and 16-bit exports in the legacy export and in `PostProcessing`. A load starts from the decoded pixel rows.
- Logging and the debug sampling of the centre of the loaded image are left out; they have no effect on results.
- The command-line entry points are left out, as is `PostProcessing`; they are plumbing around the modelled pipeline.
- Floating-point behaviour is left out: rounding, the numeric values of `cos`, `sin` and `sqrt`, and the degree-to-radian conversion. Angles are `Trig` pairs on the unit circle, and norms are witnesses.
- `filterProjections` is documented in `include/Simulation.hpp` as a ramp filter using the DFT, but the code only min-max normalises. The model follows the code. The normalisation formulas follow OpenCV's `NORM_MINMAX` definition, which is not part of this repository.
- Copy and move constructors and reference-held members are object lifetime, not behaviour, and are left out. A datatype value has no separate copy and move forms. `getMutImage` and `getMutProjections` are declared in `include/SimulationResult.hpp` but have no definition in `src/SimulationResult.cpp`.
- `RayTracer.SetupRays` returns no rays at `size == 2` with `numRays > 0`, where the C++ simulator builds NaN rays that later trace forever. `Simulation` and `LegacyCtSim.Run` require `size != 2`, and tracing requires a ray that is not standing still inside the square (`Traceable`).
- `LegacyCtSim.SimulateRayColumn` requires the norm witness of `a` to be positive when the image is non-empty; a zero `a` only arises at `size == 2`.
- `Simulation.BackProject` takes the number of angles as a parameter, standing for `projections.cols`, because a matrix with no rows has no columns in this representation.
- The `size_t` cast of a negative `floor` is not modelled as wrap-around; such a cell counts as outside the grid. `RayTracer.SamplesInBox` shows that sample points are never below 0.
