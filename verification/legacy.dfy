/**
 * The earlier, single-class version of the simulator (`ct_sim.cpp`): the same
 * pipeline held in one object whose projections matrix is filled in place, with
 * a tracer that adds a "partial final step" after its sampling loop, and a
 * reconstruction that backprojects the unnormalised projections before
 * normalising the image.
 */
module LegacyCtSim {
  import opened Wrappers
  import opened Geometry
  import opened Matrices
  import DensityMaps
  import opened Rays
  import opened RayTracer
  import Simulation

  /** The simulator's state: density grid, projections, side length, angle count, radius. */
  datatype CtSim = CtSim(densityMap: Matrix, projections: Matrix, imageSize: nat, numAngles: nat, radius: real)

  /** The grid is square, the projections are `imageSize x numAngles`, the radius half the side. */
  predicate WellFormed(s: CtSim) {
    IsMatrix(s.densityMap, s.imageSize, s.imageSize) &&
    IsMatrix(s.projections, s.imageSize, s.numAngles) &&
    s.radius == s.imageSize as real / 2.0
  }

  /** The grid seen as a density map. */
  function AsDensityMap(s: CtSim): (d: DensityMaps.DensityMap)
    requires WellFormed(s)
    ensures DensityMaps.Valid(d) && DensityMaps.GetSize(d) == s.imageSize
  {
    DensityMaps.DensityMap(s.densityMap, s.imageSize)
  }

  /**
   * Construction: the image is loaded under the same rules as the density map
   * (rejected when empty or not square, scaled by 1/255), and the projections
   * start as a zero `size x angles` matrix.
   */
  function Create(pixels: seq<seq<DensityMaps.Byte>>, angles: nat): (r: Result<CtSim, DensityMaps.LoadError>)
    requires DensityMaps.IsImage(pixels)
    ensures r.Success? <==> DensityMaps.Load(pixels).Success?
    ensures r.Failure? ==> r.error == DensityMaps.Load(pixels).error
    ensures r.Success? ==>
              WellFormed(r.value) && r.value.imageSize == |pixels| && r.value.numAngles == angles &&
              AsDensityMap(r.value) == DensityMaps.Load(pixels).value &&
              AllIn(r.value.projections, 0.0, 0.0)
  {
    match DensityMaps.Load(pixels)
    case Failure(e) => Failure(e)
    case Success(d) =>
      Success(CtSim(d.values, Zeros(d.size, angles), d.size, angles, d.size as real / 2.0))
  }

  /** The density of cell (`x`, `y`), 0.0 outside the grid: the same reading as the density map's. */
  function GetDensity(s: CtSim, x: nat, y: nat): (v: real)
    requires WellFormed(s)
    ensures v == DensityMaps.GetDensity(AsDensityMap(s), x, y)
  {
    if x >= s.imageSize || y >= s.imageSize then 0.0 else s.densityMap[y][x]
  }

  /**
   * The block after the sampling loop: when `t` is less than `1e-6` past the
   * end, the part of the segment the samples `tStart + k * 0.5` did not cover,
   * if positive, is weighted with the density at `t`.
   */
  function PartialStep(s: CtSim, r: Ray, t: real, tStart: real, tEnd: real, step: nat): (extra: real)
    requires WellFormed(s)
    ensures t == SampleT(tStart, step) && tEnd <= t ==> extra == 0.0
  {
    if t < tEnd + 0.000001 then
      var remaining := tEnd - (tStart + step as real * DeltaT);
      if remaining > 0.0 then
        var p := PointAt(r, t);
        var x := p.x.Floor;
        var y := p.y.Floor;
        if 0 <= x < s.imageSize && 0 <= y < s.imageSize then GetDensity(s, x, y) * remaining else 0.0
      else 0.0
    else 0.0
  }

  /**
   * The legacy tracer: the same slab clip and early returns, the same 0.5-step
   * loop, then the partial step. Over exact reals it traces every ray to the same
   * value as the refactored tracer.
   */
  method TraceRay(s: CtSim, startPoint: Vec2, direction: Vec2) returns (total: real)
    requires WellFormed(s) && (direction != Zero || !InBox(s.imageSize, startPoint))
    ensures total == LineIntegral(AsDensityMap(s), Ray(startPoint, direction, s.imageSize))
  {
    var r := Ray(startPoint, direction, s.imageSize);
    var clip := ClipRay(s.imageSize, r);
    if !clip.Segment? {
      return 0.0;
    }
    var tStart, tEnd := clip.tStart, clip.tEnd;
    ghost var n := SampleCount(tStart, tEnd);
    total := 0.0;
    var t := tStart;
    var step: nat := 0;
    while t < tEnd
      invariant step <= n && t == SampleT(tStart, step)
      invariant total == SampleSum(AsDensityMap(s), r, tStart, step)
      decreases n - step
    {
      var p := PointAt(r, t);
      var x := p.x.Floor;
      var y := p.y.Floor;
      if 0 <= x < s.imageSize && 0 <= y < s.imageSize {
        total := total + GetDensity(s, x, y) * DeltaT;
      }
      t := t + DeltaT;
      step := step + 1;
    }
    total := total + PartialStep(s, r, t, tStart, tEnd, step);
  }

  /**
   * Ray `i` of a column: it runs along the beam direction and starts on the
   * detector line, `i - size/2` from the tangent point.
   */
  function ColumnRay(det: Detector, size: nat, i: nat): (r: Ray)
    ensures r.direction == det.direction && r.length == size
    ensures IsUnit(det.tangent) ==>
              Dot(Sub(r.origin, det.tangentCenter), det.tangent) == i as real - Radius(size)
    ensures Dot(det.tangent, det.direction) == 0.0 ==>
              Dot(Sub(r.origin, det.tangentCenter), det.direction) == 0.0
  {
    var k := i as real - size as real / 2.0;
    OffsetAlongLine(det.tangentCenter, k, det.tangent, det.direction);
    Ray(Add(det.tangentCenter, Scale(k, det.tangent)), det.direction, size)
  }

  /** The traced densities of the `imageSize` rays of one column. */
  function ColumnProjection(s: CtSim, det: Detector): (p: seq<real>)
    requires WellFormed(s) && IsUnit(det.direction)
    ensures |p| == s.imageSize
  {
    seq(s.imageSize, i requires 0 <= i < s.imageSize =>
      LineIntegral(AsDensityMap(s), ColumnRay(det, s.imageSize, i)))
  }

  /**
   * One column of the sinogram: for the rotated vector `a` (of length `len`)
   * around the centre `c`, trace `imageSize` rays and store ray `i` at row `i` of
   * column `col`. A write outside the matrix is skipped; nothing else changes.
   */
  method SimulateRayColumn(s: CtSim, c: Vec2, a: Vec2, len: real, col: nat) returns (s': CtSim)
    requires WellFormed(s) && len >= 0.0 && len * len == Dot(a, a) && (len > 0.0 || s.imageSize == 0)
    ensures WellFormed(s')
    ensures s'.densityMap == s.densityMap && s'.imageSize == s.imageSize
    ensures s'.numAngles == s.numAngles && s'.radius == s.radius
    ensures s.imageSize > 0 && col < s.numAngles ==>
              s'.projections == SetColumn(s.projections, col, ColumnProjection(s, DetectorAt(c, a, len)))
    ensures s.imageSize == 0 || col >= s.numAngles ==> s'.projections == s.projections
  {
    s' := s;
    if s.imageSize == 0 {
      return;
    }
    var det := DetectorAt(c, a, len);
    ghost var column := ColumnProjection(s, det);
    for i := 0 to s.imageSize
      invariant WellFormed(s') && s'.densityMap == s.densityMap && s'.imageSize == s.imageSize
      invariant s'.numAngles == s.numAngles && s'.radius == s.radius
      invariant forall r, k | 0 <= r < s.imageSize && 0 <= k < s.numAngles ::
                  s'.projections[r][k] == if k == col && r < i then column[r] else s.projections[r][k]
    {
      var ray := ColumnRay(det, s.imageSize, i);
      var projection := TraceRay(s', ray.origin, ray.direction);
      if i < |s'.projections| && col < s.numAngles {
        var row := s'.projections[i][col := projection];
        s' := s'.(projections := s'.projections[i := row]);
      }
    }
    if col < s.numAngles {
      ghost var expected := SetColumn(s.projections, col, column);
      assert forall r | 0 <= r < s.imageSize :: s'.projections[r] == expected[r];
    } else {
      assert forall r | 0 <= r < s.imageSize :: s'.projections[r] == s.projections[r];
    }
  }

  /**
   * With one ray per column, the legacy column for angle `t` is the refactored
   * projection for `t`: the rays start at the same points and share a direction.
   */
  lemma ColumnMatchesProjection(s: CtSim, t: Trig)
    requires WellFormed(s) && OnUnitCircle(t) && s.imageSize != 2 && s.imageSize > 0
    ensures var size := s.imageSize;
            var det := DetectorAt(Center(size), AngleVector(size, t), Abs(Radius(size) - 1.0));
            ColumnProjection(s, det) == Simulation.Projection(AsDensityMap(s), t)
  {
    var size := s.imageSize;
    var m := AsDensityMap(s);
    var det := DetectorAt(Center(size), AngleVector(size, t), Abs(Radius(size) - 1.0));
    assert DetectorFor(size, t) == Some(det);
    var rays := SetupRays(m, t, size).value;
    forall i | 0 <= i < size
      ensures ColumnRay(det, size, i) == rays[i]
    {
      OneRayPerColumn(det, size, i);
    }
  }

  /**
   * The scan: for angle `i` of `numAngles`, rotate the base vector
   * `(radius - 1, 0)` and fill column `i`. The result is exactly the refactored
   * sinogram, before normalisation.
   */
  method Run(s: CtSim, rot: real -> Trig) returns (s': CtSim)
    requires WellFormed(s) && s.imageSize != 2 && IsTrigTable(rot)
    ensures WellFormed(s')
    ensures s'.densityMap == s.densityMap && s'.imageSize == s.imageSize
    ensures s'.numAngles == s.numAngles && s'.radius == s.radius
    ensures s.imageSize > 0 ==> s'.projections == Simulation.Sinogram(AsDensityMap(s), rot, s.numAngles)
  {
    var center := Vec2(s.radius, s.radius);
    var baseVec := Vec2(s.radius - 1.0, 0.0);
    s' := s;
    if s.imageSize == 0 {
      return;
    }
    ghost var sinogram := Simulation.Sinogram(AsDensityMap(s), rot, s.numAngles);
    for i := 0 to s.numAngles
      invariant WellFormed(s') && s'.densityMap == s.densityMap && s'.imageSize == s.imageSize
      invariant s'.numAngles == s.numAngles && s'.radius == s.radius
      invariant forall r, k | 0 <= r < s.imageSize && 0 <= k < s.numAngles ::
                  s'.projections[r][k] == if k < i then sinogram[r][k] else s.projections[r][k]
    {
      var t := rot(Simulation.AngleDegrees(i, s.numAngles));
      var rv := Rotate(baseVec, t);
      assert rv == AngleVector(s.imageSize, t);
      ColumnMatchesProjection(s', t);
      s' := SimulateRayColumn(s', center, rv, Abs(s.radius - 1.0), i);
    }
    assert forall r | 0 <= r < s.imageSize :: s'.projections[r] == sinogram[r];
  }

  /**
   * The reconstruction inside the image export: backprojection of the stored,
   * unnormalised projections with the same bin policy, then min-max
   * normalisation of the image to [0, 1].
   */
  method Reconstruct(s: CtSim, rot: real -> Trig) returns (image: Matrix)
    requires WellFormed(s)
    ensures image == MinMaxNormalize(Simulation.BackProjection(s.projections, s.imageSize, rot, s.numAngles))
    ensures IsMatrix(image, s.imageSize, s.imageSize) && AllIn(image, 0.0, 1.0)
  {
    var raw := Simulation.BackProject(s.projections, s.imageSize, rot, s.numAngles);
    image := MinMaxNormalize(raw);
  }
}
