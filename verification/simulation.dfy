/**
 * The scan orchestrator: one projection per scan angle collected as the columns
 * of a `size x numAngles` sinogram, min-max normalisation of the sinogram, and
 * unfiltered backprojection into a `size x size` image.
 *
 * Angle `i` of `numAngles` is `i * (360 / numAngles)` degrees; `rot` gives the
 * cosine and sine of an angle in degrees, the same pair wherever the same angle
 * is used.
 */
module Simulation {
  import opened Wrappers
  import opened Geometry
  import opened Matrices
  import opened DensityMaps
  import opened Rays
  import opened RayTracer
  import opened SimulationResults

  /** Angle `i` of `numAngles`, in degrees: `i / numAngles` of a full turn. */
  function AngleDegrees(i: nat, numAngles: nat): (deg: real)
    requires i < numAngles
    ensures 0.0 <= deg < 360.0
    ensures deg * numAngles as real == 360.0 * i as real
  {
    var step := 360.0 / numAngles as real;
    assert step * numAngles as real == 360.0;
    FractionOfTurn(i as real, numAngles as real, step);
    i as real * step
  }

  /** `x < y` steps of `step = 360 / y` degrees stay below a full turn and scale back by `y`. */
  lemma FractionOfTurn(x: real, y: real, step: real)
    requires 0.0 <= x < y && step * y == 360.0
    ensures 0.0 <= x * step < 360.0
    ensures (x * step) * y == 360.0 * x
  {
    assert step > 0.0;
    var d := (y - x) * step;
    assert d > 0.0;
    assert d == step * y - x * step;
    assert 360.0 - x * step > 0.0;
    assert x * step >= 0.0;
    assert (x * step) * y == x * (step * y);
  }

  /** The projection for one scan angle: the traced density of each ray, in ray order. */
  function Projection(m: DensityMap, t: Trig): (p: seq<real>)
    requires Valid(m) && OnUnitCircle(t) && GetSize(m) != 2
    ensures |p| == GetSize(m)
  {
    var rays := SetupRays(m, t, GetSize(m)).value;
    seq(|rays|, i requires 0 <= i < |rays| =>
      assert IsUnit(rays[i].direction);
      LineIntegral(m, rays[i]))
  }

  /**
   * Simulating one angle: set up one ray per image column and trace each into
   * the entry of the same index of a zero-initialised column.
   */
  method SimulateProjectionForAngle(m: DensityMap, t: Trig) returns (p: seq<real>)
    requires Valid(m) && OnUnitCircle(t) && GetSize(m) != 2
    ensures |p| == GetSize(m)
    ensures var rays := SetupRays(m, t, GetSize(m)).value;
            forall i | 0 <= i < |p| :: Traceable(m, rays[i]) && p[i] == LineIntegral(m, rays[i])
    ensures p == Projection(m, t)
  {
    var rays := SetupRays(m, t, GetSize(m)).value;
    p := seq(GetSize(m), _ => 0.0);
    for i := 0 to |rays|
      invariant |p| == GetSize(m)
      invariant forall j | 0 <= j < |p| ::
                  Traceable(m, rays[j]) && p[j] == if j < i then LineIntegral(m, rays[j]) else 0.0
    {
      var v := TraceRay(m, rays[i]);
      p := p[i := v];
    }
  }

  /** With non-negative densities every projection entry is non-negative. */
  lemma ProjectionNonNegative(m: DensityMap, t: Trig, hi: real)
    requires Valid(m) && OnUnitCircle(t) && GetSize(m) != 2
    requires hi >= 0.0 && AllIn(m.values, 0.0, hi)
    ensures forall i | 0 <= i < GetSize(m) :: Projection(m, t)[i] >= 0.0
  {
    var rays := SetupRays(m, t, GetSize(m)).value;
    forall i | 0 <= i < GetSize(m)
      ensures Projection(m, t)[i] >= 0.0
    {
      assert IsUnit(rays[i].direction);
      LineIntegralBounds(m, rays[i], hi);
    }
  }

  /** The sinogram before filtering: column `c` is the projection at angle `c`. */
  function Sinogram(m: DensityMap, rot: real -> Trig, numAngles: nat): (s: Matrix)
    requires Valid(m) && GetSize(m) != 2 && IsTrigTable(rot)
    ensures IsMatrix(s, GetSize(m), numAngles)
  {
    seq(GetSize(m), r requires 0 <= r < GetSize(m) =>
      seq(numAngles, c requires 0 <= c < numAngles =>
        Projection(m, rot(AngleDegrees(c, numAngles)))[r]))
  }

  /** Column `c` of a matrix whose rows all have more than `c` entries. */
  function ColumnOf(p: Matrix, c: nat): (col: seq<real>)
    requires forall r | 0 <= r < |p| :: c < |p[r]|
    ensures |col| == |p| && forall r | 0 <= r < |p| :: col[r] == p[r][c]
  {
    seq(|p|, r requires 0 <= r < |p| => p[r][c])
  }

  /**
   * Detector coordinate of pixel (`x`, `y`) for a view with cosine and sine
   * `t`: the pixel's offset from the image centre projected on the detector
   * line, shifted so the centre falls on bin `size / 2`.
   */
  function DetectorIndex(size: nat, x: nat, y: nat, t: Trig): (idx: real)
    ensures idx == DetectorCoordinate(size, Vec2(x as real, y as real), t)
  {
    var center := size as real / 2.0;
    var xRel := x as real - center;
    var yRel := y as real - center;
    (-xRel) * t.sin + yRel * t.cos + center
  }

  /**
   * Detector coordinate of any point `p` of the plane: its offset from the
   * image centre along the detector axis `(-sin, cos)`, plus the radius.
   */
  function DetectorCoordinate(size: nat, p: Vec2, t: Trig): real {
    Radius(size) + Dot(Sub(p, Center(size)), DetectorAxis(t))
  }

  /** The detector axis of a view: the cosine and sine pair turned a quarter turn. */
  function DetectorAxis(t: Trig): Vec2 {
    Perp(Vec2(t.cos, t.sin))
  }

  /**
   * Every point of ray `i` of a view has detector coordinate `i`: a pixel on
   * that ray reads bin `i`, the bin the ray's trace is stored in. At `size == 1`
   * the detector line faces the other way (its radius is below 1), and the
   * coordinate is `size - i` instead.
   */
  lemma DetectorCoordinateOfRay(size: nat, t: Trig, i: nat, s: real)
    requires OnUnitCircle(t) && size > 0 && size != 2
    ensures var det := DetectorFor(size, t).value;
            DetectorCoordinate(size, Add(RayOrigin(det, size, size, i), Scale(s, det.direction)), t) ==
              if size > 2 then i as real else size as real - i as real
  {
    var det := DetectorFor(size, t).value;
    var a := AngleVector(size, t);
    var e := DetectorAxis(t);
    var k := i as real - Radius(size);
    OneRayPerColumn(det, size, i);
    var p := Add(RayOrigin(det, size, size, i), Scale(s, det.direction));
    assert Sub(p, Center(size)) == Add(Add(a, Scale(k, det.tangent)), Scale(s, det.direction));
    DotOfOffsets(a, det.tangent, det.direction, e, k, s);
    AxisAgainstDetector(size, t);
  }

  /** The dot product with `e` distributes over `a + k u + s w`. */
  lemma DotOfOffsets(a: Vec2, u: Vec2, w: Vec2, e: Vec2, k: real, s: real)
    ensures Dot(Add(Add(a, Scale(k, u)), Scale(s, w)), e) == Dot(a, e) + k * Dot(u, e) + s * Dot(w, e)
  {
    ScaledDot(k, u, e);
    ScaledDot(s, w, e);
  }

  /**
   * Against the detector axis, the angle vector and the beam have no component,
   * and the detector line has component 1 (or -1 when the radius is below 1).
   */
  lemma AxisAgainstDetector(size: nat, t: Trig)
    requires OnUnitCircle(t) && size != 2
    ensures var det := DetectorFor(size, t).value;
            var e := DetectorAxis(t);
            Dot(AngleVector(size, t), e) == 0.0 && Dot(det.direction, e) == 0.0 &&
            Dot(det.tangent, e) == if size > 2 then 1.0 else -1.0
  {
    var det := DetectorFor(size, t).value;
    var a := AngleVector(size, t);
    var e := DetectorAxis(t);
    var q := Radius(size) - 1.0;
    var len := Abs(q);
    assert Dot(a, e) == q * (t.cos * (-t.sin) + t.sin * t.cos);
    assert Dot(Perp(a), e) == q * (t.cos * t.cos + t.sin * t.sin);
    ScaledDot(len, det.direction, e);
    ScaledDot(len, det.tangent, e);
    assert len * Dot(det.direction, e) == -Dot(a, e);
    assert len * Dot(det.tangent, e) == q;
  }

  /**
   * The value a detector coordinate reads from a projection column. Let
   * `i0 = floor(idx)` and `i1 = i0 + 1`: with both bins present it interpolates
   * with weights `(1 - frac, frac)`; with only `i0` present (the last bin) or
   * only `i1` present (`i0 == -1`) it takes that bin; with neither it gives
   * nothing.
   */
  function BinValue(col: seq<real>, idx: real): (v: Option<real>)
    ensures v.Some? <==> 0 < |col| && -1 <= idx.Floor < |col|
    ensures v.Some? && 0 <= idx.Floor && idx.Floor + 1 < |col| ==>
              Min(col[idx.Floor], col[idx.Floor + 1]) <= v.value <= Max(col[idx.Floor], col[idx.Floor + 1])
    ensures v.Some? && 0 <= idx.Floor && idx.Floor + 1 < |col| ==>
              v.value == col[idx.Floor] + (idx - idx.Floor as real) * (col[idx.Floor + 1] - col[idx.Floor])
    ensures v.Some? && 0 <= idx.Floor && idx.Floor == |col| - 1 ==> v.value == col[idx.Floor]
    ensures v.Some? && idx.Floor == -1 ==> v.value == col[0]
    ensures v.Some? && 0 <= idx.Floor && idx.Floor as real == idx ==> v.value == col[idx.Floor]
  {
    var i0 := idx.Floor;
    var i1 := i0 + 1;
    var w1 := idx - i0 as real;
    var w0 := 1.0 - w1;
    if i0 >= 0 && i1 < |col| then
      Interpolate(col[i0], col[i1], w1);
      assert w0 * col[i0] + w1 * col[i1] == col[i0] + w1 * (col[i1] - col[i0]);
      Some(w0 * col[i0] + w1 * col[i1])
    else if 0 <= i0 < |col| then Some(col[i0])
    else if 0 <= i1 < |col| then Some(col[i1])
    else None
  }

  /** Weights `(1 - w, w)` with `w` in [0, 1] keep the blend between its two values. */
  lemma Interpolate(a: real, b: real, w: real)
    requires 0.0 <= w <= 1.0
    ensures Min(a, b) <= (1.0 - w) * a + w * b <= Max(a, b)
    ensures (1.0 - w) * a + w * b == a + w * (b - a)
    ensures w == 0.0 ==> (1.0 - w) * a + w * b == a
  {
    FractionOf(w, b - a);
    assert (1.0 - w) * a + w * b == a + w * (b - a);
    if a <= b {
      assert Min(a, b) == a && Max(a, b) == b;
    } else {
      assert Min(a, b) == b && Max(a, b) == a;
    }
  }

  /** A fraction `w` in [0, 1] of `d` lies between 0 and `d`. */
  lemma FractionOf(w: real, d: real)
    requires 0.0 <= w <= 1.0
    ensures d >= 0.0 ==> 0.0 <= w * d <= d
    ensures d <= 0.0 ==> d <= w * d <= 0.0
  {
    assert w * d + (1.0 - w) * d == d;
    if d >= 0.0 {
      assert (1.0 - w) * d >= 0.0;
    } else {
      assert (1.0 - w) * d <= 0.0;
    }
  }

  /** A column with every entry in `[lo, hi]` reads values in `[lo, hi]`. */
  lemma BinValueWithin(col: seq<real>, idx: real, lo: real, hi: real)
    requires forall r | 0 <= r < |col| :: lo <= col[r] <= hi
    ensures BinValue(col, idx).Some? ==> lo <= BinValue(col, idx).value <= hi
  {
  }

  /** What view `i` adds to pixel (`x`, `y`): the bin value it reads, or nothing. */
  function AngleContribution(p: Matrix, size: nat, rot: real -> Trig, numAngles: nat, i: nat, x: nat, y: nat): real
    requires IsMatrix(p, size, numAngles) && i < numAngles
  {
    BinValue(ColumnOf(p, i), DetectorIndex(size, x, y, rot(AngleDegrees(i, numAngles)))).GetOr(0.0)
  }

  /** What each view adds to pixel (`x`, `y`), in view order. */
  function Contributions(p: Matrix, size: nat, rot: real -> Trig, numAngles: nat, x: nat, y: nat): (s: seq<real>)
    requires IsMatrix(p, size, numAngles)
    ensures |s| == numAngles
  {
    seq(numAngles, i requires 0 <= i < numAngles => AngleContribution(p, size, rot, numAngles, i, x, y))
  }

  /** The contributions of the first `n` views to pixel (`x`, `y`). */
  function PixelSum(p: Matrix, size: nat, rot: real -> Trig, numAngles: nat, x: nat, y: nat, n: nat): real
    requires IsMatrix(p, size, numAngles) && n <= numAngles
  {
    Sum(Contributions(p, size, rot, numAngles, x, y), n)
  }

  /** The backprojected image: each pixel sums its contributions over all views. */
  function BackProjection(p: Matrix, size: nat, rot: real -> Trig, numAngles: nat): (img: Matrix)
    requires IsMatrix(p, size, numAngles)
    ensures IsMatrix(img, size, size)
  {
    seq(size, y requires 0 <= y < size =>
      seq(size, x requires 0 <= x < size => PixelSum(p, size, rot, numAngles, x, y, numAngles)))
  }

  /** Pixel (`yy`, `xx`) comes before pixel (`y`, `x`) in row-major order. */
  predicate Before(yy: nat, xx: nat, y: nat, x: nat) {
    yy < y || (yy == y && xx < x)
  }

  /**
   * Backprojection as `backProject` loops it: for each view, for each row, for
   * each column, add the bin value the pixel reads, skipping pixels that read
   * nothing, to a zero-initialised image.
   */
  method BackProject(p: Matrix, size: nat, rot: real -> Trig, numAngles: nat) returns (img: Matrix)
    requires IsMatrix(p, size, numAngles)
    ensures img == BackProjection(p, size, rot, numAngles)
  {
    img := Zeros(size, size);
    for i := 0 to numAngles
      invariant IsMatrix(img, size, size)
      invariant forall yy, xx | 0 <= yy < size && 0 <= xx < size ::
                  img[yy][xx] == PixelSum(p, size, rot, numAngles, xx, yy, i)
    {
      var t := rot(AngleDegrees(i, numAngles));
      var col := ColumnOf(p, i);
      for y := 0 to size
        invariant IsMatrix(img, size, size)
        invariant forall yy, xx | 0 <= yy < size && 0 <= xx < size ::
                    img[yy][xx] == PixelSum(p, size, rot, numAngles, xx, yy, if yy < y then i + 1 else i)
      {
        for x := 0 to size
          invariant IsMatrix(img, size, size)
          invariant forall yy, xx | 0 <= yy < size && 0 <= xx < size ::
                      img[yy][xx] == PixelSum(p, size, rot, numAngles, xx, yy,
                                              if Before(yy, xx, y, x) then i + 1 else i)
        {
          var v := BinValue(col, DetectorIndex(size, x, y, t));
          if v.Some? {
            img := img[y := img[y][x := img[y][x] + v.value]];
          }
        }
      }
    }
    assert forall y | 0 <= y < size :: img[y] == BackProjection(p, size, rot, numAngles)[y];
  }

  /** With projections in `[0, hi]`, the first `n` views add up to between 0 and `n * hi`. */
  lemma PixelSumBounds(p: Matrix, size: nat, rot: real -> Trig, numAngles: nat,
                       x: nat, y: nat, n: nat, hi: real)
    requires IsMatrix(p, size, numAngles) && n <= numAngles && hi >= 0.0 && AllIn(p, 0.0, hi)
    ensures 0.0 <= PixelSum(p, size, rot, numAngles, x, y, n) <= n as real * hi
  {
    var s := Contributions(p, size, rot, numAngles, x, y);
    forall i | 0 <= i < |s|
      ensures 0.0 <= s[i] <= hi
    {
      AngleContributionBounds(p, size, rot, numAngles, i, x, y, hi);
    }
    SumBounds(s, n, hi);
  }

  /** With projections in `[0, hi]` one view adds between 0 and `hi`. */
  lemma AngleContributionBounds(p: Matrix, size: nat, rot: real -> Trig, numAngles: nat,
                                i: nat, x: nat, y: nat, hi: real)
    requires IsMatrix(p, size, numAngles) && i < numAngles && hi >= 0.0 && AllIn(p, 0.0, hi)
    ensures 0.0 <= AngleContribution(p, size, rot, numAngles, i, x, y) <= hi
  {
    var col := ColumnOf(p, i);
    BinValueWithin(col, DetectorIndex(size, x, y, rot(AngleDegrees(i, numAngles))), 0.0, hi);
  }

  /**
   * With projections in `[0, hi]` every pixel lies in `[0, numAngles * hi]`; in
   * particular normalised projections give pixels in `[0, numAngles]`, and zero
   * projections give a zero image.
   */
  lemma BackProjectionBounds(p: Matrix, size: nat, rot: real -> Trig, numAngles: nat, hi: real)
    requires IsMatrix(p, size, numAngles) && hi >= 0.0 && AllIn(p, 0.0, hi)
    ensures AllIn(BackProjection(p, size, rot, numAngles), 0.0, numAngles as real * hi)
  {
    var img := BackProjection(p, size, rot, numAngles);
    forall y, x | 0 <= y < |img| && 0 <= x < |img[y]|
      ensures 0.0 <= img[y][x] <= numAngles as real * hi
    {
      PixelSumBounds(p, size, rot, numAngles, x, y, numAngles, hi);
    }
  }

  /** Backprojecting projections in `[0, 1]` gives pixels in `[0, numAngles]`. */
  lemma NormalizedBackProjectionBounds(p: Matrix, size: nat, rot: real -> Trig, numAngles: nat)
    requires IsMatrix(p, size, numAngles) && AllIn(p, 0.0, 1.0)
    ensures AllIn(BackProjection(p, size, rot, numAngles), 0.0, numAngles as real)
  {
    BackProjectionBounds(p, size, rot, numAngles, 1.0);
    assert numAngles as real * 1.0 == numAngles as real;
  }

  /**
   * The sinogram as the scan builds it: a zero `size x numAngles` matrix whose
   * column `i` is overwritten with the simulated projection for angle `i`.
   */
  method BuildSinogram(m: DensityMap, rot: real -> Trig, numAngles: nat) returns (projections: Matrix)
    requires Valid(m) && GetSize(m) != 2 && IsTrigTable(rot)
    ensures projections == Sinogram(m, rot, numAngles)
  {
    var size := GetSize(m);
    ghost var sinogram := Sinogram(m, rot, numAngles);
    projections := Zeros(size, numAngles);
    for i := 0 to numAngles
      invariant IsMatrix(projections, size, numAngles)
      invariant forall r, c | 0 <= r < size && 0 <= c < numAngles ::
                  projections[r][c] == if c < i then sinogram[r][c] else 0.0
    {
      var column := SimulateProjectionForAngle(m, rot(AngleDegrees(i, numAngles)));
      projections := SetColumn(projections, i, column);
    }
    assert forall r | 0 <= r < size :: projections[r] == sinogram[r];
  }

  /**
   * The whole scan: the sinogram, then min-max normalised, then backprojected.
   * The result pairs the image with the normalised projections.
   */
  method SimulateCT(m: DensityMap, rot: real -> Trig, numAngles: nat) returns (result: SimulationResult)
    requires Valid(m) && GetSize(m) != 2 && IsTrigTable(rot)
    ensures result.projections == MinMaxNormalize(Sinogram(m, rot, numAngles))
    ensures result.image == BackProjection(result.projections, GetSize(m), rot, numAngles)
    ensures IsMatrix(result.projections, GetSize(m), numAngles) && AllIn(result.projections, 0.0, 1.0)
    ensures IsMatrix(result.image, GetSize(m), GetSize(m)) && AllIn(result.image, 0.0, numAngles as real)
  {
    var size := GetSize(m);
    var sinogram := BuildSinogram(m, rot, numAngles);
    var projections := MinMaxNormalize(sinogram);
    var image := BackProject(projections, size, rot, numAngles);
    NormalizedBackProjectionBounds(projections, size, rot, numAngles);
    result := SimulationResult(image, projections);
  }
}
