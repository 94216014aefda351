/**
 * The ray tracer: the fan of parallel rays for one scan angle, the clip of a ray
 * against the image square `[0, size]^2`, and the fixed-step sum of the densities
 * the ray passes through.
 *
 * The image occupies the square `[0, size]^2` with its centre at
 * `(size/2, size/2)`. For a scan angle with cosine and sine `(c, s)` the rays are
 * launched from a detector line tangent to the circle of radius `size/2 - 1`
 * around the centre, at the point `centre + (size/2 - 1) * (c, s)`, and all travel
 * towards the centre.
 */
module RayTracer {
  import opened Wrappers
  import opened Geometry
  import opened Matrices
  import opened DensityMaps
  import opened Rays

  /** Half the image side. */
  function Radius(size: nat): real {
    size as real / 2.0
  }

  function Center(size: nat): Vec2 {
    Vec2(Radius(size), Radius(size))
  }

  /** The unrotated offset from the centre to the detector, `(radius - 1, 0)`. */
  function BaseVector(size: nat): Vec2 {
    Vec2(Radius(size) - 1.0, 0.0)
  }

  /** The base vector turned by the scan angle. */
  function AngleVector(size: nat, t: Trig): (a: Vec2)
    requires OnUnitCircle(t)
    ensures a == Scale(Radius(size) - 1.0, Vec2(t.cos, t.sin))
    ensures Dot(a, a) == (Radius(size) - 1.0) * (Radius(size) - 1.0)
  {
    Rotate(BaseVector(size), t)
  }

  /** Where the detector line touches the circle, the line's direction, and the beam direction. */
  datatype Detector = Detector(tangentCenter: Vec2, tangent: Vec2, direction: Vec2)

  /**
   * The detector for one scan angle. At `size == 2` the angle vector is zero and
   * has no direction (the C++ simulator computes NaN vectors there): no detector.
   * Otherwise the beam direction and the detector line are perpendicular unit
   * vectors, and walking `|radius - 1|` along the beam from the tangent point
   * reaches the image centre.
   */
  function DetectorFor(size: nat, t: Trig): (d: Option<Detector>)
    requires OnUnitCircle(t)
    ensures d.None? <==> size == 2
    ensures d.Some? ==> IsUnit(d.value.direction) && IsUnit(d.value.tangent)
    ensures d.Some? ==> Dot(d.value.tangent, d.value.direction) == 0.0
    ensures d.Some? ==> d.value.tangentCenter == Add(Center(size), AngleVector(size, t))
    ensures d.Some? ==>
              Scale(Abs(Radius(size) - 1.0), d.value.direction) == Neg(AngleVector(size, t))
    ensures d.Some? ==>
              Scale(Abs(Radius(size) - 1.0), d.value.tangent) == Perp(AngleVector(size, t))
    ensures d.Some? ==>
              Add(d.value.tangentCenter, Scale(Abs(Radius(size) - 1.0), d.value.direction)) == Center(size)
  {
    var a := AngleVector(size, t);
    var len := Abs(Radius(size) - 1.0);
    DegenerateOnlyAtTwo(size);
    if len == 0.0 then None
    else
      DetectorReachesCenter(Center(size), a, len);
      Some(DetectorAt(Center(size), a, len))
  }

  /** The angle vector has length 0 exactly when the image side is 2. */
  lemma DegenerateOnlyAtTwo(size: nat)
    ensures Abs(Radius(size) - 1.0) == 0.0 <==> size == 2
  {
  }

  /** Walking `len` along the beam from the tangent point reaches `center`. */
  lemma DetectorReachesCenter(center: Vec2, a: Vec2, len: real)
    requires len > 0.0 && len * len == Dot(a, a)
    ensures Add(DetectorAt(center, a, len).tangentCenter, Scale(len, DetectorAt(center, a, len).direction)) == center
  {
    var d := DetectorAt(center, a, len);
    assert Scale(len, d.direction) == Neg(a);
  }

  /** The detector for angle vector `a` of length `len` around `center`. */
  function DetectorAt(center: Vec2, a: Vec2, len: real): (d: Detector)
    requires len > 0.0 && len * len == Dot(a, a)
    ensures IsUnit(d.direction) && IsUnit(d.tangent) && Dot(d.tangent, d.direction) == 0.0
    ensures d.tangentCenter == Add(center, a)
    ensures Scale(len, d.direction) == Neg(a) && Scale(len, d.tangent) == Perp(a)
  {
    assert Dot(Neg(a), Neg(a)) == Dot(a, a);
    var dir := Normalize(Neg(a), len).value;
    var tan := Normalize(Perp(a), len).value;
    PerpendicularAfterScaling(a, len, tan, dir);
    Detector(Add(center, a), tan, dir)
  }

  /** Unit vectors along `Perp(a)` and `-a` are perpendicular. */
  lemma PerpendicularAfterScaling(a: Vec2, len: real, u: Vec2, w: Vec2)
    requires len != 0.0 && Scale(len, u) == Perp(a) && Scale(len, w) == Neg(a)
    ensures Dot(u, w) == 0.0
  {
    assert Dot(Perp(a), Neg(a)) == 0.0;
    calc {
      (len * len) * Dot(u, w);
      (len * u.x) * (len * w.x) + (len * u.y) * (len * w.y);
      Dot(Perp(a), Neg(a));
    }
  }

  /**
   * Origin of ray `i` of `numRays`: the rays are spread along the detector line
   * at spacing `size / numRays`, starting `radius` before the tangent point.
   */
  function RayOrigin(det: Detector, size: nat, numRays: nat, i: nat): (o: Vec2)
    requires numRays > 0
    ensures IsUnit(det.tangent) ==>
              Dot(Sub(o, det.tangentCenter), det.tangent) == i as real * Spacing(size, numRays) - Radius(size)
    ensures Dot(det.tangent, det.direction) == 0.0 ==> Dot(Sub(o, det.tangentCenter), det.direction) == 0.0
  {
    var k := i as real * Spacing(size, numRays) - Radius(size);
    OffsetAlongLine(det.tangentCenter, k, det.tangent, det.direction);
    Add(det.tangentCenter, Scale(k, det.tangent))
  }

  /**
   * The point `k` along `u` from `c` is offset from `c` by `k` in the direction
   * `u` (when `u` is a unit vector) and by nothing in a direction `w` perpendicular to `u`.
   */
  lemma OffsetAlongLine(c: Vec2, k: real, u: Vec2, w: Vec2)
    ensures IsUnit(u) ==> Dot(Sub(Add(c, Scale(k, u)), c), u) == k
    ensures Dot(u, w) == 0.0 ==> Dot(Sub(Add(c, Scale(k, u)), c), w) == 0.0
  {
    assert Sub(Add(c, Scale(k, u)), c) == Scale(k, u);
    ScaledDot(k, u, u);
    ScaledDot(k, u, w);
  }

  /** Distance between neighbouring rays on the detector line. */
  function Spacing(size: nat, numRays: nat): real
    requires numRays > 0
  {
    size as real / numRays as real
  }

  /**
   * The `numRays` parallel rays for one scan angle, in detector order. At
   * `size == 2` there is no detector, and any ray would trace forever; no rays
   * are requested then only when `numRays == 0`.
   */
  function SetupRays(m: DensityMap, t: Trig, numRays: nat): (rays: Option<seq<Ray>>)
    requires Valid(m) && OnUnitCircle(t)
    ensures rays.None? <==> numRays > 0 && GetSize(m) == 2
    ensures rays.Some? ==> |rays.value| == numRays
    ensures rays.Some? ==>
              forall i | 0 <= i < |rays.value| ::
                rays.value[i].length == GetSize(m) && IsUnit(rays.value[i].direction) &&
                rays.value[i].direction == rays.value[0].direction
    ensures rays.Some? && numRays > 0 ==>
              var det := DetectorFor(GetSize(m), t).value;
              forall i | 0 <= i < |rays.value| ::
                rays.value[i].origin == RayOrigin(det, GetSize(m), numRays, i) &&
                rays.value[i].direction == det.direction
  {
    if numRays == 0 then Some([])
    else
      match DetectorFor(GetSize(m), t)
      case None => None
      case Some(det) =>
        Some(seq(numRays, i requires 0 <= i < numRays =>
          Ray(RayOrigin(det, GetSize(m), numRays, i), det.direction, GetSize(m))))
  }

  /**
   * Consecutive ray origins are `size / numRays` apart along the detector line,
   * which is perpendicular to the beam: the rays are evenly spaced and parallel.
   */
  lemma RaysEvenlySpaced(det: Detector, size: nat, numRays: nat, i: nat)
    requires numRays > 0 && IsUnit(det.tangent) && Dot(det.tangent, det.direction) == 0.0
    ensures var step := Sub(RayOrigin(det, size, numRays, i + 1), RayOrigin(det, size, numRays, i));
            step == Scale(Spacing(size, numRays), det.tangent) &&
            Dot(step, step) == Spacing(size, numRays) * Spacing(size, numRays) &&
            Dot(step, det.direction) == 0.0
  {
    var k := Spacing(size, numRays);
    var hi := (i + 1) as real * k - Radius(size);
    var lo := i as real * k - Radius(size);
    assert hi - lo == k;
    SubScaled(det.tangentCenter, hi, lo, det.tangent);
    ScaledDot(k, det.tangent, det.direction);
  }

  /** Scaling one side of a dot product, and both sides. */
  lemma ScaledDot(k: real, u: Vec2, w: Vec2)
    ensures Dot(Scale(k, u), w) == k * Dot(u, w)
    ensures Dot(Scale(k, u), Scale(k, u)) == (k * k) * Dot(u, u)
  {
  }

  /** Two points on one line through `c` differ by the difference of their offsets. */
  lemma SubScaled(c: Vec2, a: real, b: real, u: Vec2)
    ensures Sub(Add(c, Scale(a, u)), Add(c, Scale(b, u))) == Scale(a - b, u)
  {
    assert a * u.x - b * u.x == (a - b) * u.x;
    assert a * u.y - b * u.y == (a - b) * u.y;
  }

  /**
   * When there is one ray per image column (`numRays == size`), ray `i` starts
   * `i - size/2` units from the tangent point along the detector line.
   */
  lemma OneRayPerColumn(det: Detector, size: nat, i: nat)
    requires size > 0
    ensures RayOrigin(det, size, size, i) == Add(det.tangentCenter, Scale(i as real - Radius(size), det.tangent))
  {
    assert Spacing(size, size) == 1.0;
  }

  /** A parameter interval `[lo, hi]`; a missing end stands for -infinity or +infinity. */
  datatype Interval = Interval(lo: Option<real>, hi: Option<real>)

  predicate Contains(iv: Interval, t: real) {
    (iv.lo.None? || iv.lo.value <= t) && (iv.hi.None? || t <= iv.hi.value)
  }

  /** The larger of a lower end and a value; -infinity is below everything. */
  function RaiseLo(lo: Option<real>, v: real): real {
    if lo.None? then v else Max(lo.value, v)
  }

  /** The smaller of an upper end and a value; +infinity is above everything. */
  function LowerHi(hi: Option<real>, v: real): real {
    if hi.None? then v else Min(hi.value, v)
  }

  /** Coordinate `o + t * d` lies within the slab `[0, size]`. */
  predicate OnSlab(o: real, d: real, size: real, t: real) {
    0.0 <= o + t * d <= size
  }

  /**
   * One axis of the slab clip: a moving coordinate narrows `iv` to the parameters
   * where it crosses `[0, size]`; a fixed coordinate outside `[0, size]` misses
   * (`None`); a fixed coordinate inside leaves `iv` as it is.
   */
  function ClipAxis(iv: Interval, o: real, d: real, size: real): (r: Option<Interval>)
    ensures r.None? <==> d == 0.0 && (o < 0.0 || o > size)
    ensures d != 0.0 ==> r.Some? && r.value.lo.Some? && r.value.hi.Some?
    ensures d == 0.0 && r.Some? ==> r.value == iv
  {
    if d != 0.0 then
      var t1 := (0.0 - o) / d;
      var t2 := (size - o) / d;
      Some(Interval(Some(RaiseLo(iv.lo, Min(t1, t2))), Some(LowerHi(iv.hi, Max(t1, t2)))))
    else if o < 0.0 || o > size then None
    else Some(iv)
  }

  /** Between the two slab crossings is exactly where the coordinate is on the slab. */
  lemma SlabCrossings(o: real, d: real, size: real, t: real)
    requires d != 0.0 && size >= 0.0
    ensures Min((0.0 - o) / d, (size - o) / d) <= t <= Max((0.0 - o) / d, (size - o) / d)
            <==> OnSlab(o, d, size, t)
  {
    var t1 := (0.0 - o) / d;
    var t2 := (size - o) / d;
    assert t1 * d == 0.0 - o;
    assert t2 * d == size - o;
    assert (t - t1) * d == o + t * d;
    assert (t - t2) * d == o + t * d - size;
    if d > 0.0 {
      SignOfProduct(t - t1, d);
      SignOfProduct(t - t2, d);
      SignOfProduct(t2 - t1, d);
    } else {
      SignOfProduct(t1 - t, -d);
      SignOfProduct(t2 - t, -d);
      SignOfProduct(t1 - t2, -d);
    }
  }

  lemma SignOfProduct(a: real, d: real)
    requires d > 0.0
    ensures a >= 0.0 <==> a * d >= 0.0
    ensures a <= 0.0 <==> a * d <= 0.0
  {
  }

  /** The clip of one axis keeps exactly the parameters that are also on that slab. */
  lemma ClipAxisExact(iv: Interval, o: real, d: real, size: real, t: real)
    requires size >= 0.0
    ensures ClipAxis(iv, o, d, size).Some? ==>
              (Contains(ClipAxis(iv, o, d, size).value, t) <==> Contains(iv, t) && OnSlab(o, d, size, t))
    ensures ClipAxis(iv, o, d, size).None? ==> !OnSlab(o, d, size, t)
  {
    if d != 0.0 {
      SlabCrossings(o, d, size, t);
    }
  }

  /** The point of ray `r` at parameter `t`. */
  function PointAt(r: Ray, t: real): Vec2 {
    Add(r.origin, Scale(t, r.direction))
  }

  /** The closed image square `[0, size]^2`. */
  predicate InBox(size: nat, p: Vec2) {
    0.0 <= p.x <= size as real && 0.0 <= p.y <= size as real
  }

  /** How a ray meets the image square. */
  datatype Clip =
    | ParallelMiss                         // fixed on one axis, outside the square
    | NoIntersection                       // clipped interval empty or behind the origin
    | Segment(tStart: real, tEnd: real)    // the part of the ray inside the square
    | Unbounded                            // zero direction from inside: infinite interval

  /**
   * The slab clip against `[0, size]^2`, x axis first, then y. The ray meets the
   * square on `[max(tmin, 0), tmax]` unless an axis misses or the interval is
   * empty or lies behind the origin.
   */
  function ClipRay(size: nat, r: Ray): (c: Clip)
    ensures c.Unbounded? <==> r.direction == Zero && InBox(size, r.origin)
    ensures c.Segment? ==> 0.0 <= c.tStart <= c.tEnd
  {
    match ClipAxis(Interval(None, None), r.origin.x, r.direction.x, size as real)
    case None => ParallelMiss
    case Some(ix) =>
      match ClipAxis(ix, r.origin.y, r.direction.y, size as real)
      case None => ParallelMiss
      case Some(iv) =>
        if iv.hi.None? then Unbounded
        else if (iv.lo.Some? && iv.hi.value < iv.lo.value) || iv.hi.value < 0.0 then NoIntersection
        else Segment(if iv.lo.None? then 0.0 else Max(iv.lo.value, 0.0), iv.hi.value)
  }

  /** The clip keeps exactly the parameters where the ray is in the square, per axis. */
  lemma ClipBothAxes(size: nat, r: Ray, t: real)
    ensures var ix := ClipAxis(Interval(None, None), r.origin.x, r.direction.x, size as real);
            ix.Some? ==>
              var iv := ClipAxis(ix.value, r.origin.y, r.direction.y, size as real);
              iv.Some? ==> (Contains(iv.value, t) <==> InBox(size, PointAt(r, t)))
    ensures var ix := ClipAxis(Interval(None, None), r.origin.x, r.direction.x, size as real);
            ix.None? || ClipAxis(ix.value, r.origin.y, r.direction.y, size as real).None? ==>
              !InBox(size, PointAt(r, t))
  {
    var p := PointAt(r, t);
    var n := size as real;
    assert InBox(size, p) <==>
           OnSlab(r.origin.x, r.direction.x, n, t) && OnSlab(r.origin.y, r.direction.y, n, t);
    ClipAxisExact(Interval(None, None), r.origin.x, r.direction.x, n, t);
    var ix := ClipAxis(Interval(None, None), r.origin.x, r.direction.x, n);
    if ix.Some? {
      assert Contains(ix.value, t) <==> OnSlab(r.origin.x, r.direction.x, n, t);
      ClipAxisExact(ix.value, r.origin.y, r.direction.y, n, t);
    }
  }

  /**
   * The clip is exact: a segment holds exactly the parameters `t >= 0` at which
   * the ray is inside the square, and the two miss cases hold none.
   */
  lemma ClipRayExact(size: nat, r: Ray, t: real)
    ensures ClipRay(size, r).Segment? ==>
              (ClipRay(size, r).tStart <= t <= ClipRay(size, r).tEnd <==>
                 0.0 <= t && InBox(size, PointAt(r, t)))
    ensures ClipRay(size, r).ParallelMiss? || ClipRay(size, r).NoIntersection? ==>
              !(0.0 <= t && InBox(size, PointAt(r, t)))
  {
    ClipBothAxes(size, r, t);
  }

  /** The sampling step along a ray. */
  const DeltaT: real := 0.5

  /** Parameter of sample `k` when sampling starts at `t0`. */
  function SampleT(t0: real, k: nat): real {
    t0 + k as real * DeltaT
  }

  /** Number of samples `t0, t0 + 0.5, ...` strictly below `tEnd`. */
  function SampleCount(t0: real, tEnd: real): (n: nat)
    ensures forall k: nat :: k < n <==> SampleT(t0, k) < tEnd
  {
    if tEnd <= t0 then 0
    else
      var q := (tEnd - t0) / DeltaT;
      var f := q.Floor;
      if f as real == q then f else f + 1
  }

  /**
   * The density of the cell holding `p`: `getDensity` at `floor(p)`, and 0.0 for
   * a point left of or below the grid, whose floor has no cell.
   */
  function CellAt(m: DensityMap, p: Vec2): real
    requires Valid(m)
  {
    if p.x.Floor < 0 || p.y.Floor < 0 then 0.0 else GetDensity(m, p.x.Floor, p.y.Floor)
  }

  /**
   * What the sample at point `p` adds: the density of the cell `floor(p)` times
   * the step, or nothing when that cell is outside the grid. The tracer's own
   * grid test agrees with `getDensity`'s: it only skips cells that read 0.0.
   */
  function Contribution(m: DensityMap, p: Vec2): (c: real)
    requires Valid(m)
    ensures c == CellAt(m, p) * DeltaT
  {
    var x := p.x.Floor;
    var y := p.y.Floor;
    if 0 <= x < GetSize(m) && 0 <= y < GetSize(m) then GetDensity(m, x, y) * DeltaT else 0.0
  }

  /** The contributions of the first `n` samples of `r` from `t0`. */
  function SampleSum(m: DensityMap, r: Ray, t0: real, n: nat): real
    requires Valid(m)
  {
    if n == 0 then 0.0
    else SampleSum(m, r, t0, n - 1) + Contribution(m, PointAt(r, SampleT(t0, n - 1)))
  }

  /**
   * The tracer terminates on `r`: a ray standing still inside the square would
   * be sampled forever.
   */
  predicate Traceable(m: DensityMap, r: Ray) {
    r.direction != Zero || !InBox(m.size, r.origin)
  }

  /**
   * The traced density of `r`: 0.0 when the ray misses the square, otherwise the
   * sum over the samples of its clipped segment.
   */
  function LineIntegral(m: DensityMap, r: Ray): (v: real)
    requires Valid(m) && Traceable(m, r)
    ensures !ClipRay(GetSize(m), r).Segment? ==> v == 0.0
    ensures ClipRay(GetSize(m), r).Segment? ==>
              var c := ClipRay(GetSize(m), r);
              var n := SampleCount(c.tStart, c.tEnd);
              v == DeltaT * Sum(SampleDensities(m, r, c.tStart, n), n)
  {
    match ClipRay(GetSize(m), r)
    case Segment(tStart, tEnd) =>
      var n := SampleCount(tStart, tEnd);
      SampleSumIsDensitySum(m, r, tStart, n, n);
      SampleSum(m, r, tStart, n)
    case _ => 0.0
  }

  /** The cell densities at the first `n` samples of `r` from `t0`, in sampling order. */
  function SampleDensities(m: DensityMap, r: Ray, t0: real, n: nat): (ds: seq<real>)
    requires Valid(m)
    ensures |ds| == n
  {
    seq(n, k requires 0 <= k < n => CellAt(m, PointAt(r, SampleT(t0, k))))
  }

  /** The running sum of contributions is the step times the sum of the sampled densities. */
  lemma {:induction false} SampleSumIsDensitySum(m: DensityMap, r: Ray, t0: real, k: nat, n: nat)
    requires Valid(m) && k <= n
    ensures SampleSum(m, r, t0, k) == DeltaT * Sum(SampleDensities(m, r, t0, n), k)
  {
    if k > 0 {
      SampleSumIsDensitySum(m, r, t0, k - 1, n);
    }
  }

  /**
   * The tracer's loop: clip, then walk the segment in steps of 0.5 from its
   * start while below its end, adding each sample's contribution.
   */
  method TraceRay(m: DensityMap, r: Ray) returns (total: real)
    requires Valid(m) && Traceable(m, r)
    ensures total == LineIntegral(m, r)
  {
    var clip := ClipRay(GetSize(m), r);
    if !clip.Segment? {
      return 0.0;
    }
    var tStart, tEnd := clip.tStart, clip.tEnd;
    ghost var n := SampleCount(tStart, tEnd);
    total := 0.0;
    var t := tStart;
    var step: nat := 0;
    while t < tEnd
      invariant step <= n && t == SampleT(tStart, step)
      invariant total == SampleSum(m, r, tStart, step)
      decreases n - step
    {
      total := total + Contribution(m, PointAt(r, t));
      t := t + DeltaT;
      step := step + 1;
    }
  }

  /** `v` lies between 0 and what `n` samples of density `hi` add: `n * hi * 0.5`. */
  predicate WithinSamples(v: real, n: nat, hi: real) {
    0.0 <= v <= n as real * (hi * DeltaT)
  }

  /** With every cell in `[0, hi]`, `n` samples add up to between 0 and `n * hi * 0.5`. */
  lemma SampleSumBounds(m: DensityMap, r: Ray, t0: real, n: nat, hi: real)
    requires Valid(m) && hi >= 0.0 && AllIn(m.values, 0.0, hi)
    ensures WithinSamples(DeltaT * Sum(SampleDensities(m, r, t0, n), n), n, hi)
  {
    var ds := SampleDensities(m, r, t0, n);
    SampleDensitiesBounds(m, r, t0, n, hi);
    SumBounds(ds, n, hi);
    HalfOfBound(Sum(ds, n), n, hi);
  }

  /** With every cell in `[0, hi]`, every sampled density lies in `[0, hi]`. */
  lemma SampleDensitiesBounds(m: DensityMap, r: Ray, t0: real, n: nat, hi: real)
    requires Valid(m) && hi >= 0.0 && AllIn(m.values, 0.0, hi)
    ensures forall k | 0 <= k < n :: 0.0 <= SampleDensities(m, r, t0, n)[k] <= hi
  {
    forall k | 0 <= k < n
      ensures 0.0 <= SampleDensities(m, r, t0, n)[k] <= hi
    {
      CellAtBounds(m, PointAt(r, SampleT(t0, k)), hi);
    }
  }

  /** With every cell in `[0, hi]`, the cell at any point reads between 0 and `hi`. */
  lemma CellAtBounds(m: DensityMap, p: Vec2, hi: real)
    requires Valid(m) && hi >= 0.0 && AllIn(m.values, 0.0, hi)
    ensures 0.0 <= CellAt(m, p) <= hi
  {
    if 0 <= p.x.Floor && 0 <= p.y.Floor {
      GetDensityBounds(m, 0.0, hi, p.x.Floor, p.y.Floor);
    }
  }

  /** Half of a total in `[0, n * hi]` lies in `[0, n * (hi * 0.5)]`. */
  lemma HalfOfBound(total: real, n: nat, hi: real)
    requires 0.0 <= total <= n as real * hi
    ensures WithinSamples(DeltaT * total, n, hi)
  {
    assert n as real * (hi * DeltaT) == (n as real * hi) * DeltaT;
  }

  /** Every sample of a clipped segment lies in the closed image square. */
  lemma SamplesInBox(size: nat, r: Ray, k: nat)
    requires ClipRay(size, r).Segment?
    requires k < SampleCount(ClipRay(size, r).tStart, ClipRay(size, r).tEnd)
    ensures InBox(size, PointAt(r, SampleT(ClipRay(size, r).tStart, k)))
  {
    ClipRayExact(size, r, SampleT(ClipRay(size, r).tStart, k));
  }

  /**
   * A ray that is never inside the square at any `t >= 0` traces to 0.0; this
   * covers the axis-parallel miss and the empty or backward interval.
   */
  lemma MissTracesZero(m: DensityMap, r: Ray)
    requires Valid(m) && Traceable(m, r)
    requires forall t: real | 0.0 <= t :: !InBox(GetSize(m), PointAt(r, t))
    ensures LineIntegral(m, r) == 0.0
  {
    var c := ClipRay(GetSize(m), r);
    if c.Segment? {
      ClipRayExact(GetSize(m), r, c.tStart);
    }
  }

  /**
   * With every cell in `[0, hi]` the traced density lies between 0 and
   * `hi * 0.5` per sample (`SampleCountBound` bounds the number of samples).
   */
  lemma LineIntegralBounds(m: DensityMap, r: Ray, hi: real)
    requires Valid(m) && Traceable(m, r) && hi >= 0.0 && AllIn(m.values, 0.0, hi)
    ensures 0.0 <= LineIntegral(m, r)
    ensures ClipRay(GetSize(m), r).Segment? ==>
              var c := ClipRay(GetSize(m), r);
              WithinSamples(LineIntegral(m, r), SampleCount(c.tStart, c.tEnd), hi)
    ensures !ClipRay(GetSize(m), r).Segment? ==> LineIntegral(m, r) == 0.0
  {
    match ClipRay(GetSize(m), r)
    case Segment(t0, t1) => SegmentTraceBounds(m, r, t0, t1, hi);
    case _ =>
  }

  /** The bound of `LineIntegralBounds` for a ray whose clip is the segment `[t0, t1)`. */
  lemma SegmentTraceBounds(m: DensityMap, r: Ray, t0: real, t1: real, hi: real)
    requires Valid(m) && Traceable(m, r) && hi >= 0.0 && AllIn(m.values, 0.0, hi)
    requires ClipRay(GetSize(m), r) == Segment(t0, t1)
    ensures WithinSamples(LineIntegral(m, r), SampleCount(t0, t1), hi)
  {
    SampleSumBounds(m, r, t0, SampleCount(t0, t1), hi);
  }

  /** A segment of length `L` holds at most `2L + 1` samples. */
  lemma SampleCountBound(t0: real, tEnd: real)
    requires t0 <= tEnd
    ensures SampleCount(t0, tEnd) as real <= 2.0 * (tEnd - t0) + 1.0
  {
    var n := SampleCount(t0, tEnd);
    if n > 0 {
      assert SampleT(t0, n - 1) < tEnd;
    }
  }
}
