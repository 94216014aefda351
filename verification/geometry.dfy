/**
 * Two-dimensional vectors over exact reals, the rotation the simulator applies to
 * its base vector, and normalisation.
 *
 * Trigonometric functions and square roots are not computed: a rotation angle is
 * represented by its (cosine, sine) pair, constrained only by cos^2 + sin^2 = 1,
 * and `Normalize` is handed the norm of its argument as a witness.
 */
module Geometry {
  import opened Wrappers

  datatype Vec2 = Vec2(x: real, y: real)

  /** The cosine and sine of one rotation angle. */
  datatype Trig = Trig(cos: real, sin: real)

  predicate OnUnitCircle(t: Trig) {
    t.cos * t.cos + t.sin * t.sin == 1.0
  }

  /** True when `rot` gives a point of the unit circle for every angle. */
  ghost predicate IsTrigTable(rot: real -> Trig) {
    forall deg: real :: OnUnitCircle(rot(deg))
  }

  const Zero: Vec2 := Vec2(0.0, 0.0)

  function Add(a: Vec2, b: Vec2): Vec2 {
    Vec2(a.x + b.x, a.y + b.y)
  }

  function Sub(a: Vec2, b: Vec2): Vec2 {
    Vec2(a.x - b.x, a.y - b.y)
  }

  function Scale(k: real, v: Vec2): Vec2 {
    Vec2(k * v.x, k * v.y)
  }

  function Neg(v: Vec2): Vec2 {
    Vec2(-v.x, -v.y)
  }

  function Dot(a: Vec2, b: Vec2): real {
    a.x * b.x + a.y * b.y
  }

  /** The vector turned a quarter turn counter-clockwise, `(-v.y, v.x)`. */
  function Perp(v: Vec2): (p: Vec2)
    ensures Dot(p, v) == 0.0
    ensures Dot(p, p) == Dot(v, v)
  {
    Vec2(-v.y, v.x)
  }

  predicate IsUnit(v: Vec2) {
    Dot(v, v) == 1.0
  }

  function Abs(x: real): (r: real)
    ensures r >= 0.0 && r * r == x * x
  {
    if x < 0.0 then -x else x
  }

  function Min(a: real, b: real): real {
    if a <= b then a else b
  }

  function Max(a: real, b: real): real {
    if a <= b then b else a
  }

  /**
   * The row vector `v` multiplied by the column-major matrix
   * `dmat2(cos, -sin, sin, cos)`: a counter-clockwise rotation of `v`.
   */
  function Rotate(v: Vec2, t: Trig): (r: Vec2)
    requires OnUnitCircle(t)
    ensures Dot(r, r) == Dot(v, v)
    ensures v.y == 0.0 ==> r == Scale(v.x, Vec2(t.cos, t.sin))
  {
    var r := Vec2(v.x * t.cos - v.y * t.sin, v.x * t.sin + v.y * t.cos);
    assert Dot(r, r) == (v.x * v.x + v.y * v.y) * (t.cos * t.cos + t.sin * t.sin);
    r
  }

  /**
   * `v` divided by its norm `len`. The zero vector (norm 0) has no direction;
   * `glm::normalize` in the C++ simulator yields a NaN vector there, modelled as `None`.
   */
  function Normalize(v: Vec2, len: real): (r: Option<Vec2>)
    requires len >= 0.0 && len * len == Dot(v, v)
    ensures r.None? <==> len == 0.0
    ensures r.Some? ==> IsUnit(r.value) && Scale(len, r.value) == v
  {
    if len == 0.0 then None
    else
      ScaledUnit(v, len);
      Some(Scale(1.0 / len, v))
  }

  lemma ScaledUnit(v: Vec2, len: real)
    requires len > 0.0 && len * len == Dot(v, v)
    ensures IsUnit(Scale(1.0 / len, v)) && Scale(len, Scale(1.0 / len, v)) == v
  {
    var k := 1.0 / len;
    assert k * len == 1.0;
    calc {
      Dot(Scale(k, v), Scale(k, v));
      (k * v.x) * (k * v.x) + (k * v.y) * (k * v.y);
      (k * k) * (v.x * v.x + v.y * v.y);
      (k * k) * (len * len);
      (k * len) * (k * len);
    }
    assert len * (k * v.x) == (len * k) * v.x;
    assert len * (k * v.y) == (len * k) * v.y;
  }
}
