/**
 * Dense real matrices as sequences of rows (`M[row][col]`), the operations the
 * simulator performs on whole matrices, and min-max normalisation with the
 * semantics of OpenCV's `normalize(src, dst, 0.0, 1.0, NORM_MINMAX)`.
 */
module Matrices {

  type Matrix = seq<seq<real>>

  predicate IsMatrix(m: Matrix, rows: nat, cols: nat) {
    |m| == rows && forall r | 0 <= r < |m| :: |m[r]| == cols
  }

  /** Number of columns; a matrix without rows has none. */
  function Cols(m: Matrix): nat {
    if |m| == 0 then 0 else |m[0]|
  }

  predicate Rectangular(m: Matrix) {
    IsMatrix(m, |m|, Cols(m))
  }

  predicate NonEmpty(m: Matrix) {
    |m| > 0 && Cols(m) > 0
  }

  /** Every entry of `m` lies in `[lo, hi]`. */
  predicate AllIn(m: Matrix, lo: real, hi: real) {
    forall r, c | 0 <= r < |m| && 0 <= c < |m[r]| :: lo <= m[r][c] <= hi
  }

  /** A freshly allocated matrix, as `cv::Mat(rows, cols, CV_64F, cv::Scalar(0))` builds it. */
  function Zeros(rows: nat, cols: nat): (z: Matrix)
    ensures IsMatrix(z, rows, cols) && AllIn(z, 0.0, 0.0)
  {
    seq(rows, _ => seq(cols, _ => 0.0))
  }

  /** `m` with column `col` replaced by `values` and every other entry kept. */
  function SetColumn(m: Matrix, col: nat, values: seq<real>): (m': Matrix)
    requires |values| == |m| && forall r | 0 <= r < |m| :: col < |m[r]|
    ensures |m'| == |m| && forall r | 0 <= r < |m| :: |m'[r]| == |m[r]|
    ensures forall r, c | 0 <= r < |m'| && 0 <= c < |m'[r]| ::
              m'[r][c] == if c == col then values[r] else m[r][c]
  {
    seq(|m|, r requires 0 <= r < |m| => m[r][col := values[r]])
  }

  /** The sum of the first `n` entries of `s`. */
  function Sum(s: seq<real>, n: nat): real
    requires n <= |s|
  {
    if n == 0 then 0.0 else Sum(s, n - 1) + s[n - 1]
  }

  /** `n` terms, each in `[0, hi]`, sum to between 0 and `n * hi`. */
  lemma {:induction false} SumBounds(s: seq<real>, n: nat, hi: real)
    requires n <= |s| && forall i | 0 <= i < |s| :: 0.0 <= s[i] <= hi
    ensures 0.0 <= Sum(s, n) <= n as real * hi
  {
    if n > 0 {
      SumBounds(s, n - 1, hi);
      assert (n - 1) as real * hi + hi == n as real * hi;
    }
  }

  /** Position of a least element of `s`. */
  function SeqArgMin(s: seq<real>): (i: nat)
    requires |s| > 0
    ensures i < |s| && forall j | 0 <= j < |s| :: s[i] <= s[j]
  {
    if |s| == 1 then 0
    else
      var i := SeqArgMin(s[1..]) + 1;
      assert forall j | 1 <= j < |s| :: s[j] == s[1..][j - 1];
      if s[0] <= s[i] then 0 else i
  }

  /** Position of a greatest element of `s`. */
  function SeqArgMax(s: seq<real>): (i: nat)
    requires |s| > 0
    ensures i < |s| && forall j | 0 <= j < |s| :: s[j] <= s[i]
  {
    if |s| == 1 then 0
    else
      var i := SeqArgMax(s[1..]) + 1;
      assert forall j | 1 <= j < |s| :: s[j] == s[1..][j - 1];
      if s[i] <= s[0] then 0 else i
  }

  /** Position `(row, col)` of a least entry of a non-empty matrix. */
  function ArgMin(m: Matrix): (p: (nat, nat))
    requires Rectangular(m) && NonEmpty(m)
    ensures p.0 < |m| && p.1 < |m[p.0]|
    ensures forall r, c | 0 <= r < |m| && 0 <= c < |m[r]| :: m[p.0][p.1] <= m[r][c]
  {
    var first := (0, SeqArgMin(m[0]));
    if |m| == 1 then first
    else
      var q := ArgMin(m[1..]);
      var rest := (q.0 + 1, q.1);
      assert forall r | 1 <= r < |m| :: m[r] == m[1..][r - 1];
      if m[first.0][first.1] <= m[rest.0][rest.1] then first else rest
  }

  /** Position `(row, col)` of a greatest entry of a non-empty matrix. */
  function ArgMax(m: Matrix): (p: (nat, nat))
    requires Rectangular(m) && NonEmpty(m)
    ensures p.0 < |m| && p.1 < |m[p.0]|
    ensures forall r, c | 0 <= r < |m| && 0 <= c < |m[r]| :: m[r][c] <= m[p.0][p.1]
  {
    var first := (0, SeqArgMax(m[0]));
    if |m| == 1 then first
    else
      var q := ArgMax(m[1..]);
      var rest := (q.0 + 1, q.1);
      assert forall r | 1 <= r < |m| :: m[r] == m[1..][r - 1];
      if m[rest.0][rest.1] <= m[first.0][first.1] then first else rest
  }

  /** The least entry, `minVal` of OpenCV's `minMaxIdx`. */
  function MatrixMin(m: Matrix): real
    requires Rectangular(m) && NonEmpty(m)
  {
    m[ArgMin(m).0][ArgMin(m).1]
  }

  /** The greatest entry, `maxVal` of OpenCV's `minMaxIdx`. */
  function MatrixMax(m: Matrix): real
    requires Rectangular(m) && NonEmpty(m)
  {
    m[ArgMax(m).0][ArgMax(m).1]
  }

  /** A lower bound that some entry attains is the minimum. */
  lemma MinIsAttainedBound(m: Matrix, v: real, r: nat, c: nat)
    requires Rectangular(m) && NonEmpty(m)
    requires forall r, c | 0 <= r < |m| && 0 <= c < |m[r]| :: v <= m[r][c]
    requires r < |m| && c < |m[r]| && m[r][c] == v
    ensures MatrixMin(m) == v
  {
  }

  /** An upper bound that some entry attains is the maximum. */
  lemma MaxIsAttainedBound(m: Matrix, v: real, r: nat, c: nat)
    requires Rectangular(m) && NonEmpty(m)
    requires forall r, c | 0 <= r < |m| && 0 <= c < |m[r]| :: m[r][c] <= v
    requires r < |m| && c < |m[r]| && m[r][c] == v
    ensures MatrixMax(m) == v
  {
  }

  /** One entry of an affine rescaling. */
  function Rescale(v: real, scale: real, shift: real): real {
    v * scale + shift
  }

  /** Every entry `v` mapped to `v * scale + shift`. */
  function Affine(m: Matrix, scale: real, shift: real): (n: Matrix)
    requires Rectangular(m)
    ensures IsMatrix(n, |m|, Cols(m))
    ensures forall r, c | 0 <= r < |n| && 0 <= c < |n[r]| :: n[r][c] == Rescale(m[r][c], scale, shift)
  {
    seq(|m|, r requires 0 <= r < |m| =>
      seq(|m[r]|, c requires 0 <= c < |m[r]| => Rescale(m[r][c], scale, shift)))
  }

  /** `DBL_EPSILON`, 2^-52: OpenCV treats a smaller value range as constant. */
  const DblEpsilon: real := 1.0 / 4503599627370496.0

  /** The factor OpenCV's NORM_MINMAX applies for the target range [0, 1]. */
  function MinMaxScale(lo: real, hi: real): (k: real)
    ensures hi - lo > DblEpsilon ==> k > 0.0 && k * (hi - lo) == 1.0
    ensures hi - lo <= DblEpsilon ==> k == 0.0
  {
    if hi - lo > DblEpsilon then 1.0 / (hi - lo) else 0.0
  }

  /**
   * Min-max normalisation to [0, 1]: every entry `v` becomes `v * scale + shift`
   * with `shift = 0 - min * scale`. Over a non-constant matrix the position of
   * the minimum maps to 0 and that of the maximum to 1; a constant matrix (range
   * not above DBL_EPSILON) maps to zeros; an empty matrix is returned unchanged.
   */
  function MinMaxNormalize(m: Matrix): (n: Matrix)
    requires Rectangular(m)
    ensures IsMatrix(n, |m|, Cols(m))
    ensures AllIn(n, 0.0, 1.0)
    ensures NonEmpty(m) && MatrixMax(m) - MatrixMin(m) > DblEpsilon ==>
              n[ArgMin(m).0][ArgMin(m).1] == 0.0 && n[ArgMax(m).0][ArgMax(m).1] == 1.0
    ensures NonEmpty(m) && MatrixMax(m) - MatrixMin(m) > DblEpsilon ==>
              forall r, c | 0 <= r < |m| && 0 <= c < |m[r]| ::
                OnMinMaxScale(m[r][c], MatrixMin(m), MatrixMax(m), n[r][c])
    ensures NonEmpty(m) && MatrixMax(m) - MatrixMin(m) <= DblEpsilon ==> AllIn(n, 0.0, 0.0)
  {
    if !NonEmpty(m) then
      assert forall r | 0 <= r < |m| :: |m[r]| == 0;
      m
    else
      var lo, hi := MatrixMin(m), MatrixMax(m);
      var n := NormalizeBetween(m, lo, hi);
      n
  }

  /**
   * `w` is `v` measured on the scale that puts `lo` at 0 and `hi` at 1:
   * `w = (v - lo) / (hi - lo)`, stated without the division.
   */
  predicate OnMinMaxScale(v: real, lo: real, hi: real, w: real) {
    w * (hi - lo) == v - lo
  }

  /** Min-max rescaling of `m` for a given minimum `lo` and maximum `hi`. */
  function NormalizeBetween(m: Matrix, lo: real, hi: real): (n: Matrix)
    requires Rectangular(m)
    requires forall r, c | 0 <= r < |m| && 0 <= c < |m[r]| :: lo <= m[r][c] <= hi
    ensures IsMatrix(n, |m|, Cols(m))
    ensures AllIn(n, 0.0, 1.0)
    ensures hi - lo > DblEpsilon ==>
              forall r, c | 0 <= r < |m| && 0 <= c < |m[r]| ::
                (m[r][c] == lo ==> n[r][c] == 0.0) && (m[r][c] == hi ==> n[r][c] == 1.0)
    ensures hi - lo > DblEpsilon ==>
              forall r, c | 0 <= r < |m| && 0 <= c < |m[r]| :: OnMinMaxScale(m[r][c], lo, hi, n[r][c])
    ensures hi - lo <= DblEpsilon ==> AllIn(n, 0.0, 0.0)
  {
    var k := MinMaxScale(lo, hi);
    var shift := 0.0 - lo * k;
    if hi - lo > DblEpsilon then
      RescaledAllIn(m, lo, hi, k, shift);
      Affine(m, k, shift)
    else
      RescaledToZero(m, lo, shift);
      Affine(m, k, shift)
  }

  /**
   * With `k * (hi - lo) == 1` and `shift = -lo * k`, entries in [lo, hi] land in
   * [0, 1], `lo` on 0 and `hi` on 1.
   */
  lemma RescaledAllIn(m: Matrix, lo: real, hi: real, k: real, shift: real)
    requires Rectangular(m)
    requires forall r, c | 0 <= r < |m| && 0 <= c < |m[r]| :: lo <= m[r][c] <= hi
    requires k > 0.0 && k * (hi - lo) == 1.0 && shift == 0.0 - lo * k
    ensures AllIn(Affine(m, k, shift), 0.0, 1.0)
    ensures forall r, c | 0 <= r < |m| && 0 <= c < |m[r]| ::
              (m[r][c] == lo ==> Affine(m, k, shift)[r][c] == 0.0) &&
              (m[r][c] == hi ==> Affine(m, k, shift)[r][c] == 1.0)
    ensures forall r, c | 0 <= r < |m| && 0 <= c < |m[r]| ::
              OnMinMaxScale(m[r][c], lo, hi, Affine(m, k, shift)[r][c])
  {
    var n := Affine(m, k, shift);
    forall r, c | 0 <= r < |n| && 0 <= c < |n[r]|
      ensures 0.0 <= n[r][c] <= 1.0
    {
      RescaleInUnit(m[r][c], lo, hi, k, shift);
    }
    forall r, c | 0 <= r < |m| && 0 <= c < |m[r]|
      ensures m[r][c] == lo ==> n[r][c] == 0.0
      ensures m[r][c] == hi ==> n[r][c] == 1.0
      ensures OnMinMaxScale(m[r][c], lo, hi, n[r][c])
    {
      assert |n[r]| == |m[r]|;
      RescaleInUnit(m[r][c], lo, hi, k, shift);
    }
  }

  /** A zero scale with a zero shift collapses every entry to 0. */
  lemma RescaledToZero(m: Matrix, lo: real, shift: real)
    requires Rectangular(m) && shift == 0.0 - lo * 0.0
    ensures AllIn(Affine(m, 0.0, shift), 0.0, 0.0)
    ensures AllIn(Affine(m, 0.0, shift), 0.0, 1.0)
  {
    assert shift == 0.0;
    var n := Affine(m, 0.0, shift);
    forall r, c | 0 <= r < |n| && 0 <= c < |n[r]|
      ensures n[r][c] == 0.0
    {
      assert Rescale(m[r][c], 0.0, 0.0) == 0.0;
    }
  }

  /** With `k = 1 / (hi - lo)`, `v * k - lo * k` places `v` within [0, 1]. */
  lemma RescaleInUnit(v: real, lo: real, hi: real, k: real, shift: real)
    requires lo <= v <= hi && k > 0.0 && k * (hi - lo) == 1.0 && shift == 0.0 - lo * k
    ensures 0.0 <= Rescale(v, k, shift) <= 1.0
    ensures v == lo ==> Rescale(v, k, shift) == 0.0
    ensures v == hi ==> Rescale(v, k, shift) == 1.0
    ensures OnMinMaxScale(v, lo, hi, Rescale(v, k, shift))
  {
    assert v * k + shift == (v - lo) * k;
    assert ((v - lo) * k) * (hi - lo) == (v - lo) * (k * (hi - lo));
    assert (v - lo) * k >= 0.0;
    assert (v - lo) * k <= (hi - lo) * k;
  }

  /** Applying min-max normalisation a second time changes nothing. */
  lemma MinMaxNormalizeIdempotent(m: Matrix)
    requires Rectangular(m)
    ensures MinMaxNormalize(MinMaxNormalize(m)) == MinMaxNormalize(m)
  {
    var n := MinMaxNormalize(m);
    if NonEmpty(m) {
      assert NonEmpty(n) && Rectangular(n);
      if MatrixMax(m) - MatrixMin(m) > DblEpsilon {
        MinIsAttainedBound(n, 0.0, ArgMin(m).0, ArgMin(m).1);
        MaxIsAttainedBound(n, 1.0, ArgMax(m).0, ArgMax(m).1);
        NormalizeFixesUnitRange(n);
      } else {
        NormalizeFixesZeros(n);
      }
    }
  }

  /** A matrix whose least entry is 0 and greatest is 1 is already min-max normalised. */
  lemma NormalizeFixesUnitRange(n: Matrix)
    requires Rectangular(n) && NonEmpty(n) && MatrixMin(n) == 0.0 && MatrixMax(n) == 1.0
    ensures MinMaxNormalize(n) == n
  {
    assert MinMaxNormalize(n) == NormalizeBetween(n, 0.0, 1.0);
    assert MinMaxScale(0.0, 1.0) == 1.0;
    assert 0.0 - 0.0 * 1.0 == 0.0;
    forall r, c | 0 <= r < |n| && 0 <= c < |n[r]|
      ensures Rescale(n[r][c], 1.0, 0.0) == n[r][c]
    {
    }
    AffineUnchanged(n, 1.0, 0.0);
  }

  /** A non-empty all-zero matrix is already min-max normalised. */
  lemma NormalizeFixesZeros(n: Matrix)
    requires Rectangular(n) && NonEmpty(n) && AllIn(n, 0.0, 0.0)
    ensures MinMaxNormalize(n) == n
  {
    MinIsAttainedBound(n, 0.0, 0, 0);
    MaxIsAttainedBound(n, 0.0, 0, 0);
    assert MinMaxNormalize(n) == NormalizeBetween(n, 0.0, 0.0);
    assert MinMaxScale(0.0, 0.0) == 0.0;
    assert 0.0 - 0.0 * 0.0 == 0.0;
    forall r, c | 0 <= r < |n| && 0 <= c < |n[r]|
      ensures Rescale(n[r][c], 0.0, 0.0) == n[r][c]
    {
    }
    AffineUnchanged(n, 0.0, 0.0);
  }

  /** An affine map that fixes every entry leaves the matrix unchanged. */
  lemma AffineUnchanged(m: Matrix, scale: real, shift: real)
    requires Rectangular(m)
    requires forall r, c | 0 <= r < |m| && 0 <= c < |m[r]| :: Rescale(m[r][c], scale, shift) == m[r][c]
    ensures Affine(m, scale, shift) == m
  {
    var n := Affine(m, scale, shift);
    forall r | 0 <= r < |m| ensures n[r] == m[r] { }
  }
}
