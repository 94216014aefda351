/**
 * The density map the scanner looks through: a square grid of attenuation values
 * read from an 8-bit grayscale image and scaled to [0, 1].
 *
 * Decoding the image file is not modelled; a load starts from the decoded pixel
 * rows. The grid is stored row-major, so the cell at column `x`, row `y` is
 * `values[y][x]`.
 */
module DensityMaps {
  import opened Wrappers
  import opened Matrices

  /** One 8-bit grayscale intensity. */
  type Byte = b: int | 0 <= b < 256

  /** A decoded grayscale image: rows of equal length. */
  predicate IsImage(pixels: seq<seq<Byte>>) {
    forall r | 0 <= r < |pixels| :: |pixels[r]| == |pixels[0]|
  }

  datatype DensityMap = DensityMap(values: Matrix, size: nat)

  /** The grid is `size` by `size`. */
  predicate Valid(d: DensityMap) {
    IsMatrix(d.values, d.size, d.size)
  }

  /** Why a load is rejected. */
  datatype LoadError =
    | EmptyImage
    | NotSquare(rows: nat, cols: nat)

  /** An 8-bit intensity converted to a density in [0, 1]. */
  function Scaled(b: Byte): (v: real)
    ensures 0.0 <= v <= 1.0
    ensures b == 0 <==> v == 0.0
    ensures b == 255 <==> v == 1.0
  {
    b as real / 255.0
  }

  /**
   * Builds a density map from decoded pixels: an empty image is rejected, every
   * intensity is scaled by 1/255, and a non-square image is rejected.
   */
  function Load(pixels: seq<seq<Byte>>): (r: Result<DensityMap, LoadError>)
    requires IsImage(pixels)
    ensures r.Success? <==> |pixels| > 0 && |pixels| == |pixels[0]|
    ensures r.Failure? && (|pixels| == 0 || |pixels[0]| == 0) ==> r.error == EmptyImage
    ensures r.Failure? && |pixels| > 0 && |pixels[0]| > 0 ==>
              r.error == NotSquare(|pixels|, |pixels[0]|)
    ensures r.Success? ==>
              Valid(r.value) && r.value.size == |pixels| && AllIn(r.value.values, 0.0, 1.0) &&
              forall y, x | 0 <= y < |pixels| && 0 <= x < |pixels[y]| ::
                r.value.values[y][x] == Scaled(pixels[y][x])
  {
    if |pixels| == 0 || |pixels[0]| == 0 then Failure(EmptyImage)
    else
      var values := seq(|pixels|, y requires 0 <= y < |pixels| =>
                      seq(|pixels[y]|, x requires 0 <= x < |pixels[y]| => Scaled(pixels[y][x])));
      if |pixels| != |pixels[0]| then Failure(NotSquare(|pixels|, |pixels[0]|))
      else Success(DensityMap(values, |pixels|))
  }

  /** The side length of the grid. */
  function GetSize(d: DensityMap): (n: nat)
    requires Valid(d)
    ensures n == |d.values| && forall y | 0 <= y < |d.values| :: |d.values[y]| == n
  {
    d.size
  }

  /**
   * The density of cell (`x`, `y`). Total over all index pairs: outside the grid
   * it is 0.0.
   */
  function GetDensity(d: DensityMap, x: nat, y: nat): (v: real)
    requires Valid(d)
    ensures x >= GetSize(d) || y >= GetSize(d) ==> v == 0.0
    ensures x < GetSize(d) && y < GetSize(d) ==> v == d.values[y][x]
  {
    if x >= d.size || y >= d.size then 0.0 else d.values[y][x]
  }

  /**
   * Reading back a loaded map gives each pixel's scaled intensity, at row `y`
   * and column `x`, and 0.0 for any index outside the image.
   */
  lemma GetDensityOfLoaded(pixels: seq<seq<Byte>>, x: nat, y: nat)
    requires IsImage(pixels) && Load(pixels).Success?
    ensures var d := Load(pixels).value;
            GetDensity(d, x, y) ==
              if x < |pixels| && y < |pixels| then Scaled(pixels[y][x]) else 0.0
  {
  }

  /** A grid with all cells in [lo, hi] reads values in [lo, hi], or 0.0 outside it. */
  lemma GetDensityBounds(d: DensityMap, lo: real, hi: real, x: nat, y: nat)
    requires Valid(d) && AllIn(d.values, lo, hi)
    ensures var v := GetDensity(d, x, y);
            (lo <= v <= hi) || (v == 0.0 && (x >= GetSize(d) || y >= GetSize(d)))
  {
  }
}
