/**
 * The outcome of a simulated scan: the reconstructed image and the normalised
 * projections it was reconstructed from. The accessors of the C++
 * `SimulationResult` class are the datatype's fields.
 */
module SimulationResults {
  import opened Matrices

  datatype SimulationResult = SimulationResult(image: Matrix, projections: Matrix)
}
