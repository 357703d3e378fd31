/** Failure kinds raised by the compressor core and a failure-compatible Result. */
module Errors {

  /** The exceptions the core can raise.
      NegativeDistance and NotImplemented are the two ValueErrors of the
      neighbour enumerator, PointTooShort is the IndexError it hits when the
      point has fewer components than the shape, ThresholdUnset is the
      ValueError of normalisation before sampling, and EmptySample is the
      ValueError of taking the maximum of an empty batch. */
  datatype Error =
    | NegativeDistance
    | NotImplemented
    | PointTooShort
    | ThresholdUnset
    | EmptySample

  /** Either a value or the error that aborted the computation. */
  datatype Result<+T> = Success(value: T) | Failure(error: Error) {

    predicate IsFailure() {
      Failure?
    }

    function PropagateFailure<U>(): Result<U>
      requires Failure?
    {
      Failure(error)
    }

    function Extract(): T
      requires Success?
    {
      value
    }
  }
}
