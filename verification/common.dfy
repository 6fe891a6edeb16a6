/** Small building blocks shared by every module of the port service model. */
module Common {

  /** A value that may be absent: Go's `nil` error, an optional JSON field. */
  datatype Option<+T> = None | Some(value: T) {

    /** The held value, or `default` when there is none. */
    function GetOr(default: T): T
    {
      match this
      case Some(v) => v
      case None => default
    }
  }

  /** A Go `float64`, kept as its 64-bit IEEE 754 pattern. Coordinates are
      never computed with, only stored and copied, so the bit pattern is all
      the model needs: a coordinate is copied verbatim exactly when its
      pattern is kept. Go's `==` on floats is not modelled; it differs from
      pattern equality for NaN and for the two zeros. */
  type Float64 = bv64
}
