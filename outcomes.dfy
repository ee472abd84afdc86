/** Optional values, results and the error kinds of the hex-map renderer. */
module Outcomes {

  datatype Option<+T> = None | Some(value: T)

  /** A Go `(value, error)` pair: exactly one of the two is meaningful. */
  datatype Result<+T> = Ok(value: T) | Err(error: Error)

  /** The ways an operation of the renderer can end without a value.
      The two `Nil...` kinds stand for the run-time panics Go raises when a
      nil image is dereferenced; the model reports them as values. */
  datatype Error =
    | OpenFailed(path: string)                  // os.Open failed
    | DecodeFailed(path: string, jpeg: bool)    // the jpeg (true) or png (false) decoder failed
    | InvalidCoordinate(coord: string)          // "invalid coordinate: %s"
    | NilLayer(path: string)                    // a layer loaded as a nil image was dereferenced
    | NilCanvas                                 // a nil base image was dereferenced
}
