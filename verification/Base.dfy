/** Datatypes shared by the modules. */
module Base {

  datatype Option<+T> = None | Some(value: T)

  datatype Result<+T> = Ok(value: T) | Err

  /** How a call that changes something outside the daemon turned out: it took
      effect, it was rejected without effect, or it took effect although the
      caller was told that it failed. */
  datatype Call = Done | Refused | Lost

  /** `NonZeroU32`, whose width plays no part in the properties proved. */
  type NonZero = x: nat | 0 < x witness 1
}
