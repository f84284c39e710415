/** Small shared vocabulary. */
module Prelude {

  /** A value that JavaScript would hold as `T | null`. */
  datatype Option<+T> = None | Some(value: T)
}
