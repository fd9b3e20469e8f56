/** Outcomes shared by the model: an optional value, and the outcome of a
    Python call that either returns or raises `KeyError` on a dictionary key. */
module Outcomes {

  datatype Option<+T> = None | Some(value: T)

  /** `Ok(v)`: the call returned `v`; `KeyError(k)`: it raised `KeyError(k)`. */
  datatype Raised<+T> = Ok(value: T) | KeyError(key: string)
}
