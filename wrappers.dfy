/** Small wrapper datatypes shared by the model. */
module Wrappers {

  /** A value that may be absent (JavaScript's `null` / `undefined`). */
  datatype Option<+T> = None | Some(value: T)

  /** The result of an awaited call: it resolved to a value, or it threw. */
  datatype Call<+T> = Returned(value: T) | Threw
}
