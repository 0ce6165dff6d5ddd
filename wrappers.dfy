/** Small value types shared by the modules of the model. */
module Wrappers {

  /** Python's `None` or a present value. */
  datatype Option<+T> = None | Some(value: T)

  /** The answer of one remote call: it raised, or it returned a value. */
  datatype Reply<+T> = Fail | Ok(value: T)
}
