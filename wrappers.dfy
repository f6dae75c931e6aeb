/** Stock optional-value datatype shared by the other modules. */
module Wrappers {

  /** `None` stands for what the source reports as `undefined`, a thrown
      TypeError, or a non-finite number (NaN, Infinity), depending on use. */
  datatype Option<+T> = None | Some(value: T)
}
