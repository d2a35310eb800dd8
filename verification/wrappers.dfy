/** The optional-value datatype used for the validator's optional constraint
    fields and for the accept/reject outcome of the input form. */
module Wrappers {

  /** `None` stands for an absent (`undefined` or `null`) value. */
  datatype Option<+T> = None | Some(value: T)
}
