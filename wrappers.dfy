/** An optional value, the result of the model's partial operations. */
module Wrappers {

  /** Either no value or one value. */
  datatype Option<+T> = None | Some(value: T)
}
