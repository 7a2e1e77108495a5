/** Option type used for PHP's nullable results (`null` becomes `None`). */
module Wrappers {
  datatype Option<+T> = None | Some(value: T)
}
