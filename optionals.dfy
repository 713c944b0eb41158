/** Swift's `Optional`: a value that may be absent (`nil`). Equality of two
    optionals follows Swift: `nil == nil` holds. */
module Optionals {

  datatype Option<+T> = None | Some(value: T)
}
