/** An optional value, standing for JavaScript's `null` in places where the
    application stores "nothing yet" or returns early without a result. */
module Wrappers {

  datatype Option<+T> = None | Some(value: T)
}
