/** Option: the model of a Java reference that may be null, or of an
    `Optional<T>` that may be empty. */
module Wrappers {

  datatype Option<+T> = None | Some(value: T)
}
