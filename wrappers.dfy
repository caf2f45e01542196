/** Option, the shape every "may return nullptr / nothing" result takes in this model. */
module Wrappers {
  datatype Option<T> = None | Some(value: T)
}
