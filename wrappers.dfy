/** The optional value a hero's tick returns: a new projectile, or nothing (`null`). */
module Wrappers {
  datatype Option<T> = None | Some(value: T)
}
