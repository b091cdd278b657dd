/** An optional value: JavaScript's `undefined`/`null` for a field a task record may lack. */
module Wrappers {

  datatype Option<+T> = None | Some(value: T)
}
