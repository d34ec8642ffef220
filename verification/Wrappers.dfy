/** What may be missing, in Redis, in JavaScript objects and in answers. */
module Wrappers {

  datatype Option<+T> = None | Some(value: T)

  function Or<T>(o: Option<T>, default: T): T {
    if o.Some? then o.value else default
  }
}
