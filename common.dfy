/** Optional values and fallible results shared by both request handlers. */
module Common {

  /** A JavaScript value that may be `undefined`/`null` (None) or present (Some). */
  datatype Option<T> = None | Some(value: T)

  /** The outcome of an operation that may throw: the value, or the thrown error's message. */
  datatype Result<T> = Ok(value: T) | Err(message: string)

  /** The outcome of an operation that returns nothing but may throw. */
  datatype Outcome = Done | Threw(message: string)

  /** JavaScript truthiness of an optional string: present and not empty. */
  predicate Given(a: Option<string>) {
    a.Some? && a.value != ""
  }

  /** How a template literal renders an optional string: `undefined` when absent. */
  function Show(a: Option<string>): string {
    if a.Some? then a.value else "undefined"
  }
}
