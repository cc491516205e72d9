/** Option and Result values standing for TypeScript's `T | null` / `undefined`
    and for a call that either returns a value or throws an `Error` whose
    message is carried in `Err`; Outcome for how an awaited promise ends on
    the client. */
module Wrappers {

  datatype Option<T> = None | Some(value: T)

  datatype Result<T> = Ok(value: T) | Err(message: string)

  /** `o || ''` on an optional string: absent and empty both give "". */
  function OrEmpty(o: Option<string>): (s: string)
    ensures o.Some? ==> s == o.value
    ensures o.None? ==> s == ""
  {
    if o.Some? then o.value else ""
  }

  /** What a rejected promise carries: an `Error` with its message, or a
      value that is not an `Error`. */
  datatype Thrown = ErrorValue(message: string) | NonError

  /** How an awaited call ends. */
  datatype Outcome<T> = Resolved(value: T) | Rejected(reason: Thrown)

  /** `err instanceof Error ? err.message : fallback`. */
  function MessageOf(t: Thrown, fallback: string): (m: string)
    ensures t.ErrorValue? ==> m == t.message
    ensures t.NonError? ==> m == fallback
  {
    if t.ErrorValue? then t.message else fallback
  }
}
