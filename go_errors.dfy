/**
  Go `error` values as far as the sink creates or passes them on: a plain
  error carrying a text (`errors.New`, or any error returned by a library
  call), and an error wrapped by `fmt.Errorf` with a `%w` verb, which
  prefixes the cause's message and keeps the cause for `errors.Unwrap`.
 */
module GoErrors {
  import opened Wrappers

  datatype Error =
    | Text(text: string)
    | Wrapped(prefix: string, cause: Error)

  /** What `err.Error()` returns. */
  function Message(e: Error): string
  {
    match e
    case Text(t) => t
    case Wrapped(p, c) => p + Message(c)
  }

  /** `errors.Unwrap`: the cause of a `%w`-wrapped error, none for a plain one. */
  function Unwrap(e: Error): Option<Error>
  {
    match e
    case Text(_) => None
    case Wrapped(_, c) => Some(c)
  }

  /** `errors.Is` for errors compared by value: `target` is on the unwrap chain of `e`. */
  predicate Is(e: Error, target: Error)
  {
    e == target || (e.Wrapped? && Is(e.cause, target))
  }

  /** `fmt.Errorf(prefix + "%w", cause)`. */
  function Errorf(prefix: string, cause: Error): (e: Error)
    ensures Message(e) == prefix + Message(cause)
    ensures Unwrap(e) == Some(cause)
    ensures Is(e, cause) && e != cause
  {
    Wrapped(prefix, cause)
  }
}
