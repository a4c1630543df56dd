/**
 * Go `error` values as the core builds them: plain messages (`errors.New`,
 * `errors.Errorf`, the syntax error of `strconv.Atoi`) and messages wrapped with
 * context by `errors.Wrapf` of github.com/pkg/errors.
 */
module Errors {

  datatype Error =
    | Message(text: string)
    | Wrapped(context: string, inner: Error)

  /** `errors.Cause`: the innermost error, with every layer of context removed. */
  function Cause(e: Error): (c: Error)
    ensures c.Message?
    ensures e.Message? ==> c == e
  {
    match e
    case Message(_) => e
    case Wrapped(_, inner) => Cause(inner)
  }

  /** `e.Error()`: a wrapped error prints as "context: inner". */
  function Text(e: Error): string
  {
    match e
    case Message(t) => t
    case Wrapped(context, inner) => context + ": " + Text(inner)
  }

  /** `errors.Wrapf(err, context)`. */
  function Wrap(context: string, e: Error): (w: Error)
    ensures Cause(w) == Cause(e)
    ensures Text(w) == context + ": " + Text(e)
  {
    Wrapped(context, e)
  }
}
