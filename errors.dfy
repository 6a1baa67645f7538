/** Go's `error` values as the short-ID core produces and inspects them.

    A nil error is `None`; a non-nil one is `Some(e)`. The sentinel errors of the
    store interface, the error from the randomness source and the coordinator's own
    errors are constructors; `fmt.Errorf("...: %w", cause)` is `Wrapped`, and
    `errors.Is` is `Is`, which follows the chain of wrapped causes. Message texts are
    not modelled, only which error wraps which. */
module Errors {

  datatype Option<+T> = None | Some(value: T)

  /** The prefix that `fmt.Errorf` puts in front of a wrapped cause. */
  datatype Context =
    | CheckExistence     // "failed to check ID existence: %w"
    | CouldNotGenerate   // "could not generate unique short ID: %w"
    | SaveFailed         // "storage error during save: %w"
    | GetFailed          // "storage error during get: %w"

  datatype Error =
    | NotFound                      // ErrNotFound: no link under this id
    | Conflict                      // ErrConflict: the id is already taken
    | RandomnessUnavailable         // crypto/rand could not supply bytes
    | StoreFault                    // any failure of a backing store other than the in-memory ones
    | Exhausted                     // "failed to generate unique ID after ... attempts"
    | UnexpectedConflict(id: string) // "unexpected conflict during save for ID %s" (does not wrap)
    | Wrapped(context: Context, cause: Error)

  /** `errors.Is(e, target)`: `e` is `target` or wraps it, at any depth. */
  predicate Is(e: Error, target: Error)
    decreases e
  {
    e == target || (e.Wrapped? && Is(e.cause, target))
  }
}
