/**
 * The error values that cross the repository/service boundary, and Go's
 * `errors.Is`, which the service uses to recognise the repository's NotFound.
 */
module Errors {

  /**
   * RepoNotFound is the repository's sentinel, ServiceNotFound the service's own
   * (internal/service/service.go:10); Failure is any other error, and Wrapped an
   * error that wraps a cause (as `fmt.Errorf("...: %w", cause)` builds one).
   */
  datatype Error =
    | RepoNotFound
    | ServiceNotFound
    | Failure(msg: string)
    | Wrapped(msg: string, cause: Error)

  /** errors.Is(err, target): err, or some error in its chain of causes, is target. */
  predicate Is(err: Error, target: Error)
    ensures err == target ==> Is(err, target)
    ensures Is(err, target) ==> err == target || err.Wrapped?
  {
    err == target || (err.Wrapped? && Is(err.cause, target))
  }

}
