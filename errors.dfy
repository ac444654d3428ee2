/**
 * The error values the user store and its service hand to their callers, and the
 * result wrappers that stand for Go's `(value, error)` returns.
 *
 * Go compares these errors with `==` (never `errors.Is`), so a wrapped error is a
 * different value from the sentinel it wraps; `Wrapped` keeps that distinction.
 */
module Errors {

  datatype Error =
    | WrongVersion          // postgresql.ErrWrongVersion: the expected version is not the current one
    | DuplicateUser         // postgresql.ErrDuplicateUser: a uniqueness constraint rejected the write
    | StoreUserNotFound     // postgresql.ErrUserNotFound: no row was returned
    | NoChanges             // services.ErrNoChanges: an update that sets nothing
    | ServiceUserNotFound   // services.ErrUserNotFound: a distinct value from the store's sentinel
    | DriverFailure         // any error raised by the connection pool or the database driver
    | Wrapped(cause: Error, context: string)  // fmt.Errorf("%w <context>", cause)

  datatype Option<+T> = None | Some(value: T)

  /** A Go `(T, error)` return whose value is meaningless when the error is set. */
  datatype Result<+T> = Success(value: T) | Failure(error: Error)
}
