/** Error chains, and which of them a task is retried after. */
module Errors {
  import opened Tables

  datatype ErrorKind = Transient | Permanent

  /** An error and what it wraps: with `%w`, or as the cause of a `JobError`. */
  datatype Error = Opaque | Wrapped(cause: Error) | JobError(kind: ErrorKind, because: Option<Error>)

  /** `errors.As` finds the first `JobError`; unknown errors count as transient. */
  predicate IsTransient(err: Error) {
    match err
    case Opaque => true
    case Wrapped(cause) => IsTransient(cause)
    case JobError(kind, _) => kind == Transient
  }

  function Unwrap(err: Error): Option<Error> {
    match err
    case Opaque => None
    case Wrapped(cause) => Some(cause)
    case JobError(_, because) => because
  }

  /** The error that is left after unwrapping `n` times. */
  function Layer(err: Error, n: nat): Option<Error> {
    if n == 0 then Some(err)
    else
      match Unwrap(err)
      case None => None
      case Some(cause) => Layer(cause, n - 1)
  }

  predicate IsJobError(err: Option<Error>) {
    err.Some? && err.value.JobError?
  }

  /** A layer is a `JobError` that is permanent, and no layer before it is a `JobError`. */
  ghost predicate Refuses(err: Error) {
    exists n: nat :: RefusesAt(err, n)
  }

  ghost predicate RefusesAt(err: Error, n: nat) {
    && IsJobError(Layer(err, n)) && Layer(err, n).value.kind == Permanent
    && forall m :: 0 <= m < n ==> !IsJobError(Layer(err, m))
  }

  /** An error is transient unless its first `JobError`, if it has any, is permanent. */
  lemma {:induction false} TransientUnlessRefused(err: Error)
    ensures IsTransient(err) <==> !Refuses(err)
  {
    match err
    case Opaque =>
      assert forall n: nat :: !IsJobError(Layer(err, n));
    case Wrapped(cause) =>
      TransientUnlessRefused(cause);
      forall n: nat ensures Layer(err, n + 1) == Layer(cause, n) {}
      if n: nat :| RefusesAt(cause, n) {
        forall m | 0 <= m < n + 1 ensures !IsJobError(Layer(err, m)) {
          if m > 0 { assert Layer(err, m) == Layer(cause, m - 1); }
        }
        assert RefusesAt(err, n + 1);
      }
      if n: nat :| RefusesAt(err, n) {
        assert n > 0;
        forall m | 0 <= m < n - 1 ensures !IsJobError(Layer(cause, m)) { assert Layer(err, m + 1) == Layer(cause, m); }
        assert RefusesAt(cause, n - 1);
      }
    case JobError(kind, _) =>
      assert Layer(err, 0) == Some(err);
      if kind == Permanent { assert RefusesAt(err, 0); }
      assert forall n: nat :: RefusesAt(err, n) ==> n == 0;
  }

  /** In particular an error without any `JobError`, such as every error of `process`, is. */
  lemma UnknownIsTransient(err: Error)
    requires forall n: nat :: !IsJobError(Layer(err, n))
    ensures IsTransient(err)
  {
    TransientUnlessRefused(err);
  }
}
