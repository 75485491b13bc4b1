/** Go's error values as the auth core uses them: the storage sentinels,
    the service's own ErrInvalidCredentials, opaque errors from collaborators,
    wrapping with fmt.Errorf("%s: %w", op, err), errors.Is and Error(). */
module Errors {

  datatype Option<+T> = None | Some(value: T)

  /** The sentinel error values the core branches on.  The first three are
      declared by the storage package, the last by the auth service. */
  datatype Sentinel =
    | ErrUserExists
    | ErrUserNotFound
    | ErrAppNotFound
    | ErrInvalidCredentials

  /** An error value: a sentinel, an error from a collaborator the core cannot
      inspect (bcrypt, the signer, a broken store back end), or an error
      wrapped with an operation tag by `%w`. */
  datatype Error =
    | Sentinel(kind: Sentinel)
    | Opaque(text: string)
    | Wrapped(op: string, cause: Error)

  datatype Result<+T> = Ok(value: T) | Err(error: Error)

  /** The text each sentinel was created with by errors.New. */
  function SentinelText(k: Sentinel): string {
    match k
    case ErrUserExists => "user already exists"
    case ErrUserNotFound => "not found"
    case ErrAppNotFound => "app not found"
    case ErrInvalidCredentials => "invalid credentials"
  }

  /** err.Error(): the message a wrapped error prints is "op: " followed by
      the message of what it wraps. */
  function Message(e: Error): string {
    match e
    case Sentinel(k) => SentinelText(k)
    case Opaque(t) => t
    case Wrapped(op, c) => op + ": " + Message(c)
  }

  /** errors.Is(e, target): true when target is found on e's unwrap chain. */
  predicate Is(e: Error, target: Sentinel) {
    match e
    case Sentinel(k) => k == target
    case Opaque(_) => false
    case Wrapped(_, c) => Is(c, target)
  }

  /** The innermost error of a wrap chain, what repeated errors.Unwrap reaches. */
  function Root(e: Error): (r: Error)
    ensures !r.Wrapped?
  {
    if e.Wrapped? then Root(e.cause) else e
  }

  /** fmt.Errorf("%s: %w", op, e): the result is recognised by errors.Is as
      exactly what e is recognised as, and its message is prefixed by the tag. */
  function Wrap(op: string, e: Error): (w: Error)
    ensures forall k :: Is(w, k) <==> Is(e, k)
    ensures Message(w) == op + ": " + Message(e)
    ensures Root(w) == Root(e)
  {
    Wrapped(op, e)
  }

  /** Wrapping with a sequence of tags, innermost tag last, as successive
      layers of a call stack do. */
  function WrapAll(ops: seq<string>, e: Error): Error
    decreases |ops|
  {
    if ops == [] then e else Wrap(ops[0], WrapAll(ops[1..], e))
  }

  /** errors.Is on a chain built only from sentinels, opaque errors and `%w`
      asks one question: is the innermost error that sentinel. */
  lemma {:induction false} IsMeansRootIs(e: Error, k: Sentinel)
    ensures Is(e, k) <==> Root(e) == Sentinel(k)
  {
    if e.Wrapped? {
      IsMeansRootIs(e.cause, k);
    }
  }

  /** However many layers wrap an error, errors.Is still sees the same kinds. */
  lemma {:induction false} WrapAllKeepsKind(ops: seq<string>, e: Error, k: Sentinel)
    ensures Is(WrapAll(ops, e), k) <==> Is(e, k)
    decreases |ops|
  {
    if ops != [] {
      WrapAllKeepsKind(ops[1..], e, k);
    }
  }

  /** A sentinel is recognised as itself and as no other sentinel. */
  lemma SentinelsAreDistinct(k: Sentinel, t: Sentinel)
    ensures Is(Sentinel(k), t) <==> k == t
    ensures k != t ==> SentinelText(k) != SentinelText(t)
  {
  }
}
