/** The small conventional Option type used for lookups that may find nothing. */
module Optional {
  datatype Option<+T> = None | Some(value: T)
}

/**
 * Go's error values as far as the authentication core uses them: a nil error,
 * or an error with a message and the set of sentinel errors reachable through
 * its wrap chain.  `errors.Is(err, target)` is membership of `target` in that set.
 */
module GoErrors {

  /** The sentinel errors of the core: three declared by the auth service and
      three declared by the storage package. */
  datatype Sentinel =
    | InvalidCredentials   // auth.ErrInvalidCredentials
    | InvalidAppId         // auth.ErrInvalidAppId
    | AuthUserExists       // auth.ErrUserExists
    | StorageUserExists    // storage.ErrUserExists
    | StorageUserNotFound  // storage.ErrUserNotFound
    | StorageAppNotFound   // storage.ErrAppNotFound

  datatype GoError = Nil | Error(msg: string, chain: set<Sentinel>)

  /** Go's `(value, error)` result pair; on failure the value is Go's zero value. */
  datatype Ret<T> = Ret(val: T, err: GoError)

  /** The text `Error()` gives for each sentinel.  The storage sentinels live in a
      package that is not part of this model, so their texts are stand-ins. */
  function Text(s: Sentinel): string
  {
    match s
    case InvalidCredentials => "invalid credentials"
    case InvalidAppId => "invalid app id"
    case AuthUserExists => "user already exists"
    case StorageUserExists => "storage: user exists"
    case StorageUserNotFound => "storage: user not found"
    case StorageAppNotFound => "storage: app not found"
  }

  /** The sentinel value itself, as made by `errors.New`. */
  function New(s: Sentinel): (e: GoError)
    ensures e.Error? && e.chain == {s}
  {
    Error(Text(s), {s})
  }

  /** `errors.Is(e, s)`. A nil error matches no sentinel. */
  predicate Is(e: GoError, s: Sentinel)
  {
    e.Error? && s in e.chain
  }

  /** An error coming from outside the core (a database driver, bcrypt, the token
      signer): it carries a message and wraps none of the core's sentinels. */
  function Foreign(msg: string): (e: GoError)
    ensures e.Error? && forall s :: !Is(e, s)
  {
    Error(msg, {})
  }

  /**
   * `fmt.Errorf("%s: %w", op, e)`.  The result is never nil.  When `e` is an
   * error, the result wraps it, so it matches exactly the sentinels `e` matches;
   * when `e` is nil, `%w` has no error operand and the result wraps nothing.
   */
  function Wrap(op: string, e: GoError): (r: GoError)
    ensures r.Error?
    ensures forall s :: Is(r, s) <==> Is(e, s)
    ensures e.Nil? ==> r.chain == {} && r.msg == op + ": %!w(<nil>)"
  {
    match e
    case Nil => Error(op + ": %!w(<nil>)", {})
    case Error(m, c) => Error(op + ": " + m, c)
  }

  /**
   * `fmt.Errorf("%w: %s", op, e)` with a string `op`: the `%w` verb is given a
   * string, so `fmt` reports a bad verb and the result wraps nothing at all,
   * whatever `e` wraps; `e` survives only as text.
   */
  function WrapReversed(op: string, e: GoError): (r: GoError)
    ensures r.Error?
    ensures forall s :: !Is(r, s)
  {
    var tail := match e
      case Nil => "%!s(<nil>)"
      case Error(m, _) => m;
    Error("%!w(string=" + op + "): " + tail, {})
  }
}
