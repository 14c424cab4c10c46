/**
 * The authentication service: Login, RegisterNewUser and IsAdmin over a user
 * provider, an app provider, bcrypt and the token minter.  The providers and the
 * foreign functions are given as function values, so every property below
 * holds for any implementation of them; RegisterNewUser, the one operation that
 * changes state, saves through the storage object.
 */
module AuthService {
  import opened GoErrors
  import opened Models
  import opened Postgres

  type Salt = nat

  /** The `UserProvider` contract: `User(email)` and `IsAdmin(userId)`. */
  datatype UserProvider = UserProvider(user: string -> Ret<Models.User>, isAdmin: int -> Ret<bool>)

  /** The `AppProvider` contract: `App(appId)`. */
  datatype AppProvider = AppProvider(app: int -> Ret<Models.App>)

  /**
   * bcrypt, left uninterpreted: `generate` is `GenerateFromPassword` (which may
   * fail) with its random salt made an argument, `compare` says whether
   * `CompareHashAndPassword` returns nil.
   */
  datatype Bcrypt = Bcrypt(generate: (string, Salt) -> Ret<Bytes>, compare: (Bytes, string) -> bool)
  {
    /** A hash bcrypt produced for a password verifies against that password. */
    ghost predicate Sound()
    {
      forall p: string, s: Salt :: generate(p, s).err.Nil? ==> compare(generate(p, s).val, p)
    }
  }

  /** A call the service makes to a collaborator while logging in. */
  datatype Call = FetchUser(email: string) | ComparePassword | FetchApp(appId: int) | MintToken

  /** Login's `(token, error)` together with the calls it made, in order. */
  datatype LoginOutcome = LoginOutcome(token: string, err: GoError, calls: seq<Call>)

  const AuthLoginOp := "auth.Login"
  const AuthRegisterOp := "auth.RegisterNewUser"
  const AuthIsAdminOp := "auth.IsAdmin"

  /** The service struct: its fields are set once by `New` and never change.
      `newToken` is `jwt.NewToken(user, app, ttl)`, which may fail. */
  datatype Auth = Auth(
    usrProvider: UserProvider,
    appProvider: AppProvider,
    bcrypt: Bcrypt,
    newToken: (Models.User, Models.App, int) -> Ret<string>,
    tokenTTL: int)
  {
    /** `Auth.Login`; `appID` is an int32 widened to int64, which keeps its value. */
    function Login(email: string, password: string, appID: int): (r: LoginOutcome)
      // the user is looked up first, by the given email
      ensures |r.calls| >= 1 && r.calls[0] == FetchUser(email)
      ensures r.err.Error? ==> r.token == ""
      // an unknown email: invalid credentials, and the not-found sentinel is hidden
      ensures var u := usrProvider.user(email);
        Is(u.err, StorageUserNotFound) ==>
          Is(r.err, InvalidCredentials) && !Is(r.err, StorageUserNotFound) && r.calls == [FetchUser(email)]
      // any other lookup failure: the lookup error is wrapped, nothing more is called
      ensures var u := usrProvider.user(email);
        u.err.Error? && !Is(u.err, StorageUserNotFound) ==>
          r.err.Error? && (forall s :: Is(r.err, s) <==> Is(u.err, s)) && r.calls == [FetchUser(email)]
      // a rejected password: invalid credentials, the app provider and the minter are never called
      ensures var u := usrProvider.user(email);
        u.err.Nil? && !bcrypt.compare(u.val.passHash, password) ==>
          Is(r.err, InvalidCredentials) && r.calls == [FetchUser(email), ComparePassword]
      // the app is looked up, by the given id, only after the password matched
      ensures var u := usrProvider.user(email);
        FetchApp(appID) in r.calls <==> u.err.Nil? && bcrypt.compare(u.val.passHash, password)
      // an app lookup failure wraps the earlier nil error: non-nil, matching no sentinel
      ensures var u := usrProvider.user(email); var a := appProvider.app(appID);
        u.err.Nil? && bcrypt.compare(u.val.passHash, password) && a.err.Error? ==>
          r.err.Error? && (forall s :: !Is(r.err, s)) && MintToken !in r.calls
      // success exactly when every step succeeded; the token is the one minted for
      // the user found by email and the app found by id
      ensures var u := usrProvider.user(email); var a := appProvider.app(appID);
        r.err.Nil? <==>
          u.err.Nil? && bcrypt.compare(u.val.passHash, password) && a.err.Nil? &&
          newToken(u.val, a.val, tokenTTL).err.Nil?
      ensures var u := usrProvider.user(email); var a := appProvider.app(appID);
        r.err.Nil? ==> r.token == newToken(u.val, a.val, tokenTTL).val
    {
      var u := usrProvider.user(email);
      if u.err.Error? then
        if Is(u.err, StorageUserNotFound) then
          LoginOutcome("", Wrap(AuthLoginOp, New(InvalidCredentials)), [FetchUser(email)])
        else
          LoginOutcome("", Wrap(AuthLoginOp, u.err), [FetchUser(email)])
      else if !bcrypt.compare(u.val.passHash, password) then
        LoginOutcome("", Wrap(AuthLoginOp, New(InvalidCredentials)), [FetchUser(email), ComparePassword])
      else
        var a := appProvider.app(appID);
        if a.err.Error? then
          // `Login` wraps `err` (the user lookup's, nil here), not `errr`
          LoginOutcome("", Wrap(AuthLoginOp, u.err), [FetchUser(email), ComparePassword, FetchApp(appID)])
        else
          var t := newToken(u.val, a.val, tokenTTL);
          var calls := [FetchUser(email), ComparePassword, FetchApp(appID), MintToken];
          if t.err.Error? then LoginOutcome("", Wrap(AuthLoginOp, t.err), calls)
          else LoginOutcome(t.val, Nil, calls)
    }

    /** `Auth.IsAdmin`: the provider's answer, or false with its error still in the chain. */
    function IsAdmin(userID: int): (r: Ret<bool>)
      ensures var p := usrProvider.isAdmin(userID);
        p.err.Nil? ==> r.err.Nil? && r.val == p.val
      ensures var p := usrProvider.isAdmin(userID);
        p.err.Error? ==> !r.val && r.err.Error? && forall s :: Is(r.err, s) <==> Is(p.err, s)
    {
      var p := usrProvider.isAdmin(userID);
      if p.err.Error? then Ret(false, Wrap(AuthIsAdminOp, p.err))
      else Ret(p.val, Nil)
    }

    /**
     * `Auth.RegisterNewUser(email, name, password)`: hash, then save through
     * `saver.SaveUser(email, name, hash)`.  Since that insert binds its `name`
     * argument to the email column, the email column receives this method's
     * `name` parameter.
     */
    method RegisterNewUser(saver: Storage, salt: Salt, email: string, name: string, password: string)
      returns (id: int, err: GoError)
      requires saver.Valid()
      modifies saver
      ensures saver.Valid()
      ensures saver.apps == old(saver.apps) && saver.conn == old(saver.conn)
      // a hashing failure: (0, error) and nothing is saved
      ensures var h := bcrypt.generate(password, salt);
        h.err.Error? ==> id == 0 && err.Error? && (forall s :: !Is(err, s)) && unchanged(saver)
      // the store's duplicate signal becomes the service's own sentinel
      ensures var h := bcrypt.generate(password, salt);
        h.err.Nil? && saver.conn.Up? && EmailTaken(old(saver.users), name) ==>
          id == 0 && Is(err, AuthUserExists) && !Is(err, StorageUserExists) && saver.users == old(saver.users)
      // any other save failure: (0, error) wrapping no sentinel
      ensures var h := bcrypt.generate(password, salt);
        h.err.Nil? && saver.conn.Down? ==>
          id == 0 && err.Error? && (forall s :: !Is(err, s)) && saver.users == old(saver.users)
      // success: the saver's id, one new row holding the fresh hash
      ensures var h := bcrypt.generate(password, salt);
        h.err.Nil? && saver.conn.Up? && !EmailTaken(old(saver.users), name) ==>
          err.Nil? && id == old(saver.nextId) &&
          saver.users == old(saver.users) + [UserRow(id := id, email := name, name := email, passHash := h.val, isAdmin := false)]
      ensures err.Nil? <==> id != 0
    {
      var h := bcrypt.generate(password, salt);
      if h.err.Error? {
        return 0, WrapReversed(AuthRegisterOp, h.err);
      }
      var saved, saveErr := saver.SaveUser(email, name, h.val);
      if saveErr.Error? {
        if Is(saveErr, StorageUserExists) {
          return 0, Wrap(AuthRegisterOp, New(AuthUserExists));
        }
        return 0, WrapReversed(AuthRegisterOp, saveErr);
      }
      // int to int64 on a 64-bit platform keeps the value
      return saved, Nil;
    }
  }

  /** A rejected password stops Login before the app lookup: the result is the
      same whatever app provider and token minter the service holds. */
  lemma RejectedPasswordSkipsAppAndMinter(a: Auth, ap: AppProvider, nt: (Models.User, Models.App, int) -> Ret<string>,
      email: string, password: string, appID: int)
    requires a.usrProvider.user(email).err.Nil?
    requires !a.bcrypt.compare(a.usrProvider.user(email).val.passHash, password)
    ensures a.Login(email, password, appID) == a.(appProvider := ap, newToken := nt).Login(email, password, appID)
  {
  }

  /** Anti-enumeration: an unknown email and a wrong password for a known email
      give the caller the same token and exactly the same error. */
  lemma UnknownEmailLooksLikeWrongPassword(a: Auth, unknown: string, known: string, p1: string, p2: string, id1: int, id2: int)
    requires Is(a.usrProvider.user(unknown).err, StorageUserNotFound)
    requires a.usrProvider.user(known).err.Nil?
    requires !a.bcrypt.compare(a.usrProvider.user(known).val.passHash, p2)
    ensures a.Login(unknown, p1, id1).err == a.Login(known, p2, id2).err
    ensures a.Login(unknown, p1, id1).token == a.Login(known, p2, id2).token == ""
  {
  }
}
