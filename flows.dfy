/**
 * The three layers wired together as the application does it: one storage
 * object serves as user saver, user provider and app provider of the service,
 * and the gRPC adapter sits on the service.  The lemmas follow requests through
 * all three layers.
 */
module Flows {
  import opened Optional
  import opened GoErrors
  import opened Models
  import opened Postgres
  import opened AuthService
  import opened GrpcAuth

  /** The service reading the store's tables as they are now (`auth.New(log,
      storage, storage, storage, tokenTTL)`). */
  function StorageAuth(users: seq<UserRow>, apps: seq<AppRow>, conn: Conn, bc: Bcrypt,
                       newToken: (Models.User, Models.App, int) -> Ret<string>, ttl: int): Auth
  {
    Auth(
      UserProvider((email: string) => SelectUser(users, conn, email), (id: int) => SelectIsAdmin(users, conn, id)),
      AppProvider((id: int) => SelectApp(apps, conn, id)),
      bc, newToken, ttl)
  }

  /** The server over the store's current contents. */
  function Wired(store: Storage, bc: Bcrypt, newToken: (Models.User, Models.App, int) -> Ret<string>,
                 ttl: int, parseAddress: string -> bool): Server
    reads store
  {
    Server(StorageAuth(store.users, store.apps, store.conn, bc, newToken, ttl), parseAddress)
  }

  /** The message of Login's invalid-credentials error, "auth.Login: invalid credentials". */
  const InvalidCredentialsMessage := AuthLoginOp + ": " + Text(InvalidCredentials)

  /** An unknown email gets InvalidArgument "auth.Login: invalid credentials",
      never NotFound. */
  lemma UnknownEmailIsInvalidCredentials(users: seq<UserRow>, apps: seq<AppRow>, bc: Bcrypt,
      newToken: (Models.User, Models.App, int) -> Ret<string>, ttl: int, parseAddress: string -> bool, req: LoginRequest)
    requires ValidateLogin(parseAddress, req).None?
    requires !EmailTaken(users, req.email)
    ensures Server(StorageAuth(users, apps, Up, bc, newToken, ttl), parseAddress).Login(req) ==
      Failed(Status(InvalidArgument, InvalidCredentialsMessage))
  {
    var a := StorageAuth(users, apps, Up, bc, newToken, ttl);
    assert a.usrProvider.user(req.email) == Ret(ZeroUser, New(StorageUserNotFound));
  }

  /** A known email with a password bcrypt rejects gets exactly the same reply
      as an unknown email. */
  lemma WrongPasswordIsInvalidCredentials(users: seq<UserRow>, apps: seq<AppRow>, bc: Bcrypt,
      newToken: (Models.User, Models.App, int) -> Ret<string>, ttl: int, parseAddress: string -> bool,
      req: LoginRequest, i: nat)
    requires ValidateLogin(parseAddress, req).None?
    requires EmailsUnique(users)
    requires i < |users| && users[i].email == req.email
    requires !bc.compare(users[i].passHash, req.password)
    ensures Server(StorageAuth(users, apps, Up, bc, newToken, ttl), parseAddress).Login(req) ==
      Failed(Status(InvalidArgument, InvalidCredentialsMessage))
  {
    var a := StorageAuth(users, apps, Up, bc, newToken, ttl);
    FoundEmailIsOnly(users, req.email, i);
    assert a.usrProvider.user(req.email) == Ret(ScanUser(users[i]), Nil);
  }

  /** An app id with no row (0 too, when no app row has it: the adapter does not reject it)
      fails as Internal: the app lookup's not-found is lost at auth.go:93. */
  lemma UnknownAppIsInternal(users: seq<UserRow>, apps: seq<AppRow>, bc: Bcrypt,
      newToken: (Models.User, Models.App, int) -> Ret<string>, ttl: int, parseAddress: string -> bool,
      req: LoginRequest, i: nat)
    requires ValidateLogin(parseAddress, req).None?
    requires EmailsUnique(users)
    requires i < |users| && users[i].email == req.email
    requires bc.compare(users[i].passHash, req.password)
    requires forall j :: 0 <= j < |apps| ==> apps[j].id != req.appId
    ensures Server(StorageAuth(users, apps, Up, bc, newToken, ttl), parseAddress).Login(req) ==
      Failed(Status(Internal, InternalMessage))
  {
    var a := StorageAuth(users, apps, Up, bc, newToken, ttl);
    FoundEmailIsOnly(users, req.email, i);
    assert a.usrProvider.user(req.email) == Ret(ScanUser(users[i]), Nil);
    assert a.appProvider.app(req.appId).err.Error?;
  }

  /** IsAdmin for an id with no row is NotFound, end to end. */
  lemma UnknownUserIdIsNotFound(users: seq<UserRow>, apps: seq<AppRow>, bc: Bcrypt,
      newToken: (Models.User, Models.App, int) -> Ret<string>, ttl: int, parseAddress: string -> bool, req: IsAdminRequest)
    requires req.userId != 0
    requires forall j :: 0 <= j < |users| ==> users[j].id != req.userId
    ensures Server(StorageAuth(users, apps, Up, bc, newToken, ttl), parseAddress).IsAdmin(req) ==
      Failed(Status(NotFound, "user not found"))
  {
    var a := StorageAuth(users, apps, Up, bc, newToken, ttl);
    assert Is(a.usrProvider.isAdmin(req.userId).err, StorageUserNotFound);
  }

  /** IsAdmin for an existing id answers that row's flag, end to end. */
  lemma KnownUserIdIsAnswered(users: seq<UserRow>, apps: seq<AppRow>, bc: Bcrypt,
      newToken: (Models.User, Models.App, int) -> Ret<string>, ttl: int, parseAddress: string -> bool,
      req: IsAdminRequest, i: nat)
    requires req.userId != 0
    requires IdsIncreasing(users)
    requires i < |users| && users[i].id == req.userId
    ensures Server(StorageAuth(users, apps, Up, bc, newToken, ttl), parseAddress).IsAdmin(req) ==
      Ok(users[i].isAdmin)
  {
    var a := StorageAuth(users, apps, Up, bc, newToken, ttl);
    assert FindId(users, UserRowId, req.userId) == Some(i);
    assert a.usrProvider.isAdmin(req.userId) == Ret(users[i].isAdmin, Nil);
  }

  /**
   * Register then Login: after a registration appended its row, logging in with
   * the same email and password reaches the token minter with the new user and
   * the requested app, and returns the minted token.  The user handed to the
   * minter carries the registered email in `name` and the registered name in
   * `email` (the read path swaps them, and nothing swaps them back).
   */
  lemma {:induction false} LoginAfterRegister(users: seq<UserRow>, apps: seq<AppRow>, bc: Bcrypt,
      newToken: (Models.User, Models.App, int) -> Ret<string>, ttl: int, parseAddress: string -> bool,
      reg: RegisterRequest, salt: Salt, id: int, req: LoginRequest, k: nat)
    requires bc.Sound()
    requires !EmailTaken(users, reg.email)
    requires bc.generate(reg.password, salt).err.Nil?
    requires req.email == reg.email && req.password == reg.password
    requires ValidateLogin(parseAddress, req).None?
    requires k < |apps| && apps[k].id == req.appId && AppIdsUnique(apps)
    ensures var hash := bc.generate(reg.password, salt).val;
      var after := users + [UserRow(id := id, email := reg.email, name := reg.name, passHash := hash, isAdmin := false)];
      var minted := newToken(Models.User(id := id, email := reg.name, name := reg.email, passHash := hash),
                             Models.App(apps[k].id, apps[k].name, apps[k].secret), ttl);
      var r := Server(StorageAuth(after, apps, Up, bc, newToken, ttl), parseAddress).Login(req);
      (minted.err.Nil? ==> r == Ok(minted.val)) && (minted.err.Error? ==> r.Failed?)
  {
    var hash := bc.generate(reg.password, salt).val;
    var row := UserRow(id := id, email := reg.email, name := reg.name, passHash := hash, isAdmin := false);
    var after := users + [row];
    var a := StorageAuth(after, apps, Up, bc, newToken, ttl);
    FindEmailAppend(users, row, req.email);
    assert a.usrProvider.user(req.email) == Ret(ScanUser(row), Nil);
    assert bc.compare(hash, req.password);
    assert FindId(apps, AppRowId, req.appId) == Some(k);
    assert a.appProvider.app(req.appId) == Ret(Models.App(apps[k].id, apps[k].name, apps[k].secret), Nil);
  }

  /**
   * The round trip through the running system: a registration the adapter
   * accepts, followed by a login with the same email and password, returns the
   * token minted for the new user and the requested app.
   */
  method RegisterThenLogin(store: Storage, bc: Bcrypt, newToken: (Models.User, Models.App, int) -> Ret<string>,
      ttl: int, parseAddress: string -> bool, salt: Salt, reg: RegisterRequest, appId: int)
    returns (registered: Reply<int>, login: Reply<string>)
    requires store.Valid() && bc.Sound()
    modifies store
    ensures store.Valid()
    ensures registered.Ok? ==>
      var hash := bc.generate(reg.password, salt).val;
      var minted := newToken(Models.User(id := registered.response, email := reg.name, name := reg.email, passHash := hash),
                             SelectApp(store.apps, Up, appId).val, ttl);
      SelectApp(store.apps, Up, appId).err.Nil? && minted.err.Nil? ==> login == Ok(minted.val)
  {
    var srv := Wired(store, bc, newToken, ttl, parseAddress);
    registered := srv.Register(store, salt, reg);
    var req := LoginRequest(reg.email, reg.password, appId);
    login := Wired(store, bc, newToken, ttl, parseAddress).Login(req);
    if registered.Ok? && SelectApp(store.apps, Up, appId).err.Nil? {
      assert ValidateRegister(parseAddress, reg).None?;
      var k := FindId(store.apps, AppRowId, appId).value;
      LoginAfterRegister(old(store.users), store.apps, bc, newToken, ttl, parseAddress, reg, salt,
        registered.response, req, k);
    }
  }

  /**
   * A second registration with an email already registered is AlreadyExists,
   * adds no row, and the table keeps exactly one row with that email.
   */
  method DuplicateRegistration(store: Storage, bc: Bcrypt, newToken: (Models.User, Models.App, int) -> Ret<string>,
      ttl: int, parseAddress: string -> bool, salt1: Salt, salt2: Salt, first: RegisterRequest, second: RegisterRequest)
    returns (r1: Reply<int>, r2: Reply<int>)
    requires store.Valid() && store.conn.Up?
    requires second.email == first.email
    requires ValidateRegister(parseAddress, second).None?
    requires bc.generate(second.password, salt2).err.Nil?
    modifies store
    ensures store.Valid()
    ensures r1.Ok? ==> r2 == Failed(Status(AlreadyExists, "user already exists"))
    ensures r1.Ok? ==> |store.users| == |old(store.users)| + 1 && store.users[..|old(store.users)|] == old(store.users)
    ensures r1.Ok? ==> CountEmail(store.users, first.email) == 1
  {
    var srv := Wired(store, bc, newToken, ttl, parseAddress);
    r1 := srv.Register(store, salt1, first);
    ghost var afterFirst := store.users;
    r2 := srv.Register(store, salt2, second);
    if r1.Ok? {
      assert EmailTaken(afterFirst, second.email) by {
        assert afterFirst[|afterFirst| - 1].email == first.email;
      }
      UniqueMeansAtMostOne(store.users, first.email);
    }
  }
}
