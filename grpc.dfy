/**
 * The gRPC adapter: request validation, which runs before the service, and the
 * mapping from service errors to gRPC status codes.
 */
module GrpcAuth {
  import opened Optional
  import opened GoErrors
  import opened Postgres
  import opened AuthService

  /** The gRPC status codes the adapter produces. */
  datatype Code = InvalidArgument | AlreadyExists | NotFound | Internal

  datatype Status = Status(code: Code, message: string)

  /** A response message, or the status error returned instead of it. */
  datatype Reply<T> = Ok(response: T) | Failed(status: Status)

  datatype LoginRequest = LoginRequest(email: string, password: string, appId: int)
  datatype RegisterRequest = RegisterRequest(email: string, password: string, name: string)
  datatype IsAdminRequest = IsAdminRequest(userId: int)

  const InternalMessage := "internal server error"
  const EmptyValue := 0

  /** `validateLogin`: the email is checked before the password; the app id is not
      checked.  `parseAddress` says whether `mail.ParseAddress` accepts the text. */
  function ValidateLogin(parseAddress: string -> bool, req: LoginRequest): (r: Option<Status>)
    ensures r.None? <==> parseAddress(req.email) && req.password != ""
    ensures r.Some? ==> r.value.code == InvalidArgument
    ensures !parseAddress(req.email) ==> r == Some(Status(InvalidArgument, "invalid email"))
    ensures parseAddress(req.email) && req.password == "" ==> r == Some(Status(InvalidArgument, "invalid password"))
  {
    if !parseAddress(req.email) then Some(Status(InvalidArgument, "invalid email"))
    else if req.password == "" then Some(Status(InvalidArgument, "invalid password"))
    else None
  }

  /** `validateRegister`: email, then name, then password; the first failure wins. */
  function ValidateRegister(parseAddress: string -> bool, req: RegisterRequest): (r: Option<Status>)
    ensures r.None? <==> parseAddress(req.email) && req.name != "" && req.password != ""
    ensures r.Some? ==> r.value.code == InvalidArgument
    ensures !parseAddress(req.email) ==> r == Some(Status(InvalidArgument, "invalid email"))
    ensures parseAddress(req.email) && req.name == "" ==> r == Some(Status(InvalidArgument, "invalid name"))
    ensures parseAddress(req.email) && req.name != "" && req.password == "" ==>
      r == Some(Status(InvalidArgument, "invalid password"))
  {
    if !parseAddress(req.email) then Some(Status(InvalidArgument, "invalid email"))
    else if req.name == "" then Some(Status(InvalidArgument, "invalid name"))
    else if req.password == "" then Some(Status(InvalidArgument, "invalid password"))
    else None
  }

  /** `validateIsAdmin`: rejects exactly the user id 0. */
  function ValidateIsAdmin(req: IsAdminRequest): (r: Option<Status>)
    ensures r.Some? <==> req.userId == 0
    ensures r.Some? ==> r.value == Status(InvalidArgument, "invalid user id")
  {
    if req.userId == EmptyValue then Some(Status(InvalidArgument, "invalid user id")) else None
  }

  /** The error mapping of `serverAPI.Login`. */
  function LoginReply(token: string, err: GoError): (r: Reply<string>)
    ensures r.Ok? <==> err.Nil?
    ensures r.Ok? ==> r.response == token
    ensures r.Failed? ==> r.status.code in {InvalidArgument, Internal}
    ensures r.Failed? ==> (r.status.code == InvalidArgument <==> Is(err, InvalidCredentials))
    // invalid credentials carry the service's message; everything else a fixed one
    ensures r.Failed? && r.status.code == InvalidArgument ==> r.status.message == err.msg
    ensures r.Failed? && r.status.code == Internal ==> r.status.message == InternalMessage
  {
    if err.Nil? then Ok(token)
    else if Is(err, InvalidCredentials) then Failed(Status(InvalidArgument, err.msg))
    else Failed(Status(Internal, InternalMessage))
  }

  /** The error mapping of `serverAPI.Register`. */
  function RegisterReply(userID: int, err: GoError): (r: Reply<int>)
    ensures r.Ok? <==> err.Nil?
    ensures r.Ok? ==> r.response == userID
    ensures r.Failed? ==> r.status.code in {AlreadyExists, Internal}
    ensures r.Failed? ==> (r.status.code == AlreadyExists <==> Is(err, AuthUserExists))
    ensures r.Failed? && r.status.code == AlreadyExists ==> r.status.message == "user already exists"
    ensures r.Failed? && r.status.code == Internal ==> r.status.message == InternalMessage
  {
    if err.Nil? then Ok(userID)
    else if Is(err, AuthUserExists) then Failed(Status(AlreadyExists, "user already exists"))
    else Failed(Status(Internal, InternalMessage))
  }

  /** The error mapping of `serverAPI.IsAdmin`. */
  function IsAdminReply(isAdmin: bool, err: GoError): (r: Reply<bool>)
    ensures r.Ok? <==> err.Nil?
    ensures r.Ok? ==> r.response == isAdmin
    ensures r.Failed? ==> r.status.code in {NotFound, Internal}
    ensures r.Failed? ==> (r.status.code == NotFound <==> Is(err, StorageUserNotFound))
    ensures r.Failed? && r.status.code == NotFound ==> r.status.message == "user not found"
    ensures r.Failed? && r.status.code == Internal ==> r.status.message == InternalMessage
  {
    if err.Nil? then Ok(isAdmin)
    else if Is(err, StorageUserNotFound) then Failed(Status(NotFound, "user not found"))
    else Failed(Status(Internal, InternalMessage))
  }

  /** `serverAPI`: the service behind it, and `mail.ParseAddress` left abstract. */
  datatype Server = Server(auth: Auth, parseAddress: string -> bool)
  {
    /** `serverAPI.Login`. */
    function Login(req: LoginRequest): (r: Reply<string>)
      ensures ValidateLogin(parseAddress, req).Some? ==> r == Failed(ValidateLogin(parseAddress, req).value)
      ensures var o := auth.Login(req.email, req.password, req.appId);
        ValidateLogin(parseAddress, req).None? ==>
          (r.Ok? <==> o.err.Nil?) && (r.Ok? ==> r.response == o.token) &&
          (r.Failed? ==> (r.status.code == InvalidArgument <==> Is(o.err, InvalidCredentials)))
      // every other failure after validation is Internal with the fixed message
      ensures ValidateLogin(parseAddress, req).None? && r.Failed? && r.status.code != InvalidArgument ==>
        r.status == Status(Internal, InternalMessage)
    {
      match ValidateLogin(parseAddress, req)
      case Some(st) => Failed(st)
      case None =>
        var o := auth.Login(req.email, req.password, req.appId);
        LoginReply(o.token, o.err)
    }

    /** `serverAPI.IsAdmin`. */
    function IsAdmin(req: IsAdminRequest): (r: Reply<bool>)
      ensures req.userId == 0 ==> r == Failed(Status(InvalidArgument, "invalid user id"))
      ensures var o := auth.IsAdmin(req.userId);
        req.userId != 0 ==>
          (r.Ok? <==> o.err.Nil?) && (r.Ok? ==> r.response == o.val) &&
          (r.Failed? ==> (r.status.code == NotFound <==> Is(o.err, StorageUserNotFound)))
      ensures req.userId != 0 && r.Failed? && r.status.code != NotFound ==>
        r.status == Status(Internal, InternalMessage)
    {
      match ValidateIsAdmin(req)
      case Some(st) => Failed(st)
      case None =>
        var o := auth.IsAdmin(req.userId);
        IsAdminReply(o.val, o.err)
    }

    /**
     * `serverAPI.Register`.  The adapter's `Auth` interface declares
     * `RegisterNewUser(name, email, password)` while the service defines
     * `RegisterNewUser(email, name, password)`; the call passes the request's
     * name first, so the name binds to the service's `email` parameter.  The
     * storage insert swaps the two again, so the email column gets the
     * request's email.
     */
    method Register(saver: Storage, salt: Salt, req: RegisterRequest) returns (reply: Reply<int>)
      requires saver.Valid()
      modifies saver
      ensures saver.Valid()
      ensures saver.apps == old(saver.apps) && saver.conn == old(saver.conn)
      // a rejected request never reaches the service
      ensures ValidateRegister(parseAddress, req).Some? ==>
        reply == Failed(ValidateRegister(parseAddress, req).value) && unchanged(saver)
      ensures reply.Failed? ==> saver.users == old(saver.users)
      ensures reply.Failed? ==> reply.status.code in {InvalidArgument, AlreadyExists, Internal}
      // a duplicate email is reported as AlreadyExists
      ensures (ValidateRegister(parseAddress, req).None? && auth.bcrypt.generate(req.password, salt).err.Nil? &&
               saver.conn.Up? && EmailTaken(old(saver.users), req.email)) ==>
          reply == Failed(Status(AlreadyExists, "user already exists"))
      ensures (ValidateRegister(parseAddress, req).None? && auth.bcrypt.generate(req.password, salt).err.Nil? &&
               saver.conn.Up? && !EmailTaken(old(saver.users), req.email)) ==> reply.Ok?
      // a hashing or driver failure is Internal with the fixed message
      ensures (ValidateRegister(parseAddress, req).None? &&
               (auth.bcrypt.generate(req.password, salt).err.Error? || saver.conn.Down?)) ==>
          reply == Failed(Status(Internal, InternalMessage))
      ensures ValidateRegister(parseAddress, req).None? && reply.Failed? && reply.status.code != AlreadyExists ==>
        reply.status == Status(Internal, InternalMessage)
      ensures reply.Ok? ==>
        ValidateRegister(parseAddress, req).None? && auth.bcrypt.generate(req.password, salt).err.Nil? && saver.conn.Up?
      // success: one new row; the two swaps cancel, so its email column is the request's email
      ensures reply.Ok? ==>
        reply.response == old(saver.nextId) && !EmailTaken(old(saver.users), req.email) &&
        saver.users == old(saver.users) + [UserRow(id := reply.response, email := req.email, name := req.name,
          passHash := auth.bcrypt.generate(req.password, salt).val, isAdmin := false)]
    {
      var invalid := ValidateRegister(parseAddress, req);
      if invalid.Some? {
        return Failed(invalid.value);
      }
      // arguments in the interface's declared order (name, email, password)
      var userID, err := auth.RegisterNewUser(saver, salt, req.name, req.email, req.password);
      reply := RegisterReply(userID, err);
    }
  }

  /** A request that fails validation gets the same reply whatever service sits
      behind the adapter: the service is never consulted. */
  lemma RejectedLoginNeverReachesService(a1: Auth, a2: Auth, parseAddress: string -> bool, req: LoginRequest)
    requires ValidateLogin(parseAddress, req).Some?
    ensures Server(a1, parseAddress).Login(req) == Server(a2, parseAddress).Login(req)
  {
  }

  lemma RejectedIsAdminNeverReachesService(a1: Auth, a2: Auth, parseAddress: string -> bool, req: IsAdminRequest)
    requires req.userId == 0
    ensures Server(a1, parseAddress).IsAdmin(req) == Server(a2, parseAddress).IsAdmin(req)
  {
  }

  /** `validateLogin` does not look at the app id. */
  lemma LoginValidationIgnoresAppId(parseAddress: string -> bool, req: LoginRequest, appId: int)
    ensures ValidateLogin(parseAddress, req) == ValidateLogin(parseAddress, req.(appId := appId))
  {
  }
}
