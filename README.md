# SSO authentication core: a Dafny model

This project models the authentication core of the `sso` gRPC service. The core has three layers:

- **the gRPC adapter** (`internal/grpc/auth/server.go`). It validates `Login`, `Register` and `IsAdmin` requests, calls the auth service, and maps the service's errors to gRPC status codes.
- **the auth service** (`internal/services/auth/auth.go`). `Login` looks up the user by email, checks the password with bcrypt, looks up the application and mints a token. `RegisterNewUser` hashes the password and saves the user. `IsAdmin` asks the user provider.
- **the PostgreSQL storage adapter** (`internal/storage/postgres/storage.go`). It implements `SaveUser`, `User`, `IsAdmin` and `App` over the `users` and `apps` tables.

Modules, one file each (`goerrors.dfy` also holds the small `Optional` module):

- `Optional` and `GoErrors` (`goerrors.dfy`): Go errors as `Nil | Error(msg, chain)`. `chain` is the set of sentinel errors reachable by unwrapping, so `errors.Is` is set membership.
  - `Wrap` is `fmt.Errorf("%s: %w", op, err)`. It keeps the chain. Wrapping a nil error gives a non-nil error with an empty chain.
  - `WrapReversed` is `fmt.Errorf("%w: %s", op, err)` with a string `op`. It wraps nothing.
  - `Ret<T>` is Go's `(value, error)` pair, with Go's zero value on failure.
- `Models` (`models.dfy`): the `User` and `App` records.
- `Postgres` (`storage.dfy`): the class `Storage` holds the `users` and `apps` tables as sequences of rows, the next value of the `users.id` sequence, and the connection state.
  - `Valid()` states the table invariants: unique emails, increasing ids below the sequence value, unique app ids.
  - `SaveUser` is the INSERT.
  - `User`, `IsAdmin` and `App` are scans over the rows. They model how the database evaluates the `WHERE` clause, and each is proved equal to a pure `Select*` function of the table.
- `AuthService` (`auth.dfy`): the `Auth` struct as a datatype. Its collaborators are function values: the user and app providers, bcrypt (`generate`, `compare`) and `jwt.NewToken`.
  - `Login` and `IsAdmin` are functions. `Login` also returns the sequence of collaborator calls it made, which shows the order of side effects.
  - `RegisterNewUser` is a method that saves through the `Storage` object.
- `GrpcAuth` (`grpc.dfy`): the validators, the three error mappings and the three RPCs. `mail.ParseAddress` is an abstract `parseAddress` predicate.
- `Flows` (`flows.dfy`): the three layers wired over one store, as the application wiring does. It holds end-to-end lemmas and two client methods: register-then-login, and duplicate registration.

The model follows the code as written, including its argument-order quirks:

- The adapter's `Auth` interface declares `RegisterNewUser(name, email, password)`. The service defines `(email, name, password)`. So the request's name reaches the service's `email` parameter.
- `SaveUser` binds its `name` argument to the `email` column. On the gRPC path the two swaps cancel, and the `email` column holds the request's email (`GrpcAuth.Server.Register`).
- `User` scans the `email` column into `Name` and the `name` column into `Email`. A user who registered through gRPC and then logs in is handed to the token minter with `Name` = registered email and `Email` = registered name (`Flows.LoginAfterRegister`).
- When the app lookup fails, `Login` wraps the user lookup's `err`, which is nil at that point, instead of `errr`. The error is non-nil but matches no sentinel, so the gRPC reply is `Internal`.

In one more place the code does less than its names suggest, and the model follows the code:

- `validateLogin` does not check the app id (that check is commented out), so app id 0 reaches the service. When the credentials are right and no app row has id 0, the app lookup fails and the reply is `Internal` (`Flows.UnknownAppIsInternal`).

## Model

| member | source | states |
|---|---|---|
| `GoErrors.New` | internal/services/auth/auth.go:42-46 | a sentinel error is non-nil and matches exactly itself |
| `GoErrors.Foreign` | internal/storage/postgres/storage.go:50-51 | an error from outside the core (driver, bcrypt, signer) is non-nil and matches none of the core's sentinels |
| `GoErrors.Wrap` | internal/services/auth/auth.go:91-94 | `"%s: %w"` is never nil and matches exactly the sentinels of the wrapped error; wrapping nil gives a non-nil error with an empty chain |
| `GoErrors.WrapReversed` | internal/services/auth/auth.go:119-133 | `"%w: %s"` with a string operand is never nil and matches no sentinel, whatever it was given |
| `Postgres.FindEmail` | internal/storage/postgres/storage.go:72 | finds the first row whose email column equals the argument; none exactly when no row has that email |
| `Postgres.FindId` | internal/storage/postgres/storage.go:93-114 | the `WHERE id = $1` lookup of `IsAdmin` (line 93) and `App` (line 114): finds the first row whose id is the given one; none exactly when no row has it |
| `Postgres.SelectUser` | internal/storage/postgres/storage.go:69-88 | no matching row gives the bare `ErrUserNotFound`, unwrapped, with the zero user; a matching row gives its id and hash, with the email column in `Name` and the name column in `Email`; a driver failure matches no sentinel |
| `Postgres.SelectIsAdmin` | internal/storage/postgres/storage.go:90-110 | with the connection up, the lookup succeeds exactly when a row has the id, and otherwise its error wraps `ErrUserNotFound`; on success the answer is that row's `is_admin`; every failure answers false |
| `Postgres.SelectApp` | internal/storage/postgres/storage.go:112-131 | with the connection up, the lookup succeeds exactly when an app row has the id, and otherwise its error wraps `ErrAppNotFound`; on success the app is that row's (id, name, secret); every failure gives the zero app |
| `Postgres.FoundEmailIsOnly` | internal/storage/postgres/storage.go:72-87 | under the unique constraint, the email lookup finds the one row holding that email |
| `Postgres.FindEmailAppend` | internal/storage/postgres/storage.go:45-72 | after inserting a row with a new email, looking up that email finds the new row, and lookups of other emails are unchanged |
| `Postgres.InsertKeepsEmailsUnique` | internal/storage/postgres/storage.go:56-63 | inserting only when the email is not taken preserves the unique constraint |
| `Postgres.UniqueMeansAtMostOne` | internal/storage/postgres/storage.go:56-63 | under the unique constraint, no email is held by more than one row |
| `Postgres.Storage.constructor` | internal/storage/postgres/storage.go:24-39 | a fresh database has no users, the provisioned apps and a working connection, and satisfies the table invariants |
| `Postgres.Storage.SaveUser` | internal/storage/postgres/storage.go:41-67 | binds `name` to the email column and `email` to the name column; a taken email is a 23505 error wrapping `ErrUserExists` with (0, table unchanged); a driver failure gives (0, wrapped error, table unchanged); success appends exactly one row with the generated id and returns that id; the invariants are preserved |
| `Postgres.Storage.User` | internal/storage/postgres/storage.go:69-88 | the scan returns exactly `SelectUser` of the current table and changes nothing |
| `Postgres.Storage.IsAdmin` | internal/storage/postgres/storage.go:90-110 | the scan returns exactly `SelectIsAdmin` of the current table and changes nothing |
| `Postgres.Storage.App` | internal/storage/postgres/storage.go:112-131 | the scan returns exactly `SelectApp` of the current table and changes nothing |
| `AuthService.Auth.Login` | internal/services/auth/auth.go:64-104 | looks the user up first, by email. Not-found becomes `ErrInvalidCredentials` and hides `ErrUserNotFound`. Any other lookup error is wrapped. A rejected password gives `ErrInvalidCredentials` without calling the app provider or the minter. The app is fetched by the given id only after the password matched. An app failure matches no sentinel. Success holds exactly when every step succeeds, and the token is `NewToken(user, app, ttl)`. Every failure returns "" |
| `AuthService.Auth.IsAdmin` | internal/services/auth/auth.go:139-156 | returns the provider's answer on success; on failure returns false with an error matching exactly the provider error's sentinels |
| `AuthService.Auth.RegisterNewUser` | internal/services/auth/auth.go:106-137 | a hashing failure returns (0, error matching no sentinel) with the store untouched; a duplicate becomes `auth.ErrUserExists` and no longer matches `storage.ErrUserExists`; any other save failure matches no sentinel; success returns the saver's id and adds one row whose email column is this method's `name` and whose hash is the fresh one |
| `AuthService.RejectedPasswordSkipsAppAndMinter` | internal/services/auth/auth.go:86-91 | once the user is found and the password rejected, Login's result does not depend on the app provider or the minter |
| `AuthService.UnknownEmailLooksLikeWrongPassword` | internal/services/auth/auth.go:76-89 | an unknown email and a wrong password give identical errors and empty tokens |
| `GrpcAuth.ValidateLogin` | internal/grpc/auth/server.go:103-115 | valid exactly when the email parses and the password is non-empty; an invalid email is reported before an empty password, both as InvalidArgument |
| `GrpcAuth.ValidateRegister` | internal/grpc/auth/server.go:117-130 | valid exactly when the email parses, the name and the password are non-empty; checked in the order email, name, password, first failure wins, each as InvalidArgument |
| `GrpcAuth.ValidateIsAdmin` | internal/grpc/auth/server.go:132-137 | rejects exactly user id 0, as InvalidArgument "invalid user id" |
| `GrpcAuth.LoginReply` | internal/grpc/auth/server.go:52-62 | the reply is OK exactly when there is no error, and then carries the token unchanged; an error wrapping `ErrInvalidCredentials` is InvalidArgument with the service's message; every other error is Internal "internal server error" |
| `GrpcAuth.RegisterReply` | internal/grpc/auth/server.go:70-82 | OK exactly on success, carrying the service's user id; `auth.ErrUserExists` is AlreadyExists; every other error is Internal with the fixed message |
| `GrpcAuth.IsAdminReply` | internal/grpc/auth/server.go:90-100 | OK exactly on success, carrying the service's boolean; `ErrUserNotFound` is NotFound; every other error is Internal with the fixed message |
| `GrpcAuth.Server.Login` | internal/grpc/auth/server.go:46-63 | a failed validation is returned as is; otherwise the reply is OK exactly when the service succeeded, carries its token, and is InvalidArgument exactly for invalid credentials; every other failure is Internal "internal server error" |
| `GrpcAuth.Server.IsAdmin` | internal/grpc/auth/server.go:85-101 | user id 0 is rejected; otherwise the reply is OK exactly when the service succeeded, carries its answer, and is NotFound exactly when the error wraps `ErrUserNotFound`; every other failure is Internal "internal server error" |
| `GrpcAuth.Server.Register` | internal/grpc/auth/server.go:65-83 | a rejected request leaves the store untouched; a taken email is AlreadyExists; a hashing or driver failure, and every other failure after validation, is Internal "internal server error"; the request's name is passed as the service's `email` (the interface at server.go:23-28 declares `(name, email, password)`), so after the storage swap the new row's email column holds the request's email and its name column the request's name |
| `GrpcAuth.RejectedLoginNeverReachesService` | internal/grpc/auth/server.go:49-51 | a Login request that fails validation gets the same reply whatever service is behind the adapter |
| `GrpcAuth.RejectedIsAdminNeverReachesService` | internal/grpc/auth/server.go:86-88 | an IsAdmin request with id 0 gets the same reply whatever service is behind the adapter |
| `GrpcAuth.LoginValidationIgnoresAppId` | internal/grpc/auth/server.go:111-113 | Login validation does not depend on the app id |
| `Flows.UnknownEmailIsInvalidCredentials` | internal/services/auth/auth.go:76-80 | over the store, an unknown email gets InvalidArgument "auth.Login: invalid credentials", never NotFound |
| `Flows.WrongPasswordIsInvalidCredentials` | internal/services/auth/auth.go:86-89 | over the store, a known email with a rejected password gets the very same reply as an unknown email |
| `Flows.UnknownAppIsInternal` | internal/services/auth/auth.go:91-94 | over the store, correct credentials with an app id that has no row give Internal "internal server error" |
| `Flows.UnknownUserIdIsNotFound` | internal/grpc/auth/server.go:90-94 | over the store, IsAdmin for a non-zero id with no row is NotFound "user not found" |
| `Flows.KnownUserIdIsAnswered` | internal/storage/postgres/storage.go:99-109 | over the store, IsAdmin for an existing id replies with that row's flag |
| `Flows.LoginAfterRegister` | internal/storage/postgres/storage.go:55-87 | after a registration appended its row, Login with the same email and password calls the minter with the new user (`Name` = registered email, `Email` = registered name, the stored hash) and the requested app, and returns its token |
| `Flows.RegisterThenLogin` | internal/grpc/auth/server.go:46-83 | an accepted registration followed by a login with the same credentials returns the token minted for the new user and the requested app |
| `Flows.DuplicateRegistration` | internal/storage/postgres/storage.go:56-63 | a second registration with the same email is AlreadyExists, adds no row, and exactly one row holds the email (counted by `CountEmail`) |

## Left out

- Transport: the HTTP handlers (`internal/http/auth/auth-handlers.go`), request decoding and `ListenAndServe` are not part of this model. Neither is the gRPC server setup.
- Process bootstrap is not part of this model: configuration loading, the migrator, logger setup, signal handling and the wiring constructor. `Flows.StorageAuth` only restates the wiring: one store serves as all three collaborators.
- Logging: every log call, including the ones that log the password hash.
- bcrypt and `jwt.NewToken` are uninterpreted function values. Salts, cost, signing, claims and expiry are not modelled, so nothing is proved about token expiry or claims. bcrypt's randomness is an explicit `salt` argument. `Bcrypt.Sound` (a generated hash verifies against its password) is assumed only where a lemma states it as a requirement.
- `mail.ParseAddress` (RFC 5322 section 3.4 address syntax) is the abstract predicate `parseAddress`.
- Database I/O: DSN building, opening and pinging the database, prepared statements, `context` cancellation and connection pooling. So is the prepared statement that `App` never closes. Every driver failure is one `Conn.Down(reason)` state, and an error from it matches no sentinel.
- Concurrent registrations: only the single-threaded effect of the unique constraint on `users.email` is modelled.
- The migration is not part of this model. The model assumes four things: `users.email` is unique, `users.id` comes from a sequence starting at 1 (a rejected insert still uses up a value), `is_admin` defaults to false, and `apps.id` is unique.
- The texts of the storage sentinels come from a package that is not part of this model. The model uses stand-in texts. No property depends on them.
- Go integer widths: `appID` is int32, user ids are int64 and `SaveUser`'s id is Go `int`. The model uses unbounded integers, because every conversion in the core widens.
- The `Auth` struct's logger field is dropped. The user saver is the `Storage` object passed to `RegisterNewUser`, not a field.
- Flows.LoginAfterRegister: when the minter fails, it only states that the reply is a failure. The minter's error is arbitrary, and the reply code depends on which sentinels that error wraps.
