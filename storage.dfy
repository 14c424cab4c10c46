/**
 * The PostgreSQL storage adapter, with the database replaced by an in-memory
 * `users` table and `apps` table.  Every query the adapter sends is modelled by
 * what the database does with it: the SELECTs become scans over the rows, the
 * INSERT appends a row unless the unique constraint on `users.email` rejects it.
 */
module Postgres {
  import opened Optional
  import opened GoErrors
  import opened Models

  /** A row of `users (id, email, name, pass_hash, is_admin)`. */
  datatype UserRow = UserRow(id: int, email: string, name: string, passHash: Bytes, isAdmin: bool)

  /** A row of `apps (id, name, secret)`, provisioned out of band. */
  datatype AppRow = AppRow(id: int, name: string, secret: string)

  /** The state of the connection: `Down` stands for every failure of the driver
      (prepare, connection, any query error other than the ones the adapter
      inspects), with the driver's message. */
  datatype Conn = Up | Down(reason: string)

  const SaveUserOp := "storage.SaveUser"
  const UserOp := "storage.User"
  const IsAdminOp := "storage.IsAdmin"
  const AppOp := "storage.App"

  /** The error the driver reports when the connection is down. */
  function DriverError(c: Conn): GoError
  {
    match c
    case Up => Nil
    case Down(reason) => Foreign(reason)
  }

  predicate EmailTaken(rows: seq<UserRow>, email: string)
  {
    exists i :: 0 <= i < |rows| && rows[i].email == email
  }

  /** The unique constraint on `users.email` (the migration is not part of this
      model; the constraint is the one the insert's 23505 branch relies on). */
  ghost predicate EmailsUnique(rows: seq<UserRow>)
  {
    forall i, j :: 0 <= i < j < |rows| ==> rows[i].email != rows[j].email
  }

  /** `users.id` is generated by a sequence: ids grow with insertion order. */
  ghost predicate IdsIncreasing(rows: seq<UserRow>)
  {
    forall i, j :: 0 <= i < j < |rows| ==> rows[i].id < rows[j].id
  }

  /** `apps.id` is the primary key of `apps`. */
  ghost predicate AppIdsUnique(rows: seq<AppRow>)
  {
    forall i, j :: 0 <= i < j < |rows| ==> rows[i].id != rows[j].id
  }

  /** The first row whose email column equals `email`. */
  function FindEmail(rows: seq<UserRow>, email: string): (r: Option<nat>)
    ensures r.None? <==> !EmailTaken(rows, email)
    ensures r.Some? ==> r.value < |rows| && rows[r.value].email == email
    ensures r.Some? ==> forall j :: 0 <= j < r.value ==> rows[j].email != email
  {
    if rows == [] then None
    else if rows[0].email == email then Some(0)
    else match FindEmail(rows[1..], email)
      case None => None
      case Some(k) => Some(k + 1)
  }

  /** The first row whose key equals `id`: the lookup `WHERE id = $1` performs on
      `users` and on `apps` alike. */
  function FindId<R>(rows: seq<R>, key: R -> int, id: int): (r: Option<nat>)
    ensures r.None? <==> forall j :: 0 <= j < |rows| ==> key(rows[j]) != id
    ensures r.Some? ==> r.value < |rows| && key(rows[r.value]) == id
    ensures r.Some? ==> forall j :: 0 <= j < r.value ==> key(rows[j]) != id
  {
    if rows == [] then None
    else if key(rows[0]) == id then Some(0)
    else match FindId(rows[1..], key, id)
      case None => None
      case Some(k) => Some(k + 1)
  }

  function UserRowId(row: UserRow): int { row.id }

  function AppRowId(row: AppRow): int { row.id }

  /** `row.Scan(&user.ID, &user.Name, &user.Email, &user.PassHash)` over the
      columns `id, email, name, pass_hash`: the email column lands in `Name`
      and the name column in `Email`. */
  function ScanUser(row: UserRow): User
  {
    User(id := row.id, email := row.name, name := row.email, passHash := row.passHash)
  }

  /** What `Storage.User` returns for a table and a connection state. */
  function SelectUser(rows: seq<UserRow>, conn: Conn, email: string): (r: Ret<User>)
    ensures conn.Down? ==> r.val == ZeroUser && r.err.Error? && forall s :: !Is(r.err, s)
    // no matching row: the bare sentinel, not wrapped
    ensures conn.Up? && !EmailTaken(rows, email) ==> r == Ret(ZeroUser, New(StorageUserNotFound))
    // a matching row: its columns, with email and name exchanged
    ensures conn.Up? && EmailTaken(rows, email) ==>
      r.err.Nil? &&
      (exists i :: 0 <= i < |rows| && rows[i].email == email &&
        r.val.id == rows[i].id && r.val.name == rows[i].email &&
        r.val.email == rows[i].name && r.val.passHash == rows[i].passHash)
  {
    if conn.Down? then Ret(ZeroUser, Wrap(UserOp, DriverError(conn)))
    else match FindEmail(rows, email)
      case None => Ret(ZeroUser, New(StorageUserNotFound))
      case Some(i) => Ret(ScanUser(rows[i]), Nil)
  }

  /** What `Storage.IsAdmin` returns for a table and a connection state. */
  function SelectIsAdmin(rows: seq<UserRow>, conn: Conn, id: int): (r: Ret<bool>)
    ensures r.err.Error? ==> !r.val
    ensures conn.Down? ==> r.err.Error? && forall s :: !Is(r.err, s)
    ensures conn.Up? ==>
      ((forall j :: 0 <= j < |rows| ==> rows[j].id != id) <==> Is(r.err, StorageUserNotFound))
    ensures conn.Up? && (exists j :: 0 <= j < |rows| && rows[j].id == id) ==> r.err.Nil?
    ensures conn.Up? && r.err.Nil? ==> exists j :: 0 <= j < |rows| && rows[j].id == id && r.val == rows[j].isAdmin
  {
    if conn.Down? then Ret(false, Wrap(IsAdminOp, DriverError(conn)))
    else match FindId(rows, UserRowId, id)
      case None => Ret(false, Wrap(IsAdminOp, New(StorageUserNotFound)))
      case Some(i) => Ret(rows[i].isAdmin, Nil)
  }

  /** What `Storage.App` returns for a table and a connection state. */
  function SelectApp(rows: seq<AppRow>, conn: Conn, id: int): (r: Ret<App>)
    ensures r.err.Error? ==> r.val == ZeroApp
    ensures conn.Down? ==> r.err.Error? && forall s :: !Is(r.err, s)
    ensures conn.Up? ==>
      ((forall j :: 0 <= j < |rows| ==> rows[j].id != id) <==> Is(r.err, StorageAppNotFound))
    ensures conn.Up? && (exists j :: 0 <= j < |rows| && rows[j].id == id) ==> r.err.Nil?
    ensures conn.Up? && r.err.Nil? ==>
      exists j :: 0 <= j < |rows| && rows[j].id == id && r.val == App(rows[j].id, rows[j].name, rows[j].secret)
  {
    if conn.Down? then Ret(ZeroApp, Wrap(AppOp, DriverError(conn)))
    else match FindId(rows, AppRowId, id)
      case None => Ret(ZeroApp, Wrap(AppOp, New(StorageAppNotFound)))
      case Some(i) => Ret(App(rows[i].id, rows[i].name, rows[i].secret), Nil)
  }

  /** Under the unique constraint, the row a lookup by email finds is the only
      row with that email. */
  lemma FoundEmailIsOnly(rows: seq<UserRow>, email: string, i: nat)
    requires EmailsUnique(rows)
    requires i < |rows| && rows[i].email == email
    ensures FindEmail(rows, email) == Some(i)
  {
  }

  /** After appending a row whose email is new, a lookup of that email finds the
      appended row and lookups of other emails are unaffected. */
  lemma {:induction false} FindEmailAppend(rows: seq<UserRow>, row: UserRow, email: string)
    requires !EmailTaken(rows, row.email)
    ensures FindEmail(rows + [row], email) ==
      if email == row.email then Some(|rows|) else FindEmail(rows, email)
  {
    if rows != [] {
      assert (rows + [row])[1..] == rows[1..] + [row];
      if rows[0].email != email {
        assert !EmailTaken(rows[1..], row.email) by {
          forall j | 0 <= j < |rows[1..]| ensures rows[1..][j].email != row.email {
            assert rows[1..][j] == rows[j + 1];
          }
        }
        FindEmailAppend(rows[1..], row, email);
      }
    }
  }

  /** Inserting a row whose email is not yet taken keeps the emails unique. */
  lemma InsertKeepsEmailsUnique(rows: seq<UserRow>, row: UserRow)
    requires EmailsUnique(rows) && !EmailTaken(rows, row.email)
    ensures EmailsUnique(rows + [row])
  {
  }

  /** The number of rows whose email column equals `email`. */
  function CountEmail(rows: seq<UserRow>, email: string): (n: nat)
    ensures n <= |rows|
    ensures n == 0 <==> !EmailTaken(rows, email)
  {
    if rows == [] then 0
    else (if rows[0].email == email then 1 else 0) + CountEmail(rows[1..], email)
  }

  /** Under the unique constraint no email occurs in more than one row. */
  lemma {:induction false} UniqueMeansAtMostOne(rows: seq<UserRow>, email: string)
    requires EmailsUnique(rows)
    ensures CountEmail(rows, email) <= 1
  {
    if rows != [] {
      assert EmailsUnique(rows[1..]) by {
        forall i, j | 0 <= i < j < |rows[1..]| ensures rows[1..][i].email != rows[1..][j].email {
          assert rows[1..][i] == rows[i + 1] && rows[1..][j] == rows[j + 1];
        }
      }
      UniqueMeansAtMostOne(rows[1..], email);
      if rows[0].email == email {
        assert !EmailTaken(rows[1..], email) by {
          forall j | 0 <= j < |rows[1..]| ensures rows[1..][j].email != email {
            assert rows[1..][j] == rows[j + 1];
          }
        }
      }
    }
  }

  class Storage {
    var users: seq<UserRow>
    var apps: seq<AppRow>
    /** The next value of the sequence behind `users.id`. */
    var nextId: int
    var conn: Conn

    ghost predicate Valid()
      reads this
    {
      && EmailsUnique(users)
      && IdsIncreasing(users)
      && 0 < nextId
      && (forall i :: 0 <= i < |users| ==> 0 < users[i].id < nextId)
      && AppIdsUnique(apps)
    }

    /** A fresh database: no users, the given applications, a working connection. */
    constructor (apps: seq<AppRow>)
      requires AppIdsUnique(apps)
      ensures Valid()
      ensures this.users == [] && this.apps == apps && nextId == 1 && conn == Up
    {
      this.users := [];
      this.apps := apps;
      this.nextId := 1;
      this.conn := Up;
    }

    /**
     * `INSERT INTO users (email, name, pass_hash) VALUES ($1, $2, $3) RETURNING id`
     * executed with the arguments `(name, email, passHash)`: the parameter `name`
     * is stored in the email column and `email` in the name column.  A unique
     * violation (SQLSTATE 23505) leaves the table as it was, although the id
     * sequence has advanced.
     */
    method SaveUser(email: string, name: string, passHash: Bytes) returns (id: int, err: GoError)
      requires Valid()
      modifies this
      ensures Valid()
      ensures apps == old(apps) && conn == old(conn)
      ensures conn.Down? ==>
        id == 0 && err == Wrap(SaveUserOp, DriverError(conn)) &&
        users == old(users) && nextId == old(nextId)
      ensures conn.Up? && EmailTaken(old(users), name) ==>
        id == 0 && err == Wrap(SaveUserOp, New(StorageUserExists)) &&
        users == old(users) && nextId == old(nextId) + 1
      ensures conn.Up? && !EmailTaken(old(users), name) ==>
        err == Nil && id == old(nextId) && nextId == old(nextId) + 1 &&
        users == old(users) + [UserRow(id := id, email := name, name := email, passHash := passHash, isAdmin := false)]
    {
      if conn.Down? {
        return 0, Wrap(SaveUserOp, DriverError(conn));
      }
      // nextval() is taken before the unique index is checked
      var newId := nextId;
      nextId := nextId + 1;
      if FindEmail(users, name).Some? {
        return 0, Wrap(SaveUserOp, New(StorageUserExists));
      }
      var row := UserRow(id := newId, email := name, name := email, passHash := passHash, isAdmin := false);
      InsertKeepsEmailsUnique(users, row);
      users := users + [row];
      id, err := newId, Nil;
    }

    /** `SELECT id, email, name, pass_hash FROM users WHERE email = $1`. */
    method User(email: string) returns (user: Models.User, err: GoError)
      ensures Ret(user, err) == SelectUser(users, conn, email)
    {
      if conn.Down? {
        return ZeroUser, Wrap(UserOp, DriverError(conn));
      }
      var i := 0;
      while i < |users|
        invariant 0 <= i <= |users|
        invariant forall j :: 0 <= j < i ==> users[j].email != email
      {
        if users[i].email == email {
          return ScanUser(users[i]), Nil;
        }
        i := i + 1;
      }
      return ZeroUser, New(StorageUserNotFound);
    }

    /** `SELECT is_admin FROM users WHERE id = $1`. */
    method IsAdmin(userID: int) returns (isAdmin: bool, err: GoError)
      ensures Ret(isAdmin, err) == SelectIsAdmin(users, conn, userID)
    {
      if conn.Down? {
        return false, Wrap(IsAdminOp, DriverError(conn));
      }
      var i := 0;
      while i < |users|
        invariant 0 <= i <= |users|
        invariant forall j :: 0 <= j < i ==> users[j].id != userID
      {
        if users[i].id == userID {
          return users[i].isAdmin, Nil;
        }
        i := i + 1;
      }
      return false, Wrap(IsAdminOp, New(StorageUserNotFound));
    }

    /** `SELECT id, name, secret FROM apps WHERE id = $1`. */
    method App(appID: int) returns (app: Models.App, err: GoError)
      ensures Ret(app, err) == SelectApp(apps, conn, appID)
    {
      if conn.Down? {
        return ZeroApp, Wrap(AppOp, DriverError(conn));
      }
      var i := 0;
      while i < |apps|
        invariant 0 <= i <= |apps|
        invariant forall j :: 0 <= j < i ==> apps[j].id != appID
      {
        if apps[i].id == appID {
          return Models.App(apps[i].id, apps[i].name, apps[i].secret), Nil;
        }
        i := i + 1;
      }
      return ZeroApp, Wrap(AppOp, New(StorageAppNotFound));
    }
  }
}
