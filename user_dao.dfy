/**
 * The `users` table and its data-access object: insert that aborts on a
 * duplicate primary key, login by an exact email-and-password match,
 * update by primary key, and the point lookup by email that the contact
 * view-model calls.
 *
 * The table is a map from email to row. The query functions below are the
 * SQL statements' meaning; `UserTable` is the table object whose methods
 * the view-models call.
 */
module UserDao {
  import opened Entities

  type Rows = map<string, User>

  /** Email is the primary key: each row is filed under its own email. */
  ghost predicate KeyedByEmail(rows: Rows)
  {
    forall e :: e in rows ==> rows[e].email == e
  }

  /** `INSERT` with `OnConflictStrategy.ABORT`: `None` when the email is already taken. */
  function InsertAbort(rows: Rows, user: User): (r: Option<Rows>)
    ensures r.None? <==> user.email in rows
    ensures r.Some? ==> r.value.Keys == rows.Keys + {user.email} && r.value[user.email] == user
    ensures r.Some? ==> forall e :: e in rows ==> r.value[e] == rows[e]
    ensures r.Some? && KeyedByEmail(rows) ==> KeyedByEmail(r.value)
  {
    if user.email in rows then None else Some(rows[user.email := user])
  }

  /** `SELECT * FROM users WHERE email = :email AND password = :password`. */
  function SelectByCredentials(rows: Rows, email: string, password: string): (r: Option<User>)
    requires KeyedByEmail(rows)
    ensures r.Some? <==> exists u :: u in rows.Values && u.email == email && u.password == password
    ensures r.Some? ==> r.value in rows.Values && r.value.email == email && r.value.password == password
  {
    if email in rows && rows[email].password == password then
      Some(rows[email])
    else
      assert forall u :: u in rows.Values ==> u == rows[u.email];
      None
  }

  /** The point lookup `getUserByEmail`: the row whose primary key is `email`, if any. */
  function SelectByEmail(rows: Rows, email: string): (r: Option<User>)
    requires KeyedByEmail(rows)
    ensures r.Some? <==> exists u :: u in rows.Values && u.email == email
    ensures r.Some? ==> r.value in rows.Values && r.value.email == email
  {
    if email in rows then
      Some(rows[email])
    else
      assert forall u :: u in rows.Values ==> u == rows[u.email];
      None
  }

  /** `@Update`: overwrite the row whose primary key is `user.email`; no row, no change. */
  function UpdateByKey(rows: Rows, user: User): (r: Rows)
    ensures r.Keys == rows.Keys
    ensures forall e :: e in rows ==> r[e] == (if e == user.email then user else rows[e])
    ensures KeyedByEmail(rows) ==> KeyedByEmail(r)
  {
    if user.email in rows then rows[user.email := user] else rows
  }

  /** Registering the same email twice: the first insert succeeds, the second aborts. */
  lemma InsertTwiceAborts(rows: Rows, first: User, second: User)
    requires first.email !in rows && second.email == first.email
    ensures InsertAbort(rows, first).Some?
    ensures InsertAbort(InsertAbort(rows, first).value, second).None?
  {
  }

  /** A freshly registered user can log in with the password it registered with. */
  lemma InsertThenLogin(rows: Rows, user: User)
    requires KeyedByEmail(rows) && user.email !in rows
    ensures KeyedByEmail(InsertAbort(rows, user).value)
    ensures SelectByCredentials(InsertAbort(rows, user).value, user.email, user.password) == Some(user)
  {
  }

  /**
   * Update then lookup returns the written row, contacts included; for an
   * email with no row the update writes nothing and the lookup finds nothing.
   */
  lemma UpdateThenSelect(rows: Rows, user: User)
    requires KeyedByEmail(rows)
    ensures SelectByEmail(UpdateByKey(rows, user), user.email)
         == if user.email in rows then Some(user) else None
  {
  }

  /** Logging in with a password other than the stored one finds nothing. */
  lemma WrongPasswordFindsNothing(rows: Rows, email: string, password: string)
    requires KeyedByEmail(rows) && email in rows && rows[email].password != password
    ensures SelectByCredentials(rows, email, password) == None
  {
  }

  /** The `users` table as one mutable object. */
  class UserTable {
    var rows: Rows

    ghost predicate Valid()
      reads this
    {
      KeyedByEmail(rows)
    }

    constructor ()
      ensures Valid() && rows == map[]
    {
      rows := map[];
    }

    /** `registerUser`: `ok` is false when the insert aborted, and then nothing changed. */
    method RegisterUser(user: User) returns (ok: bool)
      requires Valid()
      modifies this
      ensures Valid()
      ensures ok <==> user.email !in old(rows)
      ensures InsertAbort(old(rows), user) == (if ok then Some(rows) else None)
      ensures !ok ==> rows == old(rows)
    {
      var inserted := InsertAbort(rows, user);
      if inserted.Some? {
        rows := inserted.value;
        ok := true;
      } else {
        ok := false;
      }
    }

    /** `login`: the row with this email and password, or none; the table is only read. */
    method Login(email: string, password: string) returns (user: Option<User>)
      requires Valid()
      ensures user == SelectByCredentials(rows, email, password)
      ensures user.Some? <==> email in rows && rows[email].password == password
    {
      user := SelectByCredentials(rows, email, password);
    }

    /** `getUserByEmail`: the row whose key is `email`, or none. */
    method GetUserByEmail(email: string) returns (user: Option<User>)
      requires Valid()
      ensures user == SelectByEmail(rows, email)
      ensures user.Some? <==> email in rows
      ensures user.Some? ==> user.value == rows[email]
    {
      user := SelectByEmail(rows, email);
    }

    /** `updateUser`: overwrite the row keyed by `user.email`, if there is one. */
    method UpdateUser(user: User)
      requires Valid()
      modifies this
      ensures Valid()
      ensures rows == UpdateByKey(old(rows), user)
    {
      rows := UpdateByKey(rows, user);
    }
  }
}
