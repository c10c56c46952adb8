/**
 * The database the data managers talk to, as two tables held in maps: users
 * keyed by id and parameter rows keyed by `user_id`. Inserts check the table
 * constraints the schema declares (primary key, unique username and email,
 * the email length, the foreign key and uniqueness of `user_id`, the NOT NULL
 * coordinates) and leave the tables unchanged when one fails, as the
 * request-scoped session rolls back on any error.
 */
module Store {
  import opened Wrappers
  import opened UserModel
  import opened UserParameterModel

  /** An integrity error raised at flush or commit time. */
  datatype DbError =
    | DuplicateKey(column: string)
    | ValueTooLong(column: string)
    | ForeignKeyViolation(column: string)
    | NotNullViolation(column: string)

  /** Whether `u` can join `others` without breaking a constraint on the users table. */
  function UserConflict(others: map<Uuid, User>, u: User): (r: Option<DbError>)
    ensures r.None? <==> (|u.email| <= EMAIL_MAX_LENGTH
      && forall id :: id in others ==> others[id].username != u.username && others[id].email != u.email)
  {
    if |u.email| > EMAIL_MAX_LENGTH then Some(ValueTooLong("email"))
    else if exists id :: id in others && others[id].username == u.username then Some(DuplicateKey("username"))
    else if exists id :: id in others && others[id].email == u.email then Some(DuplicateKey("email"))
    else None
  }

  /** Adding a user that conflicts with no other keeps the users table well formed. */
  lemma InsertKeepsUsersWellFormed(others: map<Uuid, User>, u: User)
    requires UsersWellFormed(others) && u.id !in others && UserConflict(others, u).None?
    ensures UsersWellFormed(others[u.id := u])
  {
  }

  /** Whether `row` can be inserted into the parameter table. */
  function ParameterConflict(users: map<Uuid, User>, parameters: map<Uuid, UserParameter>, row: UserParameter): (r: Option<DbError>)
    ensures r.None? <==> row.userId in users && row.userId !in parameters && Persistable(row)
  {
    if row.preferredLat.None? then Some(NotNullViolation("preferred_lat"))
    else if row.preferredLon.None? then Some(NotNullViolation("preferred_lon"))
    else if row.userId !in users then Some(ForeignKeyViolation("user_id"))
    else if row.userId in parameters then Some(DuplicateKey("user_id"))
    else None
  }

  /** The table constraints, each table on its own and the foreign key between them. */
  ghost predicate TablesConsistent(users: map<Uuid, User>, parameters: map<Uuid, UserParameter>)
  {
    && UsersWellFormed(users)
    && (forall id :: id in parameters ==> parameters[id].userId == id && Persistable(parameters[id]))
    && parameters.Keys <= users.Keys
  }

  class Session {
    var users: map<Uuid, User>
    var parameters: map<Uuid, UserParameter>

    /** The schema's constraints hold. */
    ghost predicate Consistent()
      reads this
    {
      TablesConsistent(users, parameters)
    }

    /** What the account operations keep: also, every user has exactly one parameter row. */
    ghost predicate Valid()
      reads this
    {
      Consistent() && users.Keys == parameters.Keys
    }

    constructor ()
      ensures Valid() && users == map[] && parameters == map[]
    {
      users := map[];
      parameters := map[];
    }

    /** `add_one(user)` followed by `flush()`: the insert happens or the constraint error is raised. */
    method AddUser(u: User) returns (err: Option<DbError>)
      requires Consistent()
      modifies this
      ensures Consistent()
      ensures err == (if u.id in old(users) then Some(DuplicateKey("id")) else UserConflict(old(users), u))
      ensures users == (if err.None? then old(users)[u.id := u] else old(users))
      ensures parameters == old(parameters)
    {
      if u.id in users {
        err := Some(DuplicateKey("id"));
      } else {
        err := UserConflict(users, u);
        if err.None? {
          users := users[u.id := u];
        }
      }
    }

    /** `add_one(row)` for the parameter table. */
    method AddParameterRow(row: UserParameter) returns (err: Option<DbError>)
      requires Consistent()
      modifies this
      ensures Consistent()
      ensures err == ParameterConflict(old(users), old(parameters), row)
      ensures parameters == (if err.None? then old(parameters)[row.userId := row] else old(parameters))
      ensures users == old(users)
    {
      err := ParameterConflict(users, parameters, row);
      if err.None? {
        parameters := parameters[row.userId := row];
      }
    }

    /** Saving changes to a stored user. */
    method SaveUser(u: User) returns (err: Option<DbError>)
      requires Consistent() && u.id in users
      modifies this
      ensures Consistent()
      ensures err == UserConflict(old(users) - {u.id}, u)
      ensures users == (if err.None? then old(users)[u.id := u] else old(users))
      ensures parameters == old(parameters)
    {
      err := UserConflict(users - {u.id}, u);
      if err.None? {
        assert users[u.id := u] == (users - {u.id})[u.id := u];
        InsertKeepsUsersWellFormed(users - {u.id}, u);
        users := users[u.id := u];
      }
    }

    /** Saving changes to a stored parameter row: the commit refuses a null coordinate. */
    method SaveParameterRow(row: UserParameter) returns (err: Option<DbError>)
      requires Consistent() && row.userId in parameters
      modifies this
      ensures Consistent()
      ensures err.None? <==> Persistable(row)
      ensures err.Some? ==> err.value == NotNullViolation(if row.preferredLat.None? then "preferred_lat" else "preferred_lon")
      ensures parameters == (if err.None? then old(parameters)[row.userId := row] else old(parameters))
      ensures users == old(users)
    {
      if row.preferredLat.None? {
        err := Some(NotNullViolation("preferred_lat"));
      } else if row.preferredLon.None? {
        err := Some(NotNullViolation("preferred_lon"));
      } else {
        err := None;
        parameters := parameters[row.userId := row];
      }
    }

    /** `get_user_by_user_name`: the stored user with that username, if any. */
    method GetUserByUserName(userName: string) returns (r: Option<User>)
      requires Consistent()
      ensures r.Some? ==> r.value.id in users && users[r.value.id] == r.value && r.value.username == userName
      ensures r.None? <==> forall id :: id in users ==> users[id].username != userName
    {
      if id :| id in users && users[id].username == userName {
        r := Some(users[id]);
      } else {
        r := None;
      }
    }

    /** `get_user_params_by_user_id`: the row keyed by that user id, if any. */
    method GetParamsByUserId(userId: Uuid) returns (r: Option<UserParameter>)
      requires Consistent()
      ensures r.Some? <==> userId in parameters
      ensures r.Some? ==> r.value == parameters[userId] && r.value.userId == userId
    {
      if userId in parameters {
        r := Some(parameters[userId]);
      } else {
        r := None;
      }
    }
  }

  /** Usernames are unique, so the lookup by username has at most one answer. */
  lemma UsernameDeterminesUser(users: map<Uuid, User>, parameters: map<Uuid, UserParameter>, a: Uuid, b: Uuid)
    requires TablesConsistent(users, parameters)
    requires a in users && b in users && users[a].username == users[b].username
    ensures a == b
  {
  }
}
