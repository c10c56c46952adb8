/**
 * app/services/user_service.py: looking a user up by username, and creating
 * a user together with that user's parameter row.
 */
module UserService {
  import opened Wrappers
  import opened UserModel
  import opened UserParameterModel
  import AuthService
  import Store
  import UserParameterService

  /** `UserService.get_user`: the stored user with that username, or none. */
  method GetUser(db: Store.Session, username: string) returns (r: Option<User>)
    requires db.Consistent()
    ensures r.Some? <==> exists id :: id in db.users && db.users[id].username == username
    ensures r.Some? ==> r.value.id in db.users && db.users[r.value.id] == r.value && r.value.username == username
  {
    r := db.GetUserByUserName(username);
  }

  /** The record `add_user` builds: no role, anonymity or request count is passed, so those take the defaults. */
  function UserToAdd(id: Uuid, username: string, email: string, password: string, salt: nat): (u: User)
    ensures u.id == id && u.username == username && u.email == email
    ensures AuthService.VerifyArgon2Password(password, u.hashedPassword) == Ok(true)
    ensures u.isActive && !u.isSuperuser && !u.isAnonymous && u.authRole == Anonymous && u.requestCount == 0
  {
    NewUser(id, email, username, AuthService.GetPasswordHash(password, salt), isActive := true, isSuperuser := false)
  }

  /**
   * `UserService.add_user`: adds the user (add and flush), then the one
   * parameter row for the new id, and returns the user it added. `id` is the
   * UUID the model's default factory draws and `salt` the hasher's salt.
   */
  method AddUser(db: Store.Session, username: string, email: string, password: string, id: Uuid, salt: nat)
    returns (r: Result<User, Store.DbError>)
    requires db.Valid()
    modifies db
    ensures db.Valid()
    ensures var u := UserToAdd(id, username, email, password, salt);
      r.Ok? <==> id !in old(db.users) && Store.UserConflict(old(db.users), u).None?
    ensures r.Ok? ==> r.value == UserToAdd(id, username, email, password, salt)
    ensures r.Ok? ==> db.users == old(db.users)[id := r.value]
    ensures r.Ok? ==> db.parameters == old(db.parameters)[id := UserParameterService.DefaultRow(id)]
    ensures r.Err? ==> db.users == old(db.users) && db.parameters == old(db.parameters)
  {
    var userToAdd := UserToAdd(id, username, email, password, salt);
    var err := db.AddUser(userToAdd);
    if err.Some? {
      return Err(err.value);
    }
    var added := UserParameterService.AddParameter(db, userToAdd.id, None);
    assert added == Pass;
    r := Ok(userToAdd);
  }

  /** A fresh username, email and id always register, and the new account is a default-role, non-anonymous user. */
  lemma FreshAccountRegisters(users: map<Uuid, User>, id: Uuid, username: string, email: string, password: string, salt: nat)
    requires id !in users && |email| <= EMAIL_MAX_LENGTH
    requires forall k :: k in users ==> users[k].username != username && users[k].email != email
    ensures Store.UserConflict(users, UserToAdd(id, username, email, password, salt)).None?
  {
  }
}
