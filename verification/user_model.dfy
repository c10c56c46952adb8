/**
 * The user record and the two closed enumerations of app/models/user_model.py:
 * the account roles and the permission scopes, each with the Python member
 * name and the string value the enum carries.
 */
module UserModel {
  import opened Wrappers
  import PasswordHasher

  /** A UUID is a 128-bit number. */
  const UUID_BOUND: nat := 0x1_0000_0000_0000_0000_0000_0000_0000_0000
  type Uuid = n: nat | n < UUID_BOUND

  /** `CustomRoles`, a `str` enum. */
  datatype Role = Admin | Premium | Basic | Unconfirmed | AnonymousPermanent | Anonymous
  {
    /** The string the enum member stands for. */
    function Value(): string {
      match this
      case Admin => "admin"
      case Premium => "premium"
      case Basic => "basic"
      case Unconfirmed => "unconfirmed"
      case AnonymousPermanent => "anonymous_permanent"
      case Anonymous => "anonymous"
    }
  }

  const AllRoles: seq<Role> := [Admin, Premium, Basic, Unconfirmed, AnonymousPermanent, Anonymous]

  /** Looking a string up among the role values (a `str` enum member compares equal to its value). */
  function RoleFromValue(s: string): (r: Option<Role>)
    ensures r.Some? ==> r.value.Value() == s
    ensures r.None? ==> forall role: Role :: role.Value() != s
  {
    if s == "admin" then Some(Admin)
    else if s == "premium" then Some(Premium)
    else if s == "basic" then Some(Basic)
    else if s == "unconfirmed" then Some(Unconfirmed)
    else if s == "anonymous_permanent" then Some(AnonymousPermanent)
    else if s == "anonymous" then Some(Anonymous)
    else None
  }

  /** `Scope`, a `str` enum: a member name and a value per permission. */
  datatype Scope = ReadUnpaid | WriteUnpaid | ReadPaid | WritePaid | AdminAll
  {
    /** The Python member name (what `Scope.X.name` gives). */
    function Name(): string {
      match this
      case ReadUnpaid => "READ_UNPAID"
      case WriteUnpaid => "WRITE_UNPAID"
      case ReadPaid => "READ_PAID"
      case WritePaid => "WRITE_PAID"
      case AdminAll => "ADMIN"
    }

    /** The enum value (what `Scope.X.value` gives). */
    function Value(): string {
      match this
      case ReadUnpaid => "content_unpaid:read"
      case WriteUnpaid => "content_unpaid:write"
      case ReadPaid => "content_paid:read"
      case WritePaid => "content_paid:write"
      case AdminAll => "admin:all"
    }
  }

  const AllScopes: seq<Scope> := [ReadUnpaid, WriteUnpaid, ReadPaid, WritePaid, AdminAll]

  /** Role is exactly the six members, with six distinct values. */
  lemma RolesClosed()
    ensures forall r: Role :: r in AllRoles
    ensures |AllRoles| == 6
    ensures forall i, j :: 0 <= i < j < |AllRoles| ==> AllRoles[i].Value() != AllRoles[j].Value()
    ensures forall r: Role :: RoleFromValue(r.Value()) == Some(r)
  {
    forall r: Role ensures r in AllRoles {
      match r
      case Admin => case Premium => case Basic =>
      case Unconfirmed => case AnonymousPermanent => case Anonymous =>
    }
  }

  /** Scope is exactly five members; all names and all values are pairwise distinct, and no name is a value. */
  lemma ScopesClosed()
    ensures forall s: Scope :: s in AllScopes
    ensures |AllScopes| == 5
    ensures forall i, j :: 0 <= i < j < |AllScopes| ==>
      AllScopes[i].Name() != AllScopes[j].Name() && AllScopes[i].Value() != AllScopes[j].Value()
    ensures forall s: Scope, t: Scope :: s.Name() != t.Value()
    ensures [ReadUnpaid.Value(), WriteUnpaid.Value(), ReadPaid.Value(), WritePaid.Value(), AdminAll.Value()]
         == ["content_unpaid:read", "content_unpaid:write", "content_paid:read", "content_paid:write", "admin:all"]
  {
    forall s: Scope ensures s in AllScopes {
      match s
      case ReadUnpaid => case WriteUnpaid => case ReadPaid => case WritePaid => case AdminAll =>
    }
  }

  /** Column bound of `email` (`max_length=255`). */
  const EMAIL_MAX_LENGTH: nat := 255

  /**
   * The `User` table row. `requestCount` is not a column of the source record;
   * the anonymous-usage gate reads and increments it, so the model adds it,
   * starting at 0.
   */
  datatype User = User(
    id: Uuid,
    email: string,
    username: string,
    authRole: Role,
    isActive: bool,
    isAnonymous: bool,
    isSuperuser: bool,
    hashedPassword: PasswordHasher.Credential,
    requestCount: nat)

  /** Constructing a `User` as Python does: the fields that are not given take the declared defaults. */
  function NewUser(id: Uuid, email: string, username: string, hashedPassword: PasswordHasher.Credential,
                   authRole: Role := Anonymous, isActive: bool := true,
                   isAnonymous: bool := false, isSuperuser: bool := false): (u: User)
    ensures u.id == id && u.email == email && u.username == username && u.hashedPassword == hashedPassword
    ensures u.authRole == authRole && u.isActive == isActive
    ensures u.isAnonymous == isAnonymous && u.isSuperuser == isSuperuser
    ensures u.requestCount == 0
  {
    User(id, email, username, authRole, isActive, isAnonymous, isSuperuser, hashedPassword, 0)
  }

  /** A user constructed without the optional fields is an active, non-anonymous, non-superuser ANONYMOUS-role account. */
  lemma NewUserDefaults(id: Uuid, email: string, username: string, h: PasswordHasher.Credential)
    ensures var u := NewUser(id, email, username, h);
      u.authRole == Anonymous && u.isActive && !u.isAnonymous && !u.isSuperuser && u.requestCount == 0
  {
  }

  /**
   * The table constraints on the stored users: the key is the row's id,
   * usernames and emails are unique, emails fit the column.
   */
  ghost predicate UsersWellFormed(users: map<Uuid, User>)
  {
    && (forall id :: id in users ==> users[id].id == id && |users[id].email| <= EMAIL_MAX_LENGTH)
    && (forall a, b :: a in users && b in users && a != b ==>
          users[a].username != users[b].username && users[a].email != users[b].email)
  }
}
