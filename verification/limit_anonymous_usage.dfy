/**
 * app/security/limit_anonymous_usage.py: the dependency that lets at most
 * `ANONYMOUS_REQUEST_LIMIT` requests through for an anonymous user, counting
 * them on the user record.
 */
module LimitAnonymousUsage {
  import opened Wrappers
  import opened UserModel
  import Store

  const ANONYMOUS_REQUEST_LIMIT: nat := 50

  /** The 401 "Authentication token required." and the 403 "Usage limit exceeded". */
  datatype GateError = AuthenticationRequired | UsageLimitExceeded

  /**
   * What the gate decides for the current user: an error, or success
   * together with the updated record it saves (none when nothing changes).
   */
  function Gate(currentUser: Option<User>): (r: Result<Option<User>, GateError>)
    ensures r == Err(AuthenticationRequired) <==> currentUser.None?
    ensures r == Err(UsageLimitExceeded) <==>
      currentUser.Some? && currentUser.value.isAnonymous && currentUser.value.requestCount >= ANONYMOUS_REQUEST_LIMIT
    ensures r == Ok(None) <==> currentUser.Some? && !currentUser.value.isAnonymous
    ensures r.Ok? && r.value.Some? ==>
      var u := currentUser.value;
      u.isAnonymous && u.requestCount < ANONYMOUS_REQUEST_LIMIT && r.value.value == u.(requestCount := u.requestCount + 1)
  {
    match currentUser
    case None => Err(AuthenticationRequired)
    case Some(u) =>
      if !u.isAnonymous then Ok(None)
      else if u.requestCount >= ANONYMOUS_REQUEST_LIMIT then Err(UsageLimitExceeded)
      else Ok(Some(u.(requestCount := u.requestCount + 1)))
  }

  /** Anonymous users have used no more than the limit. */
  ghost predicate WithinQuota(users: map<Uuid, User>)
  {
    forall id :: id in users && users[id].isAnonymous ==> users[id].requestCount <= ANONYMOUS_REQUEST_LIMIT
  }

  /**
   * `limit_anonymous_usage`: the current user is the stored record
   * `get_current_user` returned. Only that user's counter can change.
   */
  method LimitAnonymousUsage(db: Store.Session, currentUser: Option<User>) returns (r: Outcome<GateError>)
    requires db.Consistent()
    requires currentUser.Some? ==> currentUser.value.id in db.users && db.users[currentUser.value.id] == currentUser.value
    modifies db
    ensures db.Consistent() && db.parameters == old(db.parameters) && db.users.Keys == old(db.users.Keys)
    ensures r == Pass <==> Gate(currentUser).Ok?
    ensures r.Fail? ==> r.error == Gate(currentUser).error
    ensures db.users == match Gate(currentUser)
      case Ok(Some(saved)) => old(db.users)[saved.id := saved]
      case _ => old(db.users)
    ensures WithinQuota(old(db.users)) ==> WithinQuota(db.users)
  {
    if currentUser.None? {
      return Fail(AuthenticationRequired);
    }
    var user := currentUser.value;
    if user.isAnonymous {
      if user.requestCount >= ANONYMOUS_REQUEST_LIMIT {
        return Fail(UsageLimitExceeded);
      }
      user := user.(requestCount := user.requestCount + 1);
      assert db.users - {user.id} == db.users - {currentUser.value.id};
      var err := db.SaveUser(user);
      assert err.None?;
    }
    r := Pass;
  }

  /** How many of `n` consecutive requests from an anonymous user get through. */
  function Passes(u: User, n: nat): nat
    requires u.isAnonymous
    decreases n
  {
    if n == 0 then 0
    else
      var g := Gate(Some(u));
      if g.Ok? && g.value.Some? then 1 + Passes(g.value.value, n - 1) else Passes(u, n - 1)
  }

  /** From a count within the limit, exactly the remaining allowance of requests get through. */
  lemma {:induction false} PassesCount(u: User, n: nat)
    requires u.isAnonymous && u.requestCount <= ANONYMOUS_REQUEST_LIMIT
    ensures Passes(u, n) == if n <= ANONYMOUS_REQUEST_LIMIT - u.requestCount then n else ANONYMOUS_REQUEST_LIMIT - u.requestCount
    decreases n
  {
    if n > 0 {
      if u.requestCount < ANONYMOUS_REQUEST_LIMIT {
        PassesCount(u.(requestCount := u.requestCount + 1), n - 1);
      } else {
        PassesCount(u, n - 1);
      }
    }
  }

  /** A new anonymous user gets at most 50 requests through, however many it sends. */
  lemma AtMostLimitFromZero(u: User, n: nat)
    requires u.isAnonymous && u.requestCount == 0
    ensures Passes(u, n) <= ANONYMOUS_REQUEST_LIMIT
    ensures n >= ANONYMOUS_REQUEST_LIMIT ==> Passes(u, n) == ANONYMOUS_REQUEST_LIMIT
  {
    PassesCount(u, n);
  }
}
