/**
 * app/security/token_master.py: a second token module with its own fixed key
 * and algorithm, a 15-minute default expiry, and the `get_current_user`
 * dependency that resolves a bearer token to a stored user by id.
 */
module TokenMaster {
  import opened Wrappers
  import opened UserModel
  import Jwt
  import UuidText

  const SECRET_KEY: string := "your-super-secret-key"
  const ALGORITHM: string := "HS256"
  /** Declared as 30 days, but `create_access_token` does not read it. */
  const ACCESS_TOKEN_EXPIRE_MINUTES: int := 60 * 24 * 30
  /** The expiry `create_access_token` falls back to. */
  const DEFAULT_EXPIRE_MINUTES: int := 15

  /** The `TokenData` model: only `sub` is ever filled in, so `scopes` keeps its default. */
  datatype TokenData = TokenData(sub: string, scopes: seq<string>)

  /**
   * `create_access_token`: `data` with `exp` set to `now` plus the delta when
   * the delta is given and non-zero, and `now` plus 15 minutes otherwise.
   * python-jose still accepts the token at the second `exp` itself.
   */
  function CreateAccessToken(data: Jwt.Claims, expiresDelta: Option<int>, now: int): (token: Jwt.Token)
    ensures var exp := if expiresDelta.Some? && expiresDelta.value != 0 then now + expiresDelta.value
                       else now + 60 * DEFAULT_EXPIRE_MINUTES;
      forall at: int :: Jwt.Decode(Jwt.PythonJose, token, SECRET_KEY, ALGORITHM, at)
        == if at <= exp then Ok(data["exp" := Jwt.NumericDate(exp)]) else Err(Jwt.Expired)
  {
    var expire := if expiresDelta.Some? && expiresDelta.value != 0 then now + expiresDelta.value
                  else now + 60 * DEFAULT_EXPIRE_MINUTES;
    Jwt.Encode(data["exp" := Jwt.NumericDate(expire)], SECRET_KEY, ALGORITHM)
  }

  /** Without a delta a token lives 15 minutes: it is refused once they have passed, long before the 30-day constant would end it. */
  lemma DefaultExpiryIsFifteenMinutes(data: Jwt.Claims, now: int, at: int)
    ensures var token := CreateAccessToken(data, None, now);
      && (at <= now + 900 ==> Jwt.Decode(Jwt.PythonJose, token, SECRET_KEY, ALGORITHM, at).Ok?)
      && (at > now + 900 ==> Jwt.Decode(Jwt.PythonJose, token, SECRET_KEY, ALGORITHM, at) == Err(Jwt.Expired))
    ensures 900 < 60 * ACCESS_TOKEN_EXPIRE_MINUTES
  {
  }

  /** Why `get_current_user` refuses: the 401 credentials exception, or the `ValueError` of `uuid.UUID`. */
  datatype CurrentUserError = CredentialsException | InvalidUuid

  /**
   * The `try` block: python-jose's decode (which also rejects a `sub` that is
   * not a string), then the 401 for a missing `sub`.
   */
  function ReadTokenData(token: Jwt.Token, now: int): (r: Result<TokenData, CurrentUserError>)
    ensures r.Ok? <==> (var d := Jwt.Decode(Jwt.PythonJose, token, SECRET_KEY, ALGORITHM, now);
      d.Ok? && "sub" in d.value && d.value["sub"].Text?)
    ensures r.Ok? ==> r.value.sub == Jwt.Decode(Jwt.PythonJose, token, SECRET_KEY, ALGORITHM, now).value["sub"].text
    ensures r.Ok? ==> r.value.scopes == []
    ensures r.Err? ==> r.error == CredentialsException
  {
    match Jwt.Decode(Jwt.PythonJose, token, SECRET_KEY, ALGORITHM, now)
    case Err(_) => Err(CredentialsException)
    case Ok(payload) =>
      if "sub" in payload && !payload["sub"].Text? then Err(CredentialsException)
      else if "sub" !in payload then Err(CredentialsException)
      else Ok(TokenData(payload["sub"].text, []))
  }

  /**
   * `get_current_user`: no bearer credentials give no user; otherwise the
   * token must decode with a `sub` that reads as a UUID naming a stored user.
   */
  function GetCurrentUser(credentials: Option<Jwt.Token>, users: map<Uuid, User>, now: int): (r: Result<Option<User>, CurrentUserError>)
    ensures r == Ok(None) <==> credentials.None?
    ensures credentials.Some? && ReadTokenData(credentials.value, now).Err? ==> r == Err(CredentialsException)
    ensures (credentials.Some? && ReadTokenData(credentials.value, now).Ok?
             && UuidText.Parse(ReadTokenData(credentials.value, now).value.sub).None?)
      ==> r == Err(InvalidUuid)
    ensures forall id: Uuid ::
      (credentials.Some? && ReadTokenData(credentials.value, now).Ok?
       && UuidText.Parse(ReadTokenData(credentials.value, now).value.sub) == Some(id))
      ==> r == (if id in users then Ok(Some(users[id])) else Err(CredentialsException))
    ensures r.Ok? && r.value.Some? ==> exists id :: id in users && r.value.value == users[id]
    ensures r.Ok? && r.value.Some? ==>
      var data := ReadTokenData(credentials.value, now);
      data.Ok? && UuidText.Parse(data.value.sub).Some? && UuidText.Parse(data.value.sub).value in users
      && r.value.value == users[UuidText.Parse(data.value.sub).value]
  {
    match credentials
    case None => Ok(None)
    case Some(token) =>
      match ReadTokenData(token, now)
      case Err(e) => Err(e)
      case Ok(data) =>
        match UuidText.Parse(data.sub)
        case None => Err(InvalidUuid)
        case Some(id) => if id !in users then Err(CredentialsException) else Ok(Some(users[id]))
  }

  /** A token whose `sub` is the text of a stored user's id resolves to that user up to its expiry second, and is refused after. */
  lemma TokenForStoredUserResolves(user: User, users: map<Uuid, User>, expiresDelta: Option<int>, now: int, at: int)
    requires user.id in users && users[user.id] == user
    ensures var exp := if expiresDelta.Some? && expiresDelta.value != 0 then now + expiresDelta.value
                       else now + 60 * DEFAULT_EXPIRE_MINUTES;
      var token := CreateAccessToken(map["sub" := Jwt.Text(UuidText.Str(user.id))], expiresDelta, now);
      GetCurrentUser(Some(token), users, at) == if at <= exp then Ok(Some(user)) else Err(CredentialsException)
  {
    UuidText.ParseStr(user.id);
  }

  /** A token whose `sub` names no stored user is refused with the 401. */
  lemma UnknownUserRefused(token: Jwt.Token, users: map<Uuid, User>, now: int, id: Uuid)
    requires ReadTokenData(token, now).Ok? && UuidText.Parse(ReadTokenData(token, now).value.sub) == Some(id)
    requires id !in users
    ensures GetCurrentUser(Some(token), users, now) == Err(CredentialsException)
  {
  }

  /** The `scopes` claim plays no part: two tokens that differ only there resolve alike. */
  lemma ScopesIgnored(claims: Jwt.Claims, scopesA: Jwt.Claim, scopesB: Jwt.Claim, key: string, algorithm: string,
                      users: map<Uuid, User>, now: int)
    ensures GetCurrentUser(Some(Jwt.Encode(claims["scopes" := scopesA], key, algorithm)), users, now)
         == GetCurrentUser(Some(Jwt.Encode(claims["scopes" := scopesB], key, algorithm)), users, now)
  {
    var a, b := claims["scopes" := scopesA], claims["scopes" := scopesB];
    assert ("sub" in a <==> "sub" in b) && ("sub" in a ==> a["sub"] == b["sub"]);
    assert ("exp" in a <==> "exp" in b) && ("exp" in a ==> a["exp"] == b["exp"]);
  }
}
