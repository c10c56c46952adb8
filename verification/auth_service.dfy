/**
 * app/services/auth_service.py: the role-to-scope table, password
 * verification, access-token creation for a user, login and token decoding.
 */
module AuthService {
  import opened Wrappers
  import opened UserModel
  import PasswordHasher
  import Jwt
  import PyStr

  /** The configuration values these operations read. */
  datatype Settings = Settings(secretKey: string, jwtAlgorithm: string, accessTokenExpireMinutes: int)

  /** The `Token` response model. */
  datatype Token = Token(accessToken: Jwt.Token, tokenType: string)

  /** The `TokenPayload` model. */
  datatype TokenPayload = TokenPayload(sub: string, scopes: seq<string>)

  const BEARER: string := "bearer"

  /** The literal `scopes` dictionary, as enum members. */
  function ScopeTable(role: Role): seq<Scope>
  {
    match role
    case Admin => [ReadUnpaid, WriteUnpaid, ReadPaid, WritePaid, AdminAll]
    case Premium => [ReadUnpaid, WriteUnpaid, ReadPaid, WritePaid]
    case Basic => [ReadUnpaid, WriteUnpaid]
    case Unconfirmed => [ReadUnpaid]
    case AnonymousPermanent => [ReadUnpaid]
    case Anonymous => [ReadPaid]
  }

  /** The table stores member names (`Scope.X.name`), not the scope values. */
  function Names(scopes: seq<Scope>): (names: seq<string>)
    ensures |names| == |scopes|
    ensures forall i :: 0 <= i < |scopes| ==> names[i] == scopes[i].Name()
  {
    if scopes == [] then [] else [scopes[0].Name()] + Names(scopes[1..])
  }

  /** `get_scopes_for_role`: `scopes.get(role, [])`, keyed by the role's string value. */
  function GetScopesForRole(role: string): (names: seq<string>)
    ensures (forall r: Role :: r.Value() != role) ==> names == []
    ensures forall r: Role :: r.Value() == role ==> names == Names(ScopeTable(r))
  {
    match RoleFromValue(role)
    case None => []
    case Some(r) => Names(ScopeTable(r))
  }

  /** Each role gets exactly the literal list of scope names. */
  lemma ScopeTableLiteral()
    ensures GetScopesForRole("admin") == ["READ_UNPAID", "WRITE_UNPAID", "READ_PAID", "WRITE_PAID", "ADMIN"]
    ensures GetScopesForRole("premium") == ["READ_UNPAID", "WRITE_UNPAID", "READ_PAID", "WRITE_PAID"]
    ensures GetScopesForRole("basic") == ["READ_UNPAID", "WRITE_UNPAID"]
    ensures GetScopesForRole("unconfirmed") == ["READ_UNPAID"]
    ensures GetScopesForRole("anonymous_permanent") == ["READ_UNPAID"]
    ensures GetScopesForRole("anonymous") == ["READ_PAID"]
  {
    ScopesForRole(Admin);
    ScopesForRole(Premium);
    ScopesForRole(Basic);
    ScopesForRole(Unconfirmed);
    ScopesForRole(AnonymousPermanent);
    ScopesForRole(Anonymous);
  }

  /** The lookup by a role's value finds that role's row, spelled out as names. */
  lemma ScopesForRole(r: Role)
    ensures GetScopesForRole(r.Value()) == Names(ScopeTable(r))
    ensures match r
      case Admin => Names(ScopeTable(r)) == ["READ_UNPAID", "WRITE_UNPAID", "READ_PAID", "WRITE_PAID", "ADMIN"]
      case Premium => Names(ScopeTable(r)) == ["READ_UNPAID", "WRITE_UNPAID", "READ_PAID", "WRITE_PAID"]
      case Basic => Names(ScopeTable(r)) == ["READ_UNPAID", "WRITE_UNPAID"]
      case Unconfirmed => Names(ScopeTable(r)) == ["READ_UNPAID"]
      case AnonymousPermanent => Names(ScopeTable(r)) == ["READ_UNPAID"]
      case Anonymous => Names(ScopeTable(r)) == ["READ_PAID"]
  {
  }

  /**
   * The scope lists nest (unconfirmed within basic within premium within
   * admin), only admin holds the ADMIN scope, every role holds at least one
   * scope, and anonymous holds paid reading while anonymous_permanent holds
   * only unpaid reading.
   */
  lemma ScopeTableShape()
    ensures forall s :: s in ScopeTable(Unconfirmed) ==> s in ScopeTable(Basic)
    ensures forall s :: s in ScopeTable(Basic) ==> s in ScopeTable(Premium)
    ensures forall s :: s in ScopeTable(Premium) ==> s in ScopeTable(Admin)
    ensures forall r: Role :: AdminAll in ScopeTable(r) <==> r == Admin
    ensures forall r: Role :: ScopeTable(r) != []
    ensures ScopeTable(Anonymous) == [ReadPaid] && ScopeTable(AnonymousPermanent) == [ReadUnpaid]
  {
  }

  /** A scope name is a whitespace-free word. */
  lemma ScopeNameIsWord(s: Scope)
    ensures PyStr.IsWord(s.Name())
  {
    match s
    case ReadUnpaid => case WriteUnpaid => case ReadPaid => case WritePaid => case AdminAll =>
  }

  /** Every name a role grants is a whitespace-free word, and never one of the scope values. */
  lemma ScopeNamesAreWords(role: string)
    ensures forall i :: 0 <= i < |GetScopesForRole(role)| ==> PyStr.IsWord(GetScopesForRole(role)[i])
    ensures forall i, s: Scope :: 0 <= i < |GetScopesForRole(role)| ==> GetScopesForRole(role)[i] != s.Value()
  {
    var names := GetScopesForRole(role);
    ScopesClosed();
    if r :| RoleFromValue(role) == Some(r) {
      forall i | 0 <= i < |names| ensures PyStr.IsWord(names[i]) {
        ScopeNameIsWord(ScopeTable(r)[i]);
      }
    }
  }

  /**
   * `verify_argon2_password`: re-raises everything `ph.verify` raises, so it
   * returns True on a match and never returns False.
   */
  function VerifyArgon2Password(plainPassword: string, hashedPassword: PasswordHasher.Credential): (r: Result<bool, PasswordHasher.HashError>)
    ensures r != Ok(false)
    ensures r == Ok(true) <==> exists salt: nat :: hashedPassword == PasswordHasher.Hash(plainPassword, salt)
    ensures hashedPassword.Corrupt? ==> r == Err(PasswordHasher.InvalidHash)
  {
    var r := PasswordHasher.Verify(hashedPassword, plainPassword);
    if r == Ok(true) then
      assert hashedPassword == PasswordHasher.Hash(plainPassword, hashedPassword.salt);
      r
    else r
  }

  /** `get_password_hash`. */
  function GetPasswordHash(password: string, salt: nat): (h: PasswordHasher.Credential)
    ensures VerifyArgon2Password(password, h) == Ok(true)
    ensures forall other :: other != password ==> VerifyArgon2Password(other, h) == Err(PasswordHasher.VerifyMismatch)
  {
    PasswordHasher.HashContract(password, salt, salt, password);
    PasswordHasher.Hash(password, salt)
  }

  /**
   * `create_access_token`: the payload is `data` with `exp` set; the expiry
   * is `now` plus the delta when the delta is given and non-zero, and `now`
   * plus the configured minutes otherwise. Times and deltas are in seconds.
   */
  function CreateAccessToken(data: Jwt.Claims, expiresDelta: Option<int>, now: int, settings: Settings): (token: Jwt.Token)
    ensures var exp := if expiresDelta.Some? && expiresDelta.value != 0 then now + expiresDelta.value
                       else now + 60 * settings.accessTokenExpireMinutes;
      forall at: int :: Jwt.Decode(Jwt.PyJwt, token, settings.secretKey, settings.jwtAlgorithm, at)
        == if at < exp then Ok(data["exp" := Jwt.NumericDate(exp)]) else Err(Jwt.Expired)
  {
    var expire := if expiresDelta.Some? && expiresDelta.value != 0 then now + expiresDelta.value
                  else now + 60 * settings.accessTokenExpireMinutes;
    Jwt.Encode(data["exp" := Jwt.NumericDate(expire)], settings.secretKey, settings.jwtAlgorithm)
  }

  /** The claims `generate_token_for_user` hands to `create_access_token`. */
  function UserClaims(user: User): (claims: Jwt.Claims)
  {
    map["sub" := Jwt.Text(user.username), "scopes" := Jwt.Text(PyStr.Join(GetScopesForRole(user.authRole.Value())))]
  }

  /**
   * `generate_token_for_user`: a bearer token whose payload names the user,
   * carries the role's scope names joined by spaces, and expires after the
   * configured minutes (a zero setting falls back to the same zero default).
   */
  function GenerateTokenForUser(user: User, now: int, settings: Settings): (t: Token)
    ensures t.tokenType == BEARER
    ensures var exp := now + 60 * settings.accessTokenExpireMinutes;
      forall at: int :: Jwt.Decode(Jwt.PyJwt, t.accessToken, settings.secretKey, settings.jwtAlgorithm, at)
        == if at < exp
           then Ok(map["sub" := Jwt.Text(user.username),
                       "scopes" := Jwt.Text(PyStr.Join(GetScopesForRole(user.authRole.Value()))),
                       "exp" := Jwt.NumericDate(exp)])
           else Err(Jwt.Expired)
  {
    var accessTokenExpires := 60 * settings.accessTokenExpireMinutes;
    Token(CreateAccessToken(UserClaims(user), Some(accessTokenExpires), now, settings), BEARER)
  }

  /** What `authenticate_user` gives back: False, a token, or the exception raised by verification. */
  datatype AuthOutcome = Rejected | Issued(token: Token) | Raised(error: PasswordHasher.HashError)

  /** `AuthService.authenticate_user`, as written. */
  function AuthenticateUser(user: Option<User>, password: string, now: int, settings: Settings): (r: AuthOutcome)
    ensures r == Rejected <==> user.None?
    ensures user.Some? && VerifyArgon2Password(password, user.value.hashedPassword) == Ok(true)
      ==> r == Issued(GenerateTokenForUser(user.value, now, settings))
    ensures user.Some? && VerifyArgon2Password(password, user.value.hashedPassword).Err?
      ==> r == Raised(VerifyArgon2Password(password, user.value.hashedPassword).error)
  {
    match user
    case None => Rejected
    case Some(u) =>
      match VerifyArgon2Password(password, u.hashedPassword)
      case Err(e) => Raised(e)
      case Ok(ok) => if !ok then Rejected else Issued(GenerateTokenForUser(u, now, settings))
  }

  /**
   * Wrong password, as written: for a stored user whose hash was made from
   * another password, login raises the mismatch instead of returning False.
   */
  lemma WrongPasswordRaises(user: User, password: string, salt: nat, attempt: string, now: int, settings: Settings)
    requires user.hashedPassword == GetPasswordHash(password, salt)
    requires attempt != password
    ensures AuthenticateUser(Some(user), attempt, now, settings) == Raised(PasswordHasher.VerifyMismatch)
  {
  }

  /** Password verification as the callers expect it: a mismatch or an unreadable hash is False. */
  function VerifyPassword(plainPassword: string, hashedPassword: PasswordHasher.Credential): (ok: bool)
    ensures ok <==> exists salt: nat :: hashedPassword == PasswordHasher.Hash(plainPassword, salt)
  {
    VerifyArgon2Password(plainPassword, hashedPassword) == Ok(true)
  }

  /** Login with a mismatch reported as False: the three outcomes the surrounding code and its callers rely on. */
  function AuthenticateUserIntended(user: Option<User>, password: string, now: int, settings: Settings): (r: AuthOutcome)
    ensures !r.Raised?
    ensures r.Issued? <==> user.Some? && VerifyPassword(password, user.value.hashedPassword)
    ensures r.Issued? ==> r.token == GenerateTokenForUser(user.value, now, settings)
  {
    match user
    case None => Rejected
    case Some(u) => if !VerifyPassword(password, u.hashedPassword) then Rejected else Issued(GenerateTokenForUser(u, now, settings))
  }

  /** With the right password both versions issue the same token; with a wrong one only the intended version rejects. */
  lemma AuthenticateVersionsAgree(user: User, password: string, salt: nat, attempt: string, now: int, settings: Settings)
    requires user.hashedPassword == GetPasswordHash(password, salt)
    ensures AuthenticateUser(Some(user), password, now, settings)
         == AuthenticateUserIntended(Some(user), password, now, settings)
         == Issued(GenerateTokenForUser(user, now, settings))
    ensures attempt != password ==> AuthenticateUserIntended(Some(user), attempt, now, settings) == Rejected
  {
    PasswordHasher.HashContract(password, salt, salt, attempt);
  }

  /** Exceptions that escape `decode_user_jwt` because its `except` clause does not name them. */
  datatype PyError = AttributeError | ValidationError

  /** A decoding failure: the 401 "Could not decode the JWT", or an exception that escapes. */
  datatype DecodeFailure = InvalidJwt | Uncaught(error: PyError)

  /** The `scopes` claim split on whitespace, an empty list when absent, or the AttributeError of `.split()` on a number. */
  function ScopesClaim(claims: Jwt.Claims): (r: Result<seq<string>, PyError>)
    ensures "scopes" !in claims ==> r == Ok([])
    ensures "scopes" in claims ==> (r.Ok? <==> claims["scopes"].Text?)
    ensures r.Ok? && "scopes" in claims ==> r.value == PyStr.Split(claims["scopes"].text)
    ensures "scopes" in claims && claims["scopes"].NumericDate? ==> r == Err(AttributeError)
  {
    if "scopes" !in claims then Ok([])
    else match claims["scopes"]
      case Text(s) => Ok(PyStr.Split(s))
      case NumericDate(_) => Err(AttributeError)
  }

  /**
   * `decode_user_jwt`, as written: a token the library rejects gives the 401;
   * a payload without a string `sub` fails pydantic validation, whose error
   * is a `ValueError` the `except` clause does not catch.
   */
  function DecodeUserJwt(token: Jwt.Token, now: int, settings: Settings): (r: Result<TokenPayload, DecodeFailure>)
    ensures Jwt.Decode(Jwt.PyJwt, token, settings.secretKey, settings.jwtAlgorithm, now).Err? <==> r == Err(InvalidJwt)
    ensures r.Ok? <==> (var d := Jwt.Decode(Jwt.PyJwt, token, settings.secretKey, settings.jwtAlgorithm, now);
      d.Ok? && ScopesClaim(d.value).Ok? && "sub" in d.value && d.value["sub"].Text?)
    ensures r.Ok? ==> (var claims := Jwt.Decode(Jwt.PyJwt, token, settings.secretKey, settings.jwtAlgorithm, now).value;
      r.value == TokenPayload(claims["sub"].text, ScopesClaim(claims).value))
  {
    match Jwt.Decode(Jwt.PyJwt, token, settings.secretKey, settings.jwtAlgorithm, now)
    case Err(_) => Err(InvalidJwt)
    case Ok(claims) =>
      match ScopesClaim(claims)
      case Err(e) => Err(Uncaught(e))
      case Ok(scopes) =>
        if "sub" !in claims || !claims["sub"].Text? then Err(Uncaught(ValidationError))
        else Ok(TokenPayload(claims["sub"].text, scopes))
  }

  /** Decoding with every malformed payload reported as the 401, as the handler's comment and its callers expect. */
  function DecodeUserJwtIntended(token: Jwt.Token, now: int, settings: Settings): (r: Result<TokenPayload, DecodeFailure>)
    ensures r.Err? ==> r.error == InvalidJwt
    ensures DecodeUserJwt(token, now, settings).Ok? ==> r == DecodeUserJwt(token, now, settings)
    ensures DecodeUserJwt(token, now, settings).Err? ==> r == Err(InvalidJwt)
  {
    match DecodeUserJwt(token, now, settings)
    case Ok(p) => Ok(p)
    case Err(_) => Err(InvalidJwt)
  }

  /** A token created without `sub`, decoded as written, raises the validation error instead of the 401. */
  lemma MissingSubEscapes(now: int, settings: Settings)
    ensures var token := CreateAccessToken(map["scopes" := Jwt.Text("read")], None, now, settings);
      && (settings.accessTokenExpireMinutes > 0 ==> DecodeUserJwt(token, now, settings) == Err(Uncaught(ValidationError)))
      && DecodeUserJwtIntended(token, now, settings) == Err(InvalidJwt)
  {
    var token := CreateAccessToken(map["scopes" := Jwt.Text("read")], None, now, settings);
    if settings.accessTokenExpireMinutes > 0 {
      var claims := map["scopes" := Jwt.Text("read"), "exp" := Jwt.NumericDate(now + 60 * settings.accessTokenExpireMinutes)];
      assert Jwt.Decode(Jwt.PyJwt, token, settings.secretKey, settings.jwtAlgorithm, now) == Ok(claims);
      assert "sub" !in claims;
    }
  }

  /**
   * Round trip: before it expires, the token generated for a user decodes to
   * that user's name and exactly the scope names of the user's role.
   */
  lemma {:induction false} GeneratedTokenDecodes(user: User, now: int, at: int, settings: Settings)
    requires at < now + 60 * settings.accessTokenExpireMinutes
    ensures var expected := Ok(TokenPayload(user.username, GetScopesForRole(user.authRole.Value())));
      && DecodeUserJwt(GenerateTokenForUser(user, now, settings).accessToken, at, settings) == expected
      && DecodeUserJwtIntended(GenerateTokenForUser(user, now, settings).accessToken, at, settings) == expected
  {
    var names := GetScopesForRole(user.authRole.Value());
    var token := GenerateTokenForUser(user, now, settings).accessToken;
    var exp := now + 60 * settings.accessTokenExpireMinutes;
    GeneratedTokenPayload(user, now, at, settings);
    ScopeNamesAreWords(user.authRole.Value());
    WordClaimsDecode(token, at, settings, user.username, names, exp);
  }

  /** Before expiry, the library accepts a generated token and hands back its three claims. */
  lemma GeneratedTokenPayload(user: User, now: int, at: int, settings: Settings)
    requires at < now + 60 * settings.accessTokenExpireMinutes
    ensures Jwt.Decode(Jwt.PyJwt, GenerateTokenForUser(user, now, settings).accessToken, settings.secretKey, settings.jwtAlgorithm, at)
         == Ok(map["sub" := Jwt.Text(user.username),
                   "scopes" := Jwt.Text(PyStr.Join(GetScopesForRole(user.authRole.Value()))),
                   "exp" := Jwt.NumericDate(now + 60 * settings.accessTokenExpireMinutes)])
  {
  }

  /** A `scopes` claim holding the space-join of whitespace-free words splits back into those words. */
  lemma ScopesOfJoin(claims: Jwt.Claims, names: seq<string>)
    requires forall i :: 0 <= i < |names| ==> PyStr.IsWord(names[i])
    requires "scopes" in claims && claims["scopes"] == Jwt.Text(PyStr.Join(names))
    ensures ScopesClaim(claims) == Ok(names)
  {
    PyStr.SplitJoin(names);
  }

  /**
   * `decode_user_jwt` on a token the library accepts with a string `sub`, a
   * `scopes` claim joining whitespace-free words, and a numeric `exp`.
   */
  lemma WordClaimsDecode(token: Jwt.Token, now: int, settings: Settings, sub: string, names: seq<string>, exp: int)
    requires forall i :: 0 <= i < |names| ==> PyStr.IsWord(names[i])
    requires Jwt.Decode(Jwt.PyJwt, token, settings.secretKey, settings.jwtAlgorithm, now)
          == Ok(map["sub" := Jwt.Text(sub), "scopes" := Jwt.Text(PyStr.Join(names)), "exp" := Jwt.NumericDate(exp)])
    ensures DecodeUserJwt(token, now, settings) == Ok(TokenPayload(sub, names))
    ensures DecodeUserJwtIntended(token, now, settings) == Ok(TokenPayload(sub, names))
  {
    var claims := map["sub" := Jwt.Text(sub), "scopes" := Jwt.Text(PyStr.Join(names)), "exp" := Jwt.NumericDate(exp)];
    assert "sub" in claims && claims["sub"] == Jwt.Text(sub);
    ScopesOfJoin(claims, names);
    DecodedClaims(token, now, settings, claims, names);
  }

  /** `decode_user_jwt` on a token the library accepts with a string `sub` and a readable `scopes` claim. */
  lemma DecodedClaims(token: Jwt.Token, now: int, settings: Settings, claims: Jwt.Claims, scopes: seq<string>)
    requires Jwt.Decode(Jwt.PyJwt, token, settings.secretKey, settings.jwtAlgorithm, now) == Ok(claims)
    requires ScopesClaim(claims) == Ok(scopes)
    requires "sub" in claims && claims["sub"].Text?
    ensures DecodeUserJwt(token, now, settings) == Ok(TokenPayload(claims["sub"].text, scopes))
    ensures DecodeUserJwtIntended(token, now, settings) == Ok(TokenPayload(claims["sub"].text, scopes))
  {
  }

  /**
   * End to end: a user who logs in with the password the stored hash was made
   * from receives a token that, decoded before expiry, yields the username and
   * the role's scope names.
   */
  lemma LoginThenDecode(user: User, password: string, salt: nat, now: int, at: int, settings: Settings)
    requires user.hashedPassword == GetPasswordHash(password, salt)
    requires at < now + 60 * settings.accessTokenExpireMinutes
    ensures var r := AuthenticateUserIntended(Some(user), password, now, settings);
      && r.Issued?
      && DecodeUserJwtIntended(r.token.accessToken, at, settings)
         == Ok(TokenPayload(user.username, GetScopesForRole(user.authRole.Value())))
  {
    AuthenticateVersionsAgree(user, password, salt, password, now, settings);
    GeneratedTokenDecodes(user, now, at, settings);
  }
}
