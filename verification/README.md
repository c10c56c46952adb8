# Weather-i-am accounts and tokens, modelled in Dafny

This project models the account and authentication core of the weather-i-am API:

- the closed `CustomRoles` and `Scope` enumerations and the `User` record with its defaults;
- the role-to-scope table and how a user's scope names travel in a JWT `scopes` claim, joined by spaces (RFC 6749 section 3.3) and split back on whitespace;
- access-token creation with `sub` and `exp` claims (RFC 7519 sections 4.1.2 and 4.1.4), login and token decoding in `auth_service.py`;
- the second token module `token_master.py`, with its 15-minute default expiry and its `get_current_user` ladder;
- the anonymous-usage gate with its limit of 50 requests;
- the per-user parameter row: its importance bounds, its default thresholds, how it is built when an account is created, and how the PATCH route merges a partial update into it.

The database is a `Store.Session` object holding two maps: users keyed by id, and parameter rows keyed by `user_id`. Its methods check the constraints the schema declares and change nothing when one fails, because the request-scoped session rolls back on any error. `Session.Valid()` is the account invariant: the constraints hold and every user has exactly one parameter row. `UserService.AddUser` keeps it.

Cryptography is symbolic:

- A credential records its salt and the secret it was made from. It verifies exactly that secret.
- A token is a claim map signed under a key and an algorithm, or text that is not a signed token. Decoding checks the key, the algorithm and `exp`. The libraries' checks of the other registered claims are not modelled (see "Left out").

Time is a parameter `now`, in seconds, and a `timedelta` is an optional number of seconds. Latitudes, longitudes and threshold values are `real` literals; no arithmetic is done on them.

Whitespace, for `str.split()`, is the set Python uses: U+0009 to U+000D, U+001C to U+0020, U+0085, U+00A0, U+1680, U+2000 to U+200A, U+2028, U+2029, U+202F, U+205F and U+3000.

In places the code departs from its own docstrings, comments and unit tests (tests/unit_tests/test_auth_service.py, tests/unit_tests/test_user_parameter_service.py). The model follows the code:

- Password verification raises on a mismatch instead of answering false.
- A token without `sub` escapes decoding as an uncaught error instead of being refused.
- The scope table holds member names (`READ_PAID`), not values (`content_paid:read`).
- `add_parameter` given an update with only the coordinates set is refused, because the unset thresholds dump None.
- No component checks a required scope against a token. `decode_user_jwt` ignores the scopes a route requests, so no authorization guard is modelled.
- The modules import a `Users` class that `user_model.py` does not define. The model uses the `User` record it does define.
- `User` has no `request_count` column, yet the usage gate reads and increments one. The model adds that field, starting at 0.

## Model

| member | source | states |
|---|---|---|
| UserModel.RolesClosed | app/models/user_model.py:10-16 | Role has exactly six members with six distinct values, and each value reads back as its role |
| UserModel.ScopesClosed | app/models/user_model.py:19-35 | Scope has exactly five members; names are pairwise distinct, values are pairwise distinct, no name equals a value, and the values are the five literal strings |
| UserModel.RoleFromValue | app/models/user_model.py:10-16 | a string finds the role whose value it is, and finds none when no role has that value |
| UserModel.NewUser | app/models/user_model.py:38-51 | building a user keeps the given fields and fills the rest with the declared defaults; the added request count starts at 0 |
| UserModel.NewUserDefaults | app/models/user_model.py:44-51 | a user built without a role is ANONYMOUS, active, not anonymous and not a superuser |
| PasswordHasher.Hash | app/services/auth_service.py:77-79 | hashing gives an Argon2 credential |
| PasswordHasher.Verify | app/services/auth_service.py:68 | verification never answers false, and an unreadable hash raises InvalidHash |
| PasswordHasher.HashContract | app/services/auth_service.py:66-79 | a password verifies against its own hash under any salt; two salts give two encodings; every other password raises a mismatch |
| Jwt.Decode | app/services/auth_service.py:137-140 | a decoded payload is exactly what was signed under that key and algorithm, and it has not expired by the rule of the decoding library |
| Jwt.DecodeEncode | app/services/auth_service.py:91-140 | decoding gives back the signed claims before expiry; it fails for another key or algorithm, and fails after expiry |
| Jwt.ExpiryBoundary | app/security/token_master.py:55 | at the second `exp` itself PyJWT refuses the token while python-jose still accepts it; one second later python-jose refuses it too |
| PyStr.Join | app/services/auth_service.py:102 | joining no words gives the empty string, and one word gives that word |
| PyStr.RemoveSpaces | app/services/auth_service.py:142 | removing the whitespace of a string leaves no whitespace |
| PyStr.Split | app/services/auth_service.py:142 | every piece `split()` returns is non-empty and free of whitespace, and the pieces concatenated are the string with its whitespace removed |
| PyStr.SplitAtSpace | app/services/auth_service.py:142 | `split()` breaks at every whitespace character: the text before it and the text after it split independently, and their pieces are joined in order |
| PyStr.SplitOfWord | app/services/auth_service.py:142 | a whitespace-free word splits into exactly itself |
| PyStr.SplitEmpty | app/services/auth_service.py:142 | `split()` returns no pieces exactly when the text is all whitespace |
| PyStr.SplitJoin | app/services/auth_service.py:141-142 | splitting the space-join of whitespace-free words gives the words back |
| AuthService.GetScopesForRole | app/services/auth_service.py:60-63 | an unknown role string gives the empty list; a role's value gives the names of that role's scopes |
| AuthService.ScopeTableLiteral | app/services/auth_service.py:18-36 | each of the six roles gets exactly its literal list of scope names, in order |
| AuthService.ScopesForRole | app/services/auth_service.py:18-36 | looking up a role's value gives that role's row of the table, as the literal list of names |
| AuthService.ScopeTableShape | app/services/auth_service.py:18-36 | the scope lists nest unconfirmed ⊆ basic ⊆ premium ⊆ admin; only admin holds ADMIN; no role's list is empty; anonymous holds only paid reading and anonymous_permanent holds only unpaid reading |
| AuthService.ScopeNamesAreWords | app/services/auth_service.py:18-36 | every granted name is a whitespace-free word and never a scope value |
| AuthService.VerifyArgon2Password | app/services/auth_service.py:66-75 | never returns False; returns True exactly when the hash was made from the password; a corrupt hash raises InvalidHash |
| AuthService.GetPasswordHash | app/services/auth_service.py:77-79 | the stored hash verifies the password it came from and raises a mismatch for every other password |
| AuthService.CreateAccessToken | app/services/auth_service.py:81-94 | the token decodes to the input claims with `exp` added, until `exp`; `exp` is now + delta for a non-zero delta, otherwise now + the configured minutes |
| AuthService.GenerateTokenForUser | app/services/auth_service.py:96-106 | a bearer token carrying sub = username and scopes = the space-join of the role's names, expiring after the configured minutes |
| AuthService.AuthenticateUser | app/services/auth_service.py:112-118 | False exactly when the user is absent; a matching password issues that user's token; otherwise the verification error is raised |
| AuthService.WrongPasswordRaises | app/services/auth_service.py:113-117 | a wrong password for a stored user raises the mismatch rather than returning False |
| AuthService.VerifyPassword | app/services/auth_service.py:66-75 | the corrected check: true exactly when the hash was made from the password |
| AuthService.AuthenticateUserIntended | app/services/auth_service.py:112-118 | the corrected login never raises, and issues that user's token exactly when the user exists and the password verifies |
| AuthService.AuthenticateVersionsAgree | app/services/auth_service.py:113-118 | with the right password both logins issue the same token; with a wrong one the corrected login returns False |
| AuthService.ScopesClaim | app/services/auth_service.py:142 | an absent `scopes` claim gives []; a present claim is read exactly when it is a string, giving its whitespace split; a numeric claim raises AttributeError |
| AuthService.DecodeUserJwt | app/services/auth_service.py:121-149 | a library rejection is the 401; success exactly when the payload has a string `sub` and a readable `scopes`, giving that sub and the split scopes |
| AuthService.DecodeUserJwtIntended | app/services/auth_service.py:137-149 | the corrected decode fails only with the 401, and agrees with the code on every token the code accepts |
| AuthService.MissingSubEscapes | app/services/auth_service.py:143-149 | a token created without `sub` escapes as a validation error in the code, and gets the 401 in the corrected decode |
| AuthService.GeneratedTokenDecodes | app/services/auth_service.py:97-145 | before expiry, a generated token decodes to the username and exactly the role's scope names |
| AuthService.DecodedClaims | app/services/auth_service.py:141-145 | an accepted payload with a string `sub` and readable scopes decodes to that sub and those scopes |
| AuthService.WordClaimsDecode | app/services/auth_service.py:137-145 | a payload with a string `sub` and a `scopes` claim that joins whitespace-free words decodes to that sub and exactly those words |
| AuthService.LoginThenDecode | app/services/auth_service.py:112-145 | logging in with the right password gives a token that decodes to the username and the role's scope names |
| UuidText.Parse | app/security/token_master.py:64 | text shorter than 32 characters is refused, and so is text holding any character other than a hex digit, a hyphen or a brace (a username, say); a parsed UUID is the value of the text's hex digits read in order, of which there are exactly 32 |
| UuidText.ParseHexDigits | app/security/token_master.py:64 | reading back k hex digits written for a number below 16^k gives that number |
| UuidText.ParseStr | app/security/token_master.py:64 | reading back the text of a UUID gives the same UUID |
| UuidText.ParseHexForm | app/security/token_master.py:64 | a string of hex digits is accepted exactly when it has 32 of them, as their value |
| UuidText.ParseBraced | app/security/token_master.py:64 | the text of a UUID in curly braces reads back as that UUID |
| TokenMaster.CreateAccessToken | app/security/token_master.py:28-37 | under python-jose the token decodes to the input claims with `exp` added up to and including the second `exp`, and is refused as expired after; `exp` is now + delta for a non-zero delta, otherwise now + 15 minutes |
| TokenMaster.DefaultExpiryIsFifteenMinutes | app/security/token_master.py:14-34 | without a delta the token is accepted up to and including second now + 900 and refused after; 900 seconds is far short of the 30-day constant |
| TokenMaster.ReadTokenData | app/security/token_master.py:54-61 | succeeds exactly when the payload decodes and has a string `sub`; the sub is carried over and the scopes stay []; every failure is the 401 |
| TokenMaster.GetCurrentUser | app/security/token_master.py:41-67 | no credentials give no user and nothing else does; a token that `read_token_data` refuses gets the 401; a `sub` that is not a UUID gets the ValueError; a parsed id gives the stored user with that id, or the 401 when there is none |
| TokenMaster.TokenForStoredUserResolves | app/security/token_master.py:55-67 | a token whose sub is a stored user's id resolves to that user up to and including its `exp` second, and gets the 401 after |
| TokenMaster.UnknownUserRefused | app/security/token_master.py:64-66 | a valid token naming no stored user gets the 401 |
| TokenMaster.ScopesIgnored | app/security/token_master.py:56-59 | two tokens that differ only in `scopes` resolve alike |
| UserParameterModel.NewIndividualParameter | app/models/user_parameter_model.py:25-37 | a parameter is built exactly when importance is within 0..10, and keeps the given fields |
| UserParameterModel.IndividualParameterDefaults | app/models/user_parameter_model.py:25-37 | a parameter given only its name has importance 1 and neither kind of value |
| UserParameterModel.DefaultThresholds | app/models/user_parameter_model.py:49-99 | each default threshold is named after its field and passes validation; the importances and values are uv 5/6.0, aqi 5/100.0, wind 3/10.0, rain 7/0.5, pm10 4/50.0, pm2_5 4/35.0, and allergens 5 with an empty array |
| UserParameterModel.UpdateDefaults | app/models/user_parameter_model.py:138-172 | an update built with no arguments has no field set, and dumps None for every field |
| UserParameterModel.DumpedValue | app/models/user_parameter_model.py:138-172 | `model_dump()` gives the set value of a field, or None for an unset field |
| UserParameterModel.SetAttr | app/routers/user_parameters_route.py:61 | `setattr` changes exactly the named field, to the given value |
| UserParameterModel.ModelDumpLastFor | app/routers/user_parameters_route.py:59 | the last item the `exclude_unset` dump holds for a field is that field's set value, and an unset field has no item |
| UserParameterModel.ApplyItemsGet | app/routers/user_parameters_route.py:60-61 | after the `setattr` loop, a field holds the value of the last item naming it, or its old value |
| UserParameterModel.ApplyPatch | app/routers/user_parameters_route.py:59-61 | every field set in the patch takes the patch value, None included; every unset field keeps its value; the key is unchanged |
| UserParameterModel.ApplyPatchIdempotent | app/routers/user_parameters_route.py:59-61 | applying a patch twice equals applying it once |
| UserParameterModel.EmptyPatchIsIdentity | app/models/user_parameter_model.py:138-172 | a patch with no field set leaves the row unchanged |
| Store.UserConflict | app/models/user_model.py:42-43 | a user fits exactly when its email has at most 255 characters and its username and email are unused |
| Store.ParameterConflict | app/models/user_parameter_model.py:102-111 | a row fits exactly when its user exists, has no row yet, and both coordinates are non-null |
| Store.InsertKeepsUsersWellFormed | app/models/user_model.py:39-43 | adding a non-conflicting user keeps ids, usernames and emails unique |
| Store.Session.AddUser | app/services/user_service.py:63-67 | the insert-and-flush adds the user, or raises the constraint error and changes nothing; the parameter table is untouched |
| Store.Session.AddParameterRow | app/services/user_parameter_service.py:39-41 | `add_one` adds the row under its user id, or raises the constraint error and changes nothing |
| Store.Session.SaveUser | app/security/limit_anonymous_usage.py:28 | saving replaces the stored record, or fails on a constraint and changes nothing |
| Store.Session.SaveParameterRow | app/routers/user_parameters_route.py:63-65 | the commit stores the row exactly when both coordinates are non-null; otherwise it raises the NOT NULL error of the first null coordinate and changes nothing |
| Store.Session.GetUserByUserName | app/services/user_service.py:59-61 | returns the stored user with that username, or none exactly when no stored user has it |
| Store.Session.GetParamsByUserId | app/services/user_parameter_service.py:32-46 | returns the row keyed by that user id, or none exactly when there is no such row |
| Store.UsernameDeterminesUser | app/models/user_model.py:43 | two stored users with the same username are the same user |
| UserParameterService.BuildUserParameter | app/services/user_parameter_service.py:15-26 | without an update: lat -36.15, lon 95.98 and the default thresholds; with one: built exactly when no field dumps None, holding the dumped values; user_id is the argument |
| UserParameterService.NullField | app/services/user_parameter_service.py:21 | finds a field holding None exactly when one exists, and the field it names holds None |
| UserParameterService.BuildUserParameterIntended | app/services/user_parameter_service.py:15-26 | the corrected build: without an update the default row; with one, the default row with every set field replaced, built exactly when no set field is None; each field is the set value or the default |
| UserParameterService.CoordinatesOnlyRefused | app/services/user_parameter_service.py:18-22 | an update setting only the two coordinates is refused by the code as written |
| UserParameterService.CoordinatesOnlyAccepted | app/services/user_parameter_service.py:18-22 | the corrected build accepts that update, giving the default row with those coordinates |
| UserParameterService.BuildVersionsAgree | app/services/user_parameter_service.py:15-26 | whenever the code as written builds a row, the corrected build gives the same row |
| UserParameterService.AddParameter | app/services/user_parameter_service.py:15-30 | hands exactly the built row to the store: a validation failure changes nothing; otherwise the row is added exactly when the user exists and has no row |
| UserService.GetUser | app/services/user_service.py:35-36 | returns a user exactly when one with that username is stored, and that stored user |
| UserService.UserToAdd | app/services/user_service.py:39-45 | the new record has the given id, username and email, a hash that verifies the password, is active, not a superuser, not anonymous, and has the default ANONYMOUS role |
| UserService.AddUser | app/services/user_service.py:38-52 | adds the user and then exactly one default parameter row under the new id, or changes nothing; keeps "every user has one row"; returns the added user |
| UserService.FreshAccountRegisters | app/services/user_service.py:38-47 | an unused id, username and email within 255 characters always register |
| UserParametersRoute.UpdateUserParams | app/routers/user_parameters_route.py:33-66 | a missing row gives the 404 with no change; otherwise the stored row becomes the patch merge, and is returned, exactly when its coordinates are non-null, and otherwise the commit's NOT NULL error is returned; other rows and all users are untouched |
| UserParametersRoute.RepeatedPatch | app/routers/user_parameters_route.py:33-66 | sending the same PATCH twice: the second request answers exactly as the first, and the tables end as the first left them |
| UserParametersRoute.NullThresholdOverwrites | app/routers/user_parameters_route.py:59 | a threshold explicitly set to None becomes null and the row stays storable; every other field keeps its value |
| LimitAnonymousUsage.Gate | app/security/limit_anonymous_usage.py:9-27 | no user gives the 401; a non-anonymous user passes unchanged; an anonymous user at 50 or more gives the 403; otherwise the count rises by exactly 1 |
| LimitAnonymousUsage.LimitAnonymousUsage | app/security/limit_anonymous_usage.py:9-28 | passes exactly when the gate does; only the current user's record changes; keeps every anonymous count at 50 or below |
| LimitAnonymousUsage.PassesCount | app/security/limit_anonymous_usage.py:6-27 | of n requests from an anonymous user at count c ≤ 50, exactly min(n, 50 − c) pass |
| LimitAnonymousUsage.AtMostLimitFromZero | app/security/limit_anonymous_usage.py:6-27 | starting from 0, at most 50 requests pass, and exactly 50 pass once 50 are sent |

## Findings

| source | as written | input that shows it | evidently intended | confidence | as-written member | corrected member |
|---|---|---|---|---|---|---|
| app/services/auth_service.py:66-75 | `verify_argon2_password` re-raises `VerifyMismatchError`, so it never returns False. `authenticate_user` therefore raises on a wrong password, and its `return False` at line 117 is unreachable. | a stored user whose hash came from "p", logging in with "q" | a wrong password returns False, as tests/unit_tests/test_auth_service.py:52-54 and 89-92 expect | high, not executed | AuthService.WrongPasswordRaises | AuthService.AuthenticateUserIntended |
| app/services/auth_service.py:143-147 | a payload without `sub` makes `TokenPayload(sub=None)` raise pydantic's `ValidationError`. That error is a `ValueError`, and the `except` clause lists only `PyJWTError`, `TypeError` and `KeyError`, so it escapes. | a token created from `{"scopes": "read"}` | the 401 "Could not decode the JWT", as the comment at line 148 and tests/unit_tests/test_auth_service.py:122-133 expect | medium (depends on pydantic 2's exception hierarchy), not executed | AuthService.MissingSubEscapes | AuthService.DecodeUserJwtIntended |
| app/services/user_parameter_service.py:18-22 | `UserParameterBase(**parameter.model_dump())` passes None for every threshold the update leaves unset. Those fields are not Optional, so validation fails. | `UserParameterUpdate(preferred_lat=50.0, preferred_lon=-100.0)` | the row is built with the default thresholds and the given coordinates, as tests/unit_tests/test_user_parameter_service.py:42-59 expects | high, not executed | UserParameterService.CoordinatesOnlyRefused | UserParameterService.BuildUserParameterIntended |

## Left out

- Argon2 and JWT signing are symbolic stand-ins. Not modelled: one-wayness, timing behaviour, random salts (the salt is a parameter), and the wire format of a token.
- Jwt.Decode: a non-numeric `exp` claim is refused as InvalidExpiry, but both libraries read `exp` with `int(...)` and so accept a numeric string. Their leeway and clock-skew options are not modelled.
- Jwt.Decode: checks only the key, the algorithm and `exp`. Both libraries also refuse a token whose `nbf` is in the future, whose `iat` is not an integer, or which carries an `aud` claim when no audience is expected. python-jose also requires `sub` and `jti` to be strings, and PyJWT does so from version 2.10. AuthService.CreateAccessToken and TokenMaster.CreateAccessToken therefore promise a successful decode even for `data` carrying such claims. Under PyJWT 2.10 a non-string `sub` would give the 401 in `decode_user_jwt`, where the model raises the validation error. The callers in this core pass only `sub` and `scopes`.
- TokenMaster.CreateAccessToken: the `exp` it writes is always numeric, so the numeric-string leniency of python-jose's `exp` check does not arise for its own tokens. It does arise for foreign tokens, which are not modelled.
- UserParameterService.AddParameter keeps the code as written (UserParameterService.BuildUserParameter). UserService.AddUser passes no update, and there the two builds agree.
- The `exp` claim is whole seconds. The sub-second part of `datetime.now()` is not modelled, nor the naive `utcnow()` in token_master.py.
- UuidText.Parse: refuses some text that `uuid.UUID` accepts. `uuid.UUID` removes every `urn:` and `uuid:` anywhere in the text, not only at the start. `int(..., 16)` also accepts a `0x` prefix, a sign, underscores between digits, surrounding whitespace and non-ASCII Unicode digits.
- `Users.get` (a lookup of the user table by id) stands as map lookup. `save()` stands as Store.Session.SaveUser.
- The row surrogate `id` of `UserParameter` and the `time_created`/`time_updated` timestamps of both tables are generated values and are not modelled.
- When `add_parameter` is given an update, pydantic reports every `None` field. The model names only the first field, in declaration order.
- `add_parameter` returns whatever `add_user_parameters` returns, which is `None`. The model returns only success or the error.
- The GET route `get_user_params_by_user_id` (app/routers/user_parameters_route.py:20-30) returns `None` for a missing row, and FastAPI's response validation then fails. The model covers only the lookup.
- FastAPI wiring is not part of this model: routing, dependency injection, `HTTPException` construction and response models. The outcomes are result datatypes. The login route answers 404 for an unknown username before `authenticate_user` runs (app/routers/user_auth_route.py:28-34). The scope list `scopes=["admin"]` requested at app/routers/user_auth_route.py:61 is never checked.
- `oauth2_scopes` (documentation strings, with `"admin"` rather than `"admin:all"`) and app/models/constants.py are not part of this model.
- Not part of this model: SQL statements, sessions, flush/commit ordering and async execution. Each service operation runs as one sequential step, and it either completes or leaves both tables unchanged.
- Configuration loading (app/config.py) is not part of this model. `Settings` carries the key, the algorithm and the expiry minutes.
- Email format validation (`EmailStr`) is not modelled. Only the 255-character column bound is.
- app/services/base.py (the data managers' `add_one`/`get_one`) is not part of this model. Those calls stand as inserts into and lookups in the maps.
