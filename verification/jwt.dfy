/**
 * A symbolic stand-in for the JWT libraries (PyJWT and python-jose): a token
 * is either a payload signed under a key and an algorithm, or text that is not
 * a well-formed signed token. Decoding checks the signature by comparing key
 * and algorithm, and the `exp` claim against the current time.
 */
module Jwt {
  import opened Wrappers

  /** A claim value: a string, or a numeric date in seconds (what an encoded `datetime` becomes). */
  datatype Claim = Text(text: string) | NumericDate(seconds: int)

  type Claims = map<string, Claim>

  datatype Token = Signed(claims: Claims, key: string, algorithm: string) | Malformed(raw: string)

  /** The library errors, all of them subclasses of the library's base error. */
  datatype JwtError = DecodeFailed | BadSignature | Expired | InvalidExpiry

  /**
   * The decoding library, which decides the `exp` boundary: PyJWT (used by
   * app/services/auth_service.py) refuses a token from the second `exp` on,
   * python-jose (used by app/security/token_master.py) only once that second
   * has passed.
   */
  datatype Library = PyJwt | PythonJose

  /** The library considers a token with this `exp` expired at `now`. */
  predicate PastExpiry(lib: Library, exp: int, now: int)
  {
    match lib
    case PyJwt => exp <= now
    case PythonJose => exp < now
  }

  /** The token is still acceptable at `now`: no `exp`, or a numeric `exp` the library does not consider past. */
  predicate NotExpired(lib: Library, claims: Claims, now: int)
  {
    "exp" in claims ==> claims["exp"].NumericDate? && !PastExpiry(lib, claims["exp"].seconds, now)
  }

  function Encode(claims: Claims, key: string, algorithm: string): (t: Token)
  {
    Signed(claims, key, algorithm)
  }

  function Decode(lib: Library, t: Token, key: string, algorithm: string, now: int): (r: Result<Claims, JwtError>)
    ensures r.Ok? ==> t == Encode(r.value, key, algorithm) && NotExpired(lib, r.value, now)
  {
    match t
    case Malformed(_) => Err(DecodeFailed)
    case Signed(claims, k, a) =>
      if k != key || a != algorithm then Err(BadSignature)
      else if "exp" in claims && !claims["exp"].NumericDate? then Err(InvalidExpiry)
      else if "exp" in claims && PastExpiry(lib, claims["exp"].seconds, now) then Err(Expired)
      else Ok(claims)
  }

  /** Decoding undoes encoding while the token has not expired, and fails for any other key or algorithm. */
  lemma DecodeEncode(lib: Library, claims: Claims, key: string, algorithm: string, now: int, key': string, algorithm': string)
    ensures Decode(lib, Encode(claims, key, algorithm), key', algorithm', now)
         == if key' == key && algorithm' == algorithm && NotExpired(lib, claims, now) then Ok(claims)
            else if key' != key || algorithm' != algorithm then Err(BadSignature)
            else if claims["exp"].NumericDate? then Err(Expired) else Err(InvalidExpiry)
  {
  }

  /** At the second `exp` itself PyJWT already refuses the token and python-jose still accepts it. */
  lemma ExpiryBoundary(claims: Claims, key: string, algorithm: string, exp: int)
    requires "exp" in claims && claims["exp"] == NumericDate(exp)
    ensures Decode(PyJwt, Encode(claims, key, algorithm), key, algorithm, exp) == Err(Expired)
    ensures Decode(PythonJose, Encode(claims, key, algorithm), key, algorithm, exp) == Ok(claims)
    ensures Decode(PythonJose, Encode(claims, key, algorithm), key, algorithm, exp + 1) == Err(Expired)
  {
  }
}
