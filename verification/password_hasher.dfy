/**
 * A symbolic stand-in for the Argon2 password hasher (argon2-cffi's
 * `PasswordHasher`). A credential records the salt drawn at hashing time and
 * the secret it was derived from; only `Verify` looks inside it, so the model
 * treats the hash as ideal: it matches exactly the secret it was made from.
 */
module PasswordHasher {
  import opened Wrappers

  datatype Credential = Argon2(salt: nat, secret: string) | Corrupt(encoded: string)

  /** The exceptions `PasswordHasher.verify` raises. */
  datatype HashError = VerifyMismatch | InvalidHash

  /** `ph.hash(password)`; the random salt is a parameter. */
  function Hash(password: string, salt: nat): (c: Credential)
    ensures c.Argon2?
  {
    Argon2(salt, password)
  }

  /** `ph.verify(hash, password)`: true on a match; a mismatch or an unreadable hash raises. */
  function Verify(hashed: Credential, password: string): (r: Result<bool, HashError>)
    ensures r.Ok? ==> r.value
    ensures hashed.Corrupt? ==> r == Err(InvalidHash)
  {
    match hashed
    case Corrupt(_) => Err(InvalidHash)
    case Argon2(_, secret) => if secret == password then Ok(true) else Err(VerifyMismatch)
  }

  /**
   * The assumed contract of the library: a password verifies against its own
   * hash whatever the salt, two salts give two different encodings, and a hash
   * of one password raises a mismatch for every other password.
   */
  lemma HashContract(password: string, salt: nat, salt': nat, other: string)
    ensures Verify(Hash(password, salt), password) == Ok(true)
    ensures salt != salt' ==> Hash(password, salt) != Hash(password, salt')
    ensures other != password ==> Verify(Hash(password, salt), other) == Err(VerifyMismatch)
  {
  }
}
