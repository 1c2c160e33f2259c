/**
 * The credential collaborators of the server: a JSON Web Token signer and
 * verifier bound to the server secret, and the bcrypt password hasher. Their
 * cryptography is not modelled; each is a pair of functions, and `Sound`
 * states the one law the rest of the system relies on.
 */
module Identity {
  import opened Wrappers
  import opened Types

  /**
   * `jwt.sign(claims, secret, { expiresIn })` and `jwt.verify(token, secret)`.
   * `verify` yields `None` where the library throws (bad signature, expired,
   * malformed or empty token).
   */
  datatype Jwt = Jwt(sign: (JwtPayload, string) -> string, verify: string -> Option<JwtPayload>)

  /**
   * A freshly signed token verifies to the claims it was signed with (the
   * clock is not modelled, so "fresh" means "not yet expired"), and the empty
   * string never verifies.
   */
  ghost predicate SoundJwt(jwt: Jwt) {
    && (forall claims: JwtPayload, lifetime: string :: jwt.verify(jwt.sign(claims, lifetime)) == Some(claims))
    && jwt.verify("") == None
  }

  /** `bcrypt.hash(password, rounds)` and `bcrypt.compare(password, hash)`. */
  datatype Bcrypt = Bcrypt(hash: string -> string, compare: (string, string) -> bool)

  /** A password matches its own hash. */
  ghost predicate SoundBcrypt(bcrypt: Bcrypt) {
    forall password: string :: bcrypt.compare(password, bcrypt.hash(password))
  }
}
