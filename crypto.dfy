/**
 * The two cryptographic libraries the middleware calls, as abstract primitives.
 *
 * bcrypt (`hashPassword` in backend/utils.ts, `bcrypt.compare` in
 * backend/middleware.ts) and jsonwebtoken (`jwt.sign`, `jwt.verify`) are
 * represented by a record of total functions. Nothing is assumed about them
 * except the laws collected in `Sound`, which every lemma that needs them
 * takes as a precondition.
 */
module Crypto {
  import opened Wrappers

  /** The payload signed into a session token (backend/types.ts): the user's
      name and, in the field the source calls `password`, the bcrypt hash of
      the password. The `iat`/`exp` timestamps are carried by the token. */
  datatype Claim = Claim(username: string, password: string)

  /**
   * hash(password, salt)            bcrypt.hash with a freshly generated salt
   * compare(password, hashed)      bcrypt.compare
   * sign(claim, secret, iat, ttl)   jwt.sign issued at clock time `iat`, valid for `ttl`
   * verify(token, secret, now)      jwt.verify at clock time `now`; None where it throws
   */
  datatype Primitives = Primitives(
    hash: (string, string) -> string,
    compare: (string, string) -> bool,
    sign: (Claim, string, int, nat) -> string,
    verify: (string, string, int) -> Option<Claim>)

  /** A password always matches a hash made of it, whatever the salt. */
  ghost predicate HashSound(c: Primitives)
  {
    forall pw, salt :: c.compare(pw, c.hash(pw, salt))
  }

  /** A token verifies, under the secret it was signed with, to the claim it
      was signed over for as long as it has not expired. */
  ghost predicate TokenSound(c: Primitives)
  {
    forall claim: Claim, secret: string, iat: int, ttl: nat, now: int ::
      iat <= now < iat + ttl ==> c.verify(c.sign(claim, secret, iat, ttl), secret, now) == Some(claim)
  }

  /** Once its lifetime has elapsed, a token no longer verifies. */
  ghost predicate TokenExpires(c: Primitives)
  {
    forall claim: Claim, secret: string, iat: int, ttl: nat, now: int ::
      iat + ttl <= now ==> c.verify(c.sign(claim, secret, iat, ttl), secret, now) == None
  }

  ghost predicate Sound(c: Primitives)
  {
    HashSound(c) && TokenSound(c) && TokenExpires(c)
  }
}
