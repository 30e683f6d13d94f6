/**
 * JWT payloads as the service builds and reads them. Signing is done by the JWT
 * library: it is an opaque function of the payload that may fail. Signature and expiry
 * checks happen in the library before a payload reaches the strategy, and are not modelled.
 */
module Tokens {
  import opened Outcomes
  import opened UserEntity

  /** The `duoVerified` claim as it arrives in a decoded payload: absent, a boolean, or anything else. */
  datatype Claim = Absent | BoolClaim(b: bool) | OtherClaim

  datatype JwtPayload = JwtPayload(sub: Id, username: string, email: string, duoVerified: Claim)

  /** JwtService: `sign` returns the compact token, or fails. */
  datatype JwtService = JwtService(sign: JwtPayload -> Result<string>)

  /** `payload.duoVerified === true`: only the boolean true counts. */
  predicate ClaimsDuoVerified(c: Claim) {
    c == BoolClaim(true)
  }

  /** The payload generateJwtToken signs: subject, username and email, and no duoVerified claim. */
  function PayloadFor(u: User): (p: JwtPayload)
    ensures p.sub == u.id && p.username == u.username && p.email == u.email
    ensures p.duoVerified == Absent
    ensures !ClaimsDuoVerified(p.duoVerified)
  {
    JwtPayload(u.id, u.username, u.email, Absent)
  }

  /** The payload depends on the key, username and email only: the Duo flags never reach the token. */
  lemma PayloadIgnoresFlags(u: User, v: User)
    requires u.id == v.id && u.username == v.username && u.email == v.email
    ensures PayloadFor(u) == PayloadFor(v)
  {
  }
}
