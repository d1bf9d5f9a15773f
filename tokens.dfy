/** JSON web tokens, modelled symbolically (utils/jwt.js). A token is the
    signed payload itself: verifying it under a secret succeeds exactly when it
    was signed with that secret, so forgery is impossible by construction. */
module Tokens {
  import opened Outcomes

  type UserId = nat

  datatype Role = AdminRole | UserRole

  /** The secret a token was signed with: the access secret (`JWT_SECRET`),
      the refresh secret (`REFRESHER_SECRET`), or anything else (a forged or
      malformed token). */
  datatype Secret = AccessSecret | RefreshSecret | OtherSecret

  /** The payload `{ id, role }` every token carries. */
  datatype Claims = Claims(id: UserId, role: Role)

  /** A signed token; `issuedAt` is the `iat` claim in whole seconds. */
  datatype Jwt = Jwt(secret: Secret, claims: Claims, issuedAt: nat)

  /** Access tokens expire one hour after issue; refresh tokens never do. */
  const AccessLifetime: nat := 3600

  /** The pair `signToken` produces at `now` (milliseconds): the access token,
      which goes into the `authorization` cookie, and the refresh token, which
      is stored as a Refresher record and returned in the body. */
  datatype Issued = Issued(access: Jwt, refresher: Jwt)

  function SignToken(now: nat, claims: Claims): (r: Issued)
    ensures r.access.secret == AccessSecret && r.refresher.secret == RefreshSecret
    ensures r.access.claims == claims && r.refresher.claims == claims
    ensures r.access.issuedAt * 1000 <= now < (r.access.issuedAt + 1) * 1000
  {
    Issued(Jwt(AccessSecret, claims, now / 1000), Jwt(RefreshSecret, claims, now / 1000))
  }

  /** `verifyToken(token, refresh)`: the payload, or `None` where the library
      throws (wrong secret, or an access token whose hour has passed). */
  function VerifyToken(token: Jwt, refresh: bool, now: nat): (r: Option<Claims>)
    ensures r.Some? ==> r.value == token.claims
    ensures r.Some? <==> token.secret == (if refresh then RefreshSecret else AccessSecret) &&
                         (!refresh ==> now / 1000 < token.issuedAt + AccessLifetime)
  {
    if refresh then
      if token.secret == RefreshSecret then Some(token.claims) else None
    else if token.secret == AccessSecret && now / 1000 < token.issuedAt + AccessLifetime then
      Some(token.claims)
    else None
  }

  /** A freshly signed access token verifies for the whole hour after it is
      issued, and no longer. */
  lemma AccessTokenWindow(now: nat, claims: Claims, later: nat)
    requires now <= later
    ensures VerifyToken(SignToken(now, claims).access, false, later) == Some(claims)
            <==> later / 1000 < now / 1000 + AccessLifetime
  {
  }

  /** A refresh token verifies at any later time, and only under the refresh
      secret: nothing in the token itself limits how often it is used. */
  lemma RefreshTokenNeverExpires(now: nat, claims: Claims, later: nat)
    ensures VerifyToken(SignToken(now, claims).refresher, true, later) == Some(claims)
    ensures VerifyToken(SignToken(now, claims).refresher, false, later).None?
    ensures VerifyToken(SignToken(now, claims).access, true, later).None?
  {
  }
}
