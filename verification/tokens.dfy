/** The bearer token the authentication controllers issue: its claims, issuer,
    audience, expiry and signing credentials. Signing with HMAC-SHA-256 (JWS "HS256",
    section 3.2 of RFC 7518) and the compact serialisation (section 7.1 of RFC 7515)
    are done by a token writer that this model treats as an opaque function. */
module Tokens {
  import opened Wrappers
  import opened Clock
  import opened Users

  /** Registered claim names of section 4.1 of RFC 7519. */
  const Sub := "sub"
  const Jti := "jti"
  /** ClaimTypes.Role. */
  const RoleClaimType := "http://schemas.microsoft.com/ws/2008/06/identity/claims/role"
  /** SecurityAlgorithms.HmacSha256. */
  const HmacSha256 := "HS256"
  const TokenLifetimeMinutes := 30

  datatype Claim = Claim(claimType: string, value: string)

  datatype SigningCredentials = SigningCredentials(secret: string, algorithm: string)

  datatype JwtSecurityToken = JwtSecurityToken(
    issuer: string,
    audience: string,
    claims: seq<Claim>,
    expires: int,
    signingCredentials: SigningCredentials)

  /** The "Jwt:Issuer", "Jwt:Audience" and "Jwt:Secret" settings read at construction. */
  datatype JwtConfig = JwtConfig(issuer: string, audience: string, secret: string)

  /** JwtSecurityTokenHandler.WriteToken: signs and serialises a token. */
  datatype TokenHandler = TokenHandler(writeToken: JwtSecurityToken -> string)

  /** The value of the first claim of type `claimType`, if any. */
  function ClaimValue(claims: seq<Claim>, claimType: string): (r: Option<string>)
    ensures r.Some? <==> exists c :: c in claims && c.claimType == claimType
    ensures r.Some? ==> Claim(claimType, r.value) in claims
    decreases |claims|
  {
    if claims == [] then None
    else if claims[0].claimType == claimType then Some(claims[0].value)
    else
      var r := ClaimValue(claims[1..], claimType);
      assert forall c :: c in claims[1..] ==> c in claims;
      r
  }

  /** The token minted for `user` at instant `now` with the fresh identifier `jti`:
      exactly three claims (subject, token id, role), the configured issuer and
      audience, an expiry thirty minutes after issuance and HS256 over the secret. */
  function GenerateJwtToken(config: JwtConfig, user: User, jti: string, now: int): (t: JwtSecurityToken)
    ensures |t.claims| == 3
    ensures forall c :: c in t.claims ==> c.claimType in {Sub, Jti, RoleClaimType}
    ensures ClaimValue(t.claims, Sub) == Some(user.username)
    ensures ClaimValue(t.claims, Jti) == Some(jti)
    ensures ClaimValue(t.claims, RoleClaimType) == Some(user.role)
    ensures t.issuer == config.issuer && t.audience == config.audience
    ensures t.expires - now == TokenLifetimeMinutes * TicksPerMinute
    ensures t.signingCredentials == SigningCredentials(config.secret, HmacSha256)
  {
    var claims := [
      Claim(Sub, user.username),
      Claim(Jti, jti),
      Claim(RoleClaimType, user.role)
    ];
    JwtSecurityToken(config.issuer, config.audience, claims,
                     now + TokenLifetimeMinutes * TicksPerMinute,
                     SigningCredentials(config.secret, HmacSha256))
  }

  /** Nothing stored beside the username and role, the encrypted social security
      number and the password hash included, reaches the token. */
  lemma TokenIgnoresSecrets(config: JwtConfig, user: User, other: User, jti: string, now: int)
    requires user.username == other.username && user.role == other.role
    ensures GenerateJwtToken(config, user, jti, now) == GenerateJwtToken(config, other, jti, now)
  {
  }
}
