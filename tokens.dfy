/**
 * The token service: access and refresh tokens as signed, time-bounded
 * claim sets. A token is modelled by what it carries (its claims, the
 * secret it was signed with, its `iat` and `exp`); the HMAC signature and
 * the base64url/JSON serialization are not modelled, so "the signature
 * verifies against secret k" is "the token was signed with k". Times are
 * whole seconds, as jsonwebtoken computes them.
 */
module Tokens {
  import opened Common

  const AccessSecretDefault: string := "propelize-secret-key-2024"
  const RefreshSecretDefault: string := "propelize-refresh-secret-key-2024"

  /** '15m' and '7d', in seconds. */
  const AccessLifetime: int := 15 * 60
  const RefreshLifetime: int := 7 * 24 * 60 * 60

  /** The `expiresIn` figure every token pair reports. */
  const PairExpiresIn: int := 900

  /** The two signing secrets, fixed when the process starts. */
  datatype Secrets = Secrets(access: string, refresh: string)

  const DefaultSecrets: Secrets := Secrets(AccessSecretDefault, RefreshSecretDefault)

  /**
   * A token payload. Access tokens carry `role` and no `type`; refresh
   * tokens carry `type` and no `role`.
   */
  datatype Claims = Claims(id: int, email: string, role: Option<Role>, kind: Option<string>)

  /** A signed token; `expiresAt` is absent for a token signed without `exp`. */
  datatype Token = Token(claims: Claims, secret: string, issuedAt: int, expiresAt: Option<int>)

  /** The single error each verifier throws, whatever went wrong. */
  datatype TokenError = InvalidAccessToken | InvalidRefreshToken {
    function Message(): string {
      match this
      case InvalidAccessToken => "Token d'accès invalide"
      case InvalidRefreshToken => "Token de rafraîchissement invalide"
    }
  }

  datatype TokenPair = TokenPair(accessToken: Token, refreshToken: Token, expiresIn: int)

  /** `jwt.sign(claims, secret, { expiresIn: lifetime })` at clock `now`. */
  function Sign(claims: Claims, secret: string, now: int, lifetime: int): Token {
    Token(claims, secret, now, Some(now + lifetime))
  }

  /**
   * `jwt.verify(token, secret)`: the claims of a well-formed token signed
   * with `secret` whose expiry, if it has one, is still in the future
   * (section 4.1.4 of RFC 7519). `None` stands for the library throwing;
   * a `None` token is a string that does not decode to a token at all.
   */
  function Verify(token: Option<Token>, secret: string, now: int): Option<Claims> {
    match token
    case None => None
    case Some(t) =>
      if t.secret == secret && (t.expiresAt.None? || now < t.expiresAt.value) then Some(t.claims)
      else None
  }

  function AccessClaims(id: int, email: string, role: Role): Claims {
    Claims(id, email, Some(role), None)
  }

  function RefreshClaims(id: int, email: string): Claims {
    Claims(id, email, None, Some("refresh"))
  }

  function VerifyAccessToken(secrets: Secrets, token: Option<Token>, now: int): (r: Result<Claims, TokenError>)
    ensures r.Err? ==> r.error == InvalidAccessToken
    ensures r.Ok? <==> token.Some? && token.value.secret == secrets.access
                       && (token.value.expiresAt.None? || now < token.value.expiresAt.value)
    ensures r.Ok? ==> r.value == token.value.claims
  {
    match Verify(token, secrets.access, now)
    case Some(c) => Ok(c)
    case None => Err(InvalidAccessToken)
  }

  /** Checks signature and expiry only: the `type` claim is never looked at. */
  function VerifyRefreshToken(secrets: Secrets, token: Option<Token>, now: int): (r: Result<Claims, TokenError>)
    ensures r.Err? ==> r.error == InvalidRefreshToken
    ensures r.Ok? <==> token.Some? && token.value.secret == secrets.refresh
                       && (token.value.expiresAt.None? || now < token.value.expiresAt.value)
    ensures r.Ok? ==> r.value == token.value.claims
  {
    match Verify(token, secrets.refresh, now)
    case Some(c) => Ok(c)
    case None => Err(InvalidRefreshToken)
  }

  /** An access token for the user `id`/`email`/`role`, issued at `now`. */
  function GenerateAccessToken(id: int, email: string, role: Role, secrets: Secrets, now: int): (t: Token)
    ensures forall later :: later < now + AccessLifetime ==>
      VerifyAccessToken(secrets, Some(t), later) == Ok(AccessClaims(id, email, role))
    ensures forall later :: later >= now + AccessLifetime ==>
      VerifyAccessToken(secrets, Some(t), later) == Err(InvalidAccessToken)
  {
    Sign(AccessClaims(id, email, role), secrets.access, now, AccessLifetime)
  }

  /** A refresh token for the user `id`/`email`, issued at `now`. */
  function GenerateRefreshToken(id: int, email: string, secrets: Secrets, now: int): (t: Token)
    ensures forall later :: later < now + RefreshLifetime ==>
      VerifyRefreshToken(secrets, Some(t), later) == Ok(RefreshClaims(id, email))
    ensures forall later :: later >= now + RefreshLifetime ==>
      VerifyRefreshToken(secrets, Some(t), later) == Err(InvalidRefreshToken)
  {
    Sign(RefreshClaims(id, email), secrets.refresh, now, RefreshLifetime)
  }

  function GenerateTokenPair(id: int, email: string, role: Role, secrets: Secrets, now: int): (p: TokenPair)
    ensures p.expiresIn == AccessLifetime
    ensures p.accessToken.expiresAt == Some(now + p.expiresIn)
    ensures VerifyAccessToken(secrets, Some(p.accessToken), now) == Ok(AccessClaims(id, email, role))
    ensures VerifyRefreshToken(secrets, Some(p.refreshToken), now) == Ok(RefreshClaims(id, email))
  {
    TokenPair(GenerateAccessToken(id, email, role, secrets, now),
              GenerateRefreshToken(id, email, secrets, now),
              PairExpiresIn)
  }

  /** The two default secrets differ. */
  lemma DefaultSecretsDistinct()
    ensures DefaultSecrets.access != DefaultSecrets.refresh
  {
    assert AccessSecretDefault[10] != RefreshSecretDefault[10];
  }

  /**
   * With distinct secrets, an access token is never accepted as a refresh
   * token, and a refresh token never as an access token, expired or not.
   */
  lemma TokenClassesSeparated(id: int, email: string, role: Role, secrets: Secrets, issued: int, now: int)
    requires secrets.access != secrets.refresh
    ensures VerifyRefreshToken(secrets, Some(GenerateAccessToken(id, email, role, secrets, issued)), now) == Err(InvalidRefreshToken)
    ensures VerifyAccessToken(secrets, Some(GenerateRefreshToken(id, email, secrets, issued)), now) == Err(InvalidAccessToken)
  {
  }

  lemma DefaultTokenClassesSeparated(id: int, email: string, role: Role, issued: int, now: int)
    ensures VerifyRefreshToken(DefaultSecrets, Some(GenerateAccessToken(id, email, role, DefaultSecrets, issued)), now).Err?
    ensures VerifyAccessToken(DefaultSecrets, Some(GenerateRefreshToken(id, email, DefaultSecrets, issued)), now).Err?
  {
    DefaultSecretsDistinct();
    TokenClassesSeparated(id, email, role, DefaultSecrets, issued, now);
  }

  /**
   * The refresh verifier accepts any unexpired token signed with the
   * refresh secret, whatever its claims say: an access-shaped payload
   * (a role and no `type`) signed with that secret passes.
   */
  lemma RefreshTypeNotChecked(id: int, email: string, role: Role, secrets: Secrets, issued: int, now: int)
    requires now < issued + AccessLifetime
    ensures VerifyRefreshToken(secrets, Some(Sign(AccessClaims(id, email, role), secrets.refresh, issued, AccessLifetime)), now)
            == Ok(AccessClaims(id, email, role))
  {
  }

  /**
   * A wrong secret, an expired token and an undecodable string all give the
   * same failure.
   */
  lemma AccessFailuresIndistinct(secrets: Secrets, forged: Token, stale: Token, now: int)
    requires forged.secret != secrets.access
    requires stale.expiresAt.Some? && now >= stale.expiresAt.value
    ensures VerifyAccessToken(secrets, Some(forged), now) == VerifyAccessToken(secrets, Some(stale), now)
    ensures VerifyAccessToken(secrets, Some(stale), now) == VerifyAccessToken(secrets, None, now)
  {
  }

  /** `expiresIn` is the access lifetime in seconds. */
  lemma ExpiresInIsAccessLifetime()
    ensures PairExpiresIn == AccessLifetime
  {
  }
}
