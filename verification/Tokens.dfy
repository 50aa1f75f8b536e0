/** Signing and verifying the service's JWTs (pkg/auth/jwt.go), and the bearer check
    (pkg/auth/middleware.go). A token is what it decodes to: the algorithm and key it was
    signed with, and its claims. */
module Tokens {
  import opened Ttl
  import Blacklist

  datatype Alg = HS256 | OtherAlg

  datatype Claims = Claims(id: string, subject: string, issuer: string, audience: string,
                           issuedAt: int, notBefore: int, expiresAt: int, tokenType: string)

  datatype Token = Token(alg: Alg, key: string, claims: Claims)

  datatype Config = Config(secret: string, issuer: string, audience: string, expiry: int)

  /** JWT dates are whole seconds, rounded down. */
  function NumericDate(t: int): int {
    t - t % SECOND
  }

  /** `d` is the whole second in which `t` falls. */
  predicate IsDate(d: int, t: int) {
    d % SECOND == 0 && d <= t < d + SECOND
  }

  predicate WeakSecret(cfg: Config) { |cfg.secret| < 32 }

  function Lifetime(cfg: Config): int {
    if cfg.expiry == 0 then 24 * HOUR else cfg.expiry
  }

  predicate Verifies(t: Token, cfg: Config, now: int) {
    && !WeakSecret(cfg)
    && t.alg == HS256 && t.key == cfg.secret
    && t.claims.issuer == cfg.issuer && t.claims.audience == cfg.audience
    && t.claims.issuedAt <= now && t.claims.notBefore <= now < t.claims.expiresAt
  }

  /** A new token with the id `jti`, drawn at random; none under a weak secret. */
  function Sign(subject: string, tokenType: string, cfg: Config, now: int, jti: string): (r: Option<Token>)
    ensures r.None? <==> |cfg.secret| < 32
    ensures r.Some? ==>
              var c := r.value.claims;
              && c.id == jti && c.subject == subject && c.tokenType == tokenType
              && IsDate(c.issuedAt, now) && IsDate(c.notBefore, now) && IsDate(c.expiresAt, now + Lifetime(cfg))
              && (forall later :: Verifies(r.value, cfg, later) <==> c.notBefore <= later < c.expiresAt)
  {
    if WeakSecret(cfg) then None
    else Some(Token(HS256, cfg.secret,
                    Claims(jti, subject, cfg.issuer, cfg.audience, NumericDate(now), NumericDate(now),
                           NumericDate(now + Lifetime(cfg)), tokenType)))
  }

  /** The claims a request passes on with, if the middleware lets it; `bearer` is None without
      a Bearer header. */
  function Admitted(bearer: Option<Token>, cfg: Config, revoked: map<string, int>, now: int): Option<Claims> {
    if bearer.None? || !Verifies(bearer.value, cfg, now) then None
    else
      var c := bearer.value.claims;
      if c.tokenType != "" && c.tokenType != "access" then None
      else if Blacklist.Refused(revoked, c.id, now) then None
      else Some(c)
  }

  method Middleware(bearer: Option<Token>, cfg: Config, bl: Blacklist.MemoryBlacklist, now: int)
    returns (r: Option<Claims>)
    requires bl.Valid() && bl.clock <= now
    modifies bl
    ensures bl.Valid() && bl.ideal == old(bl.ideal) && bl.clock <= now
    ensures r == Admitted(bearer, cfg, bl.ideal, now)
  {
    if bearer.None? {
      return None;
    }
    if !Verifies(bearer.value, cfg, now) {
      return None;
    }
    var claims := bearer.value.claims;
    if claims.tokenType != "" && claims.tokenType != "access" {
      return None;
    }
    if claims.id != "" {
      var revoked := bl.IsRevoked(claims.id, now);
      if revoked {
        return None;
      }
    }
    r := Some(claims);
  }
}
