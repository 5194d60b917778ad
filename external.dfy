/** The libraries the routes call but whose internals are not modelled:
    the e-mail validator, bcrypt and the JSON Web Token library. Each is a
    function value; the few facts the routes rely on are stated as predicates
    over them and are taken as hypotheses by the lemmas that need them. */
module External {
  import opened Records

  /** `expiresIn: "24h"`, in seconds. */
  const TokenLifetime: int := 24 * 60 * 60

  datatype Services = Services(
    // express-validator `isEmail()`
    isEmail: string -> bool,
    // `bcrypt.hash(password, 10)`; the random salt is folded into the function
    hash: string -> string,
    // `bcrypt.compare(password, digest)`
    compare: (string, string) -> bool,
    // `jwt.sign(payload, JWT_SECRET)`
    sign: Claims -> string,
    // `jwt.verify(token, JWT_SECRET)` at clock time `now` (seconds); None when it throws
    verify: (string, int) -> Option<Claims>)

  /** A password matches its own digest. */
  ghost predicate HashSound(s: Services)
  {
    forall p :: s.compare(p, s.hash(p))
  }

  /** A signed payload verifies, as itself, exactly until its expiry time. */
  ghost predicate TokensSound(s: Services)
  {
    forall c, now :: s.verify(s.sign(c), now) == if now < c.exp then Some(c) else None
  }

  /** The payload `jwt.sign({ userId }, secret, { expiresIn: "24h" })` signs at time `now`. */
  function IssueClaims(userId: Id, now: int): (c: Claims)
    ensures c.userId == userId && c.iat == now && c.exp == now + TokenLifetime
  {
    Claims(userId, now, now + TokenLifetime)
  }
}
