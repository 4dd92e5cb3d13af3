/**
  The two cryptographic libraries the backend calls, as oracles. `jsonwebtoken` is a pair
  of functions fixed by the process's `JWT_SECRET`; `bcrypt` is a hash and a comparison.
  What the libraries guarantee is stated as the ghost predicates `SoundJwt` and
  `SoundBcrypt`, which lemmas take as hypotheses. Time is whole seconds since the epoch.
 */
module Crypto {
  import opened Common

  /** The JWT payload `generateAuthToken` signs: the user's `_id`, and the `iat`/`exp`
      registered claims that `expiresIn` adds (section 4.1.4 of RFC 7519). */
  datatype Claims = Claims(id: Id, iat: nat, exp: nat)

  /** `jwt.sign` and the signature check of `jwt.verify`, both under `JWT_SECRET`.
      `decode` yields `None` when the signature does not match or the token is malformed. */
  datatype Jwt = Jwt(sign: Claims -> string, decode: string -> Option<Claims>)

  /** A compact JWS token: non-empty and free of spaces (base64url parts joined by dots). */
  predicate IsCompactToken(t: string) {
    t != "" && ' ' !in t
  }

  /** What the JWT library guarantees: a signed payload decodes back to itself, and signed
      tokens are in compact form. */
  ghost predicate SoundJwt(j: Jwt) {
    forall c :: j.decode(j.sign(c)) == Some(c) && IsCompactToken(j.sign(c))
  }

  /** `expiresIn: '24h'`, in seconds. */
  const TokenLifetime: nat := 24 * 60 * 60

  /** `generateAuthToken`: signs `{_id}` with an expiry 24 hours after `now`. */
  function IssueToken(j: Jwt, id: Id, now: nat): string {
    j.sign(Claims(id, now, now + TokenLifetime))
  }

  datatype VerifyError = InvalidSignature | Expired

  /** `jwt.verify(token, JWT_SECRET)` at time `now`: the signature is checked first, then
      the token counts as expired once `now >= exp`. */
  function VerifyToken(j: Jwt, token: string, now: nat): (r: Result<Claims, VerifyError>)
    ensures r.Ok? ==> j.decode(token) == Some(r.value) && now < r.value.exp
    ensures r == Err(InvalidSignature) <==> j.decode(token).None?
    ensures r == Err(Expired) <==> j.decode(token).Some? && now >= j.decode(token).value.exp
    ensures j.decode(token).Some? && now < j.decode(token).value.exp ==> r == Ok(j.decode(token).value)
  {
    match j.decode(token)
    case None => Err(InvalidSignature)
    case Some(c) => if now >= c.exp then Err(Expired) else Ok(c)
  }

  /** Expiry is permanent: a token expired at one moment stays expired later, and one that
      verifies now verified at every earlier moment. */
  lemma ExpiredStaysExpired(j: Jwt, token: string, now: nat, later: nat)
    requires now <= later
    ensures VerifyToken(j, token, now) == Err(Expired) ==> VerifyToken(j, token, later) == Err(Expired)
    ensures VerifyToken(j, token, later).Ok? ==> VerifyToken(j, token, now) == VerifyToken(j, token, later)
  {
  }

  /** A freshly issued token verifies to its user until 24 hours have passed, and is expired
      from then on. */
  lemma IssuedTokenLifetime(j: Jwt, id: Id, issuedAt: nat, now: nat)
    requires SoundJwt(j)
    ensures now < issuedAt + TokenLifetime ==>
              VerifyToken(j, IssueToken(j, id, issuedAt), now).Ok? &&
              VerifyToken(j, IssueToken(j, id, issuedAt), now).value.id == id
    ensures now >= issuedAt + TokenLifetime ==>
              VerifyToken(j, IssueToken(j, id, issuedAt), now) == Err(Expired)
  {
    var c := Claims(id, issuedAt, issuedAt + TokenLifetime);
    assert j.decode(j.sign(c)) == Some(c);
  }

  /** `bcrypt.hash(data, cost)` with the random salt made a parameter, and
      `bcrypt.compare(data, digest)`. */
  datatype Bcrypt = Bcrypt(hash: (string, nat, string) -> string, compare: (string, string) -> bool)

  /** What bcrypt guarantees: data always matches its own digest, whatever cost and salt. */
  ghost predicate SoundBcrypt(b: Bcrypt) {
    forall data, cost, salt :: b.compare(data, b.hash(data, cost, salt))
  }

  /** The cost factor `hashedPassword` passes to bcrypt. */
  const HashCost: nat := 10

  /** `hashedPassword`: the password with the `SALT` pepper appended, hashed at cost 10. */
  function HashedPassword(b: Bcrypt, pepper: string, password: string, salt: string): string {
    b.hash(password + pepper, HashCost, salt)
  }

  /** `comparePassword`: appends the same pepper before comparing with the stored digest. */
  function ComparePassword(b: Bcrypt, pepper: string, password: string, digest: string): bool {
    b.compare(password + pepper, digest)
  }

  /** A password matches the digest `hashedPassword` made of it. */
  lemma PasswordMatchesOwnDigest(b: Bcrypt, pepper: string, password: string, salt: string)
    requires SoundBcrypt(b)
    ensures ComparePassword(b, pepper, password, HashedPassword(b, pepper, password, salt))
  {
  }
}
