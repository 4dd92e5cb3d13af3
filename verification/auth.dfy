/**
  The `authUser` middleware: a short-circuiting sequence of four checks over the
  Authorization header, the token blacklist, the JWT library and the user collection.
  It only reads: it returns an outcome and no new state.
 */
module AuthGate {
  import opened Common
  import opened Text
  import opened Crypto
  import opened Users
  import opened Db

  /** The token of a `Bearer` header: the header must start with "Bearer", and the token is
      the second piece of `split(" ")`. A missing header, a missing piece or an empty piece
      all count as no token, since the middleware tests the piece for truthiness. */
  function ExtractToken(header: Option<string>): (t: Option<string>)
    ensures t.Some? ==> t.value != "" && ' ' !in t.value
    ensures t.Some? ==> header.Some? && StartsWith(header.value, "Bearer")
  {
    if header.None? || !StartsWith(header.value, "Bearer") then None
    else
      match Field(header.value, 1)
      case None => None
      case Some(piece) =>
        SplitPiecesSpaceFree(header.value);
        assert piece in Split(header.value);
        if piece == "" then None else Some(piece)
  }

  /** The header a client sends for a token, which the gate reads back. */
  lemma ExtractBearerToken(token: string)
    requires IsCompactToken(token)
    ensures ExtractToken(Some("Bearer " + token)) == Some(token)
  {
    assert ' ' !in "Bearer";
    SecondFieldOfJoined("Bearer", token);
    assert "Bearer" + " " + token == "Bearer " + token;
    assert ("Bearer " + token)[..6] == "Bearer";
  }

  /** Why the gate answers 401. */
  datatype Denial = NoToken | Blacklisted | InvalidOrExpired | UserNotFound

  /** `next()` with `req.user` set, or a 401. */
  datatype Outcome = Next(user: UserDoc) | Deny(reason: Denial)

  /** The id a token proves, when it verifies at time `now`. */
  function TokenSubject(jwt: Jwt, token: string, now: nat): Option<Id> {
    match VerifyToken(jwt, token, now)
    case Ok(c) => Some(c.id)
    case Err(_) => None
  }

  /** `authUser`. The blacklist is consulted before the token is verified; a verification
      failure, and a subject that cannot be cast to an ObjectId (the `findById` inside the
      `try` throws), both give "expired or invalid"; a subject with no user record gives
      "user not found". */
  function AuthUser(header: Option<string>, blacklist: set<string>, users: map<Id, User>, jwt: Jwt, now: nat): (r: Outcome)
    ensures r.Next? <==>
              && ExtractToken(header).Some?
              && ExtractToken(header).value !in blacklist
              && TokenSubject(jwt, ExtractToken(header).value, now).Some?
              && IsObjectId(TokenSubject(jwt, ExtractToken(header).value, now).value)
              && CastId(TokenSubject(jwt, ExtractToken(header).value, now).value) in users
    ensures r.Next? ==>
              var id := CastId(TokenSubject(jwt, ExtractToken(header).value, now).value);
              r.user == Read(id, users[id]) && r.user.password.None?
  {
    match ExtractToken(header)
    case None => Deny(NoToken)
    case Some(token) =>
      if token in blacklist then Deny(Blacklisted)
      else
        match VerifyToken(jwt, token, now)
        case Err(_) => Deny(InvalidOrExpired)
        case Ok(claims) =>
          if !IsObjectId(claims.id) then Deny(InvalidOrExpired)
          else if CastId(claims.id) !in users then Deny(UserNotFound)
          else Next(Read(CastId(claims.id), users[CastId(claims.id)]))
  }

  /** The 401 body for each denial. */
  function DenialResponse(d: Denial): (r: Response)
    ensures r.status == 401
  {
    var text := match d
      case NoToken => "Not authorized, no token"
      case Blacklisted => "Not authorized, token blacklisted"
      case InvalidOrExpired => "Not authorized, token expired or invalid"
      case UserNotFound => "Not authorized, user not found";
    Reply(401, Message(text))
  }

  /** A missing header, or one not starting with "Bearer", gives "no token". */
  lemma MissingOrForeignHeaderDenied(header: Option<string>, blacklist: set<string>, users: map<Id, User>, jwt: Jwt, now: nat)
    requires header.None? || !StartsWith(header.value, "Bearer")
    ensures AuthUser(header, blacklist, users, jwt, now) == Deny(NoToken)
  {
  }

  /** A header of exactly "Bearer" splits into one piece, so there is no token. */
  lemma BareBearerDenied(blacklist: set<string>, users: map<Id, User>, jwt: Jwt, now: nat)
    ensures AuthUser(Some("Bearer"), blacklist, users, jwt, now) == Deny(NoToken)
  {
    assert IndexOf("Bearer", ' ') == 6;
    assert Split("Bearer") == ["Bearer"];
  }

  /** A blacklisted token is refused whatever the signature, expiry or user store: the
      outcome does not depend on the JWT library or the clock. */
  lemma BlacklistCheckedFirst(header: Option<string>, blacklist: set<string>, users: map<Id, User>, jwt1: Jwt, now1: nat, jwt2: Jwt, now2: nat)
    requires ExtractToken(header).Some? && ExtractToken(header).value in blacklist
    ensures AuthUser(header, blacklist, users, jwt1, now1) == Deny(Blacklisted)
    ensures AuthUser(header, blacklist, users, jwt1, now1) == AuthUser(header, blacklist, users, jwt2, now2)
  {
  }

  /** A present, unrevoked token that fails verification (bad signature or expired) gives
      "expired or invalid". */
  lemma UnverifiedTokenDenied(header: Option<string>, blacklist: set<string>, users: map<Id, User>, jwt: Jwt, now: nat)
    requires ExtractToken(header).Some? && ExtractToken(header).value !in blacklist
    requires VerifyToken(jwt, ExtractToken(header).value, now).Err?
    ensures AuthUser(header, blacklist, users, jwt, now) == Deny(InvalidOrExpired)
  {
  }

  /** A verified token whose subject has no user record gives "user not found". */
  lemma UnknownSubjectDenied(header: Option<string>, blacklist: set<string>, users: map<Id, User>, jwt: Jwt, now: nat)
    requires ExtractToken(header).Some? && ExtractToken(header).value !in blacklist
    requires TokenSubject(jwt, ExtractToken(header).value, now).Some?
    requires IsObjectId(TokenSubject(jwt, ExtractToken(header).value, now).value)
    requires CastId(TokenSubject(jwt, ExtractToken(header).value, now).value) !in users
    ensures AuthUser(header, blacklist, users, jwt, now) == Deny(UserNotFound)
  {
  }

  /** A token issued for a stored user is accepted, with that user as `req.user`, for
      24 hours, and refused as expired from then on. */
  lemma IssuedTokenAdmits(jwt: Jwt, users: map<Id, User>, blacklist: set<string>, id: Id, issuedAt: nat, now: nat)
    requires SoundJwt(jwt)
    requires IsCanonicalId(id) && id in users
    requires IssueToken(jwt, id, issuedAt) !in blacklist
    ensures var header := Some("Bearer " + IssueToken(jwt, id, issuedAt));
            now < issuedAt + TokenLifetime ==>
              AuthUser(header, blacklist, users, jwt, now) == Next(Read(id, users[id]))
    ensures var header := Some("Bearer " + IssueToken(jwt, id, issuedAt));
            now >= issuedAt + TokenLifetime ==>
              AuthUser(header, blacklist, users, jwt, now) == Deny(InvalidOrExpired)
  {
    var token := IssueToken(jwt, id, issuedAt);
    var c := Claims(id, issuedAt, issuedAt + TokenLifetime);
    assert jwt.decode(jwt.sign(c)) == Some(c) && IsCompactToken(jwt.sign(c));
    ExtractBearerToken(token);
    CanonicalIsObjectId(id);
    IssuedTokenLifetime(jwt, id, issuedAt, now);
  }
}
