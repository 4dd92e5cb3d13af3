/**
  The user controller: `register`, `login`, `profile` and `logout`, as transitions on the
  state. The outcome of the express-validator rules (which are not part of this model) is
  the `valid` parameter; the random bcrypt salt, the id MongoDB assigns and the clock are
  parameters too.
 */
module Accounts {
  import opened Common
  import opened Text
  import opened Crypto
  import opened Users
  import opened Db
  import AuthGate

  /** The process configuration: the JWT library under `JWT_SECRET`, bcrypt, and the `SALT`
      pepper (an unset variable concatenates as the text "undefined"). */
  datatype Config = Config(jwt: Jwt, bcrypt: Bcrypt, pepper: string)

  /** The body of `POST /register`. */
  datatype RegisterBody = RegisterBody(fullname: Fullname, email: string, password: string)

  const UserExists := "User already exists"
  const BadCredentials := "Invalid email or password"

  /** The record `register` stores for a body and salt. */
  function NewUser(cfg: Config, body: RegisterBody, salt: string): User {
    User(body.fullname, body.email, HashedPassword(cfg.bcrypt, cfg.pepper, body.password, salt))
  }

  /** `register`. Validation errors answer 400 before the store is read; an address already
      stored answers 400 "User already exists"; a record the schema rejects makes the
      service throw, answered 500; otherwise the user is stored with the peppered bcrypt
      digest, and 201 carries a token for the new id together with the created document. */
  function Register(st: State, cfg: Config, valid: bool, body: RegisterBody, salt: string, newId: Id, now: nat): (r: (Response, State))
    requires newId !in st.users && newId !in st.userOrder
    ensures r.0.status == 201 <==>
              valid && FindByEmail(st.users, st.userOrder, body.email).None? && MeetsSchema(NewUser(cfg, body, salt))
    ensures r.0.status != 201 ==> r.1 == st
    ensures !valid ==> r.0 == Reply(400, ValidationErrors)
    ensures r.0.status == 201 ==>
              && r.1 == st.(users := st.users[newId := NewUser(cfg, body, salt)], userOrder := st.userOrder + [newId])
              && r.0.body == Session(IssueToken(cfg.jwt, newId, now), ReadWithPassword(newId, NewUser(cfg, body, salt)))
  {
    if !valid then (Reply(400, ValidationErrors), st)
    else if FindByEmail(st.users, st.userOrder, body.email).Some? then (Reply(400, Message(UserExists)), st)
    else
      var u := NewUser(cfg, body, salt);
      if !MeetsSchema(u) then (InternalError, st)
      else
        var st' := st.(users := st.users[newId := u], userOrder := st.userOrder + [newId]);
        (Reply(201, Session(IssueToken(cfg.jwt, newId, now), ReadWithPassword(newId, u))), st')
  }

  /** `login`. Validation errors answer 400 before the store is read; an unknown address and
      a wrong password answer the same 401; on success the token is both in the body and
      set as the `token` cookie. The user is read with `+password`, so the body carries the
      stored digest. */
  function Login(st: State, cfg: Config, valid: bool, email: string, password: string, now: nat): (r: Response)
    ensures !valid ==> r == Reply(400, ValidationErrors)
    ensures r.status == 200 <==>
              valid && FindByEmail(st.users, st.userOrder, email).Some? &&
              ComparePassword(cfg.bcrypt, cfg.pepper, password, st.users[FindByEmail(st.users, st.userOrder, email).value].password)
    ensures r.status == 200 ==> r.body.Session? && r.cookie == SetTokenCookie(r.body.token)
    ensures valid && r.status != 200 ==> r == Reply(401, Message(BadCredentials))
  {
    if !valid then Reply(400, ValidationErrors)
    else
      match FindByEmail(st.users, st.userOrder, email)
      case None => Reply(401, Message(BadCredentials))
      case Some(id) =>
        var u := st.users[id];
        if !ComparePassword(cfg.bcrypt, cfg.pepper, password, u.password) then Reply(401, Message(BadCredentials))
        else
          var token := IssueToken(cfg.jwt, id, now);
          Response(200, Session(token, ReadWithPassword(id, u)), SetTokenCookie(token))
  }

  /** `profile`: only the name and the address of `req.user`. */
  function Profile(user: UserDoc): (r: Response)
    ensures r.status == 200 && r.body.ProfileInfo?
    ensures r.body.fullname == user.fullname && r.body.email == user.email
  {
    Reply(200, ProfileInfo(user.fullname, user.email))
  }

  /** The profile body is the same whatever password field the user document carries. */
  lemma ProfileHidesPassword(user: UserDoc, p: Option<string>)
    ensures Profile(user) == Profile(user.(password := p))
  {
  }

  /** The token `logout` revokes: the `token` cookie when it is non-empty, otherwise the
      second piece of the Authorization header. `Err` stands for the TypeError thrown when
      there is no cookie and no header. */
  function LogoutToken(cookie: Option<string>, header: Option<string>): Result<Option<string>, ()> {
    if cookie.Some? && cookie.value != "" then Ok(Some(cookie.value))
    else if header.None? then Err(())
    else Ok(Field(header.value, 1))
  }

  /** `logout`. The cookie is cleared first. A thrown error is passed to `next`, and with no
      error middleware installed the framework's default page answers 500, the blacklist
      unchanged; a missing or empty token is taken to fail the blacklist model's validation
      the same way. Otherwise the token joins the blacklist. */
  function Logout(st: State, cookie: Option<string>, header: Option<string>): (r: (Response, State))
    ensures r.0.cookie == ClearTokenCookie
    ensures r.0.status == 200 <==> LogoutToken(cookie, header).Ok? && LogoutToken(cookie, header).value.Some? && LogoutToken(cookie, header).value.value != ""
    ensures r.0.status == 200 ==> r.1 == st.(blacklist := st.blacklist + {LogoutToken(cookie, header).value.value})
    ensures r.0.status != 200 ==> r.1 == st && r.0 == ErrorPage.(cookie := ClearTokenCookie)
  {
    match LogoutToken(cookie, header)
    case Err(_) => (ErrorPage.(cookie := ClearTokenCookie), st)
    case Ok(token) =>
      if token.None? || token.value == "" then (ErrorPage.(cookie := ClearTokenCookie), st)
      else (Response(200, Message("Logged out successfully"), ClearTokenCookie), st.(blacklist := st.blacklist + {token.value}))
  }

  // ---------------------------------------------------------------------------------------
  // Properties

  /** Validation failures answer 400 without consulting the store: the result is the same
      for every state, and nothing changes. */
  lemma ValidationBeforeStore(st1: State, st2: State, cfg: Config, body: RegisterBody, salt: string, newId: Id, now: nat, password: string)
    requires newId !in st1.users && newId !in st1.userOrder
    requires newId !in st2.users && newId !in st2.userOrder
    ensures Register(st1, cfg, false, body, salt, newId, now).0 == Register(st2, cfg, false, body, salt, newId, now).0
    ensures Register(st1, cfg, false, body, salt, newId, now).1 == st1
    ensures Login(st1, cfg, false, body.email, password, now) == Login(st2, cfg, false, body.email, password, now)
  {
  }

  /** Registering an address that is already stored answers 400 and changes nothing. */
  lemma DuplicateEmailRejected(st: State, cfg: Config, body: RegisterBody, salt: string, newId: Id, now: nat, existing: Id)
    requires Wf(st)
    requires newId !in st.users
    requires existing in st.users && st.users[existing].email == body.email
    ensures Register(st, cfg, true, body, salt, newId, now) == (Reply(400, Message(UserExists)), st)
  {
    FindByEmailExact(st.users, st.userOrder, existing);
  }

  /** A successful registration stores the peppered digest, never the password itself, as
      long as bcrypt's output differs from its input. */
  lemma RegisterStoresDigest(st: State, cfg: Config, body: RegisterBody, salt: string, newId: Id, now: nat)
    requires newId !in st.users && newId !in st.userOrder
    requires Register(st, cfg, true, body, salt, newId, now).0.status == 201
    ensures var st' := Register(st, cfg, true, body, salt, newId, now).1;
            newId in st'.users &&
            st'.users[newId].password == cfg.bcrypt.hash(body.password + cfg.pepper, HashCost, salt)
  {
  }

  /** Registration keeps the state invariant; in particular the e-mail stays unique. */
  lemma RegisterPreservesWf(st: State, cfg: Config, valid: bool, body: RegisterBody, salt: string, newId: Id, now: nat)
    requires Wf(st)
    requires IsCanonicalId(newId) && newId !in st.users
    ensures Wf(Register(st, cfg, valid, body, salt, newId, now).1)
  {
    assert newId !in st.userOrder;
    var r := Register(st, cfg, valid, body, salt, newId, now);
    if r.0.status == 201 {
      FindByEmailAbsent(st.users, st.userOrder, body.email);
      var st' := r.1;
      forall i, j | 0 <= i < j < |st'.userOrder|
        ensures st'.userOrder[i] != st'.userOrder[j]
      {
        if j == |st.userOrder| {
          assert st'.userOrder[i] == st.userOrder[i];
        }
      }
    }
  }

  /** The token a registration returns authenticates the new user for 24 hours. */
  lemma RegisterTokenAuthenticates(st: State, cfg: Config, body: RegisterBody, salt: string, newId: Id, now: nat, later: nat)
    requires SoundJwt(cfg.jwt)
    requires IsCanonicalId(newId) && newId !in st.users && newId !in st.userOrder
    requires Register(st, cfg, true, body, salt, newId, now).0.status == 201
    requires IssueToken(cfg.jwt, newId, now) !in st.blacklist
    requires now <= later < now + TokenLifetime
    ensures var (resp, st') := Register(st, cfg, true, body, salt, newId, now);
            AuthGate.AuthUser(Some("Bearer " + resp.body.token), st'.blacklist, st'.users, cfg.jwt, later)
              == AuthGate.Next(Read(newId, st'.users[newId]))
  {
    var st' := Register(st, cfg, true, body, salt, newId, now).1;
    AuthGate.IssuedTokenAdmits(cfg.jwt, st'.users, st'.blacklist, newId, now, later);
  }

  /** Logging in with the address and password just registered succeeds. */
  lemma RegisterThenLogin(st: State, cfg: Config, body: RegisterBody, salt: string, newId: Id, now: nat, later: nat)
    requires Wf(st) && SoundBcrypt(cfg.bcrypt)
    requires IsCanonicalId(newId) && newId !in st.users
    requires Register(st, cfg, true, body, salt, newId, now).0.status == 201
    ensures var st' := Register(st, cfg, true, body, salt, newId, now).1;
            Login(st', cfg, true, body.email, body.password, later).status == 200
  {
    RegisterPreservesWf(st, cfg, true, body, salt, newId, now);
    var st' := Register(st, cfg, true, body, salt, newId, now).1;
    FindByEmailExact(st'.users, st'.userOrder, newId);
    PasswordMatchesOwnDigest(cfg.bcrypt, cfg.pepper, body.password, salt);
  }

  /** An unknown address and a wrong password are indistinguishable to the client. */
  lemma LoginFailuresAlike(st: State, cfg: Config, unknownEmail: string, email: string, password: string, wrong: string, now: nat)
    requires FindByEmail(st.users, st.userOrder, unknownEmail).None?
    requires FindByEmail(st.users, st.userOrder, email).Some?
    requires !ComparePassword(cfg.bcrypt, cfg.pepper, wrong, st.users[FindByEmail(st.users, st.userOrder, email).value].password)
    ensures Login(st, cfg, true, unknownEmail, password, now) == Login(st, cfg, true, email, wrong, now)
    ensures Login(st, cfg, true, email, wrong, now).status == 401
  {
  }

  /** A successful login returns the token issued for the matching user, sets it as the
      cookie, and, because the user was read with `+password`, sends the stored digest. */
  lemma LoginSuccessShape(st: State, cfg: Config, email: string, password: string, now: nat)
    requires Login(st, cfg, true, email, password, now).status == 200
    ensures var id := FindByEmail(st.users, st.userOrder, email).value;
            var r := Login(st, cfg, true, email, password, now);
            && r.body == Session(IssueToken(cfg.jwt, id, now), ReadWithPassword(id, st.users[id]))
            && r.cookie == SetTokenCookie(IssueToken(cfg.jwt, id, now))
            && r.body.user.password == Some(st.users[id].password)
  {
  }

  /** After logging out with a bearer header and no cookie, the same header is refused by
      the gate as blacklisted. */
  lemma LogoutRevokesBearer(st: State, token: string, jwt: Jwt, now: nat)
    requires IsCompactToken(token)
    ensures var st' := Logout(st, None, Some("Bearer " + token)).1;
            AuthGate.AuthUser(Some("Bearer " + token), st'.blacklist, st'.users, jwt, now) == AuthGate.Deny(AuthGate.Blacklisted)
  {
    AuthGate.ExtractBearerToken(token);
    assert "Bearer" + " " + token == "Bearer " + token;
    SecondFieldOfJoined("Bearer", token);
  }

  /** With a non-empty cookie, logout revokes the cookie's token and nothing else: a
      different bearer token stays exactly as valid as before. */
  lemma LogoutPrefersCookie(st: State, cookieToken: string, header: Option<string>, jwt: Jwt, now: nat)
    requires cookieToken != ""
    requires AuthGate.ExtractToken(header).Some? && AuthGate.ExtractToken(header).value != cookieToken
    ensures var st' := Logout(st, Some(cookieToken), header).1;
            st'.blacklist == st.blacklist + {cookieToken} &&
            AuthGate.AuthUser(header, st'.blacklist, st'.users, jwt, now) == AuthGate.AuthUser(header, st.blacklist, st.users, jwt, now)
  {
  }

  /** Revocation is idempotent: logging out twice leaves the same state as once. */
  lemma LogoutIdempotent(st: State, cookie: Option<string>, header: Option<string>)
    ensures var st1 := Logout(st, cookie, header).1;
            Logout(st1, cookie, header).1 == st1
  {
  }
}
