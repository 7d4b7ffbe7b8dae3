/**
 * `AuthController`: the four routes under `/auth` and the gate in front of
 * each. signup is unguarded (only the body is validated), login sits behind
 * the password gate, logout behind the access-token gate, refresh behind the
 * refresh-cookie gate.
 */
module Controller {
  import opened Wrappers
  import opened Errors
  import opened Crypto
  import opened Bcrypt
  import opened UserEntity
  import opened Db
  import opened Validation
  import opened Http
  import opened Auth
  import CreateUserDto
  import LocalStrategy
  import JwtStrategy
  import RefreshStrategy
  import Session

  /** `@Post` answers 201 unless told otherwise; logout says `@HttpCode(204)`. */
  const Created: nat := 201
  const NoContent: nat := 204

  /**
   * The HTTP outcome of a route: a status with an optional JSON body, an
   * error response, or (for the logout route as written) an outcome that
   * depends on how the ORM treats an undefined key, which the model does not
   * fix. Cookie effects made before an error still reach the browser.
   */
  datatype Reply =
    | Replied(status: nat, body: Option<AuthResponse>, cookie: CookieEffect)
    | Failed(error: HttpError, cookie: CookieEffect)
    | Indeterminate

  /** The two signing secrets, as the strategies' constructors admitted them. */
  datatype Secrets = Secrets(access: string, refresh: string)

  /**
   * Application start-up: the access-token strategy is constructed before the
   * refresh strategy, so its error is the one reported when both are missing.
   */
  function StartupSecrets(accessEnv: Option<string>, refreshEnv: Option<string>): (r: Result<Secrets, string>)
    ensures r.Ok? <==> accessEnv.Some? && accessEnv.value != "" && refreshEnv.Some? && refreshEnv.value != ""
    ensures r.Ok? ==> r.value == Secrets(accessEnv.value, refreshEnv.value)
    ensures r.Err? ==> r.error == if accessEnv.Some? && accessEnv.value != "" then RefreshStrategy.MissingSecret
                                  else JwtStrategy.MissingSecret
  {
    match JwtStrategy.Configure(accessEnv)
    case Err(e) => Err(e)
    case Ok(access) =>
      match RefreshStrategy.Configure(refreshEnv)
      case Err(e) => Err(e)
      case Ok(refresh) => Ok(Secrets(access, refresh))
  }

  /** `const userId = req.user.sub` on the object the access gate attached. */
  function LogoutTarget(principal: JwtStrategy.Principal): (id: Option<UserId>)
    ensures id.Some? <==> "sub" in principal
  {
    if "sub" in principal then Some(principal["sub"]) else None
  }

  /** The access gate never sets `sub`, so the logout route never has an id. */
  lemma LogoutTargetAbsent(secret: string, header: Option<AuthHeader>, now: nat)
    requires JwtStrategy.Gate(secret, header, now).Ok?
    ensures LogoutTarget(JwtStrategy.Gate(secret, header, now).value) == None
  {
    var p := JwtStrategy.Gate(secret, header, now).value;
    assert p.Keys == {"id"};
  }

  class AuthController {
    const auth: AuthService
    /** How the refresh gate compares tokens: `Bcrypt72` in the program. */
    const refreshCheck: RefreshStrategy.TokenCheck

    constructor (db: Database, secrets: Secrets, check: RefreshStrategy.TokenCheck)
      ensures auth.db == db && auth.accessSecret == secrets.access && auth.refreshSecret == secrets.refresh
      ensures refreshCheck == check
      ensures fresh(auth)
    {
      auth := new AuthService(db, secrets.access, secrets.refresh);
      refreshCheck := check;
    }

    /**
     * `POST /auth/signup`: the body is validated against CreateUserDto, with
     * undeclared properties refused, and then handed to AuthService.signup.
     */
    method Signup(body: Body, isEmail: string -> bool, newId: UserId, now: nat, passwordSalt: nat, tokenSalt: nat)
      returns (reply: Reply)
      requires auth.db.Valid() && IndexOfId(auth.db.users, newId).None?
      modifies auth.db
      ensures auth.db.Valid() && auth.db.ideas == old(auth.db.ideas)
      ensures CreateUserDto.Parse(body, isEmail).Err? ==>
                reply == Failed(BadRequest, KeepCookie) && auth.db.users == old(auth.db.users)
      ensures CreateUserDto.Parse(body, isEmail).Ok? ==>
                var dto := CreateUserDto.Parse(body, isEmail).value;
                var p := auth.GetTokens(newId, now);
                if IndexOfEmail(old(auth.db.users), dto.email).Some? then
                  reply == Failed(Conflict(EmailTaken), KeepCookie) && auth.db.users == old(auth.db.users)
                else
                  && auth.db.users == old(auth.db.users) + [User(newId, dto.email, dto.username,
                                                                 Hash(dto.password, passwordSalt),
                                                                 Some(Hash(p.refresh, tokenSalt)))]
                  && reply == Replied(Created, Some(AuthResponse(p.access, UserView(newId, dto.username, dto.email))),
                                      SetRefreshCookie(p.refresh))
    {
      var parsed := CreateUserDto.Parse(body, isEmail);
      if parsed.Err? {
        return Failed(parsed.error, KeepCookie);
      }
      var r, cookie := auth.Signup(parsed.value, newId, now, passwordSalt, tokenSalt);
      reply := if r.Ok? then Replied(Created, Some(r.value), cookie) else Failed(r.error, cookie);
    }

    /**
     * `POST /auth/login`: AuthService.login runs only with the user the
     * password gate produced, so it always finds the row and rotates its
     * session.
     */
    method Login(body: map<string, string>, query: map<string, string>, now: nat, salt: nat) returns (reply: Reply)
      requires auth.db.Valid()
      modifies auth.db
      ensures auth.db.Valid() && auth.db.ideas == old(auth.db.ideas)
      ensures LocalStrategy.Gate(old(auth.db.users), body, query).Err? ==>
                && reply == Failed(LocalStrategy.Gate(old(auth.db.users), body, query).error, KeepCookie)
                && auth.db.users == old(auth.db.users)
      ensures LocalStrategy.Gate(old(auth.db.users), body, query).Ok? ==>
                var u := LocalStrategy.Gate(old(auth.db.users), body, query).value;
                var p := auth.GetTokens(u.id, now);
                && IndexOfId(old(auth.db.users), u.id).Some?
                && auth.db.users == StoreRefreshDigest(old(auth.db.users), IndexOfId(old(auth.db.users), u.id).value,
                                                       p.refresh, salt)
                && reply == Replied(Created, Some(AuthResponse(p.access, UserView(u.id, u.username, u.email))),
                                    SetRefreshCookie(p.refresh))
    {
      var gate := LocalStrategy.Gate(auth.db.users, body, query);
      if gate.Err? {
        return Failed(gate.error, KeepCookie);
      }
      var row :| row in auth.db.users && row.email == LocalStrategy.Credential(body, query, LocalStrategy.UsernameField)
                 && Compare(LocalStrategy.Credential(body, query, LocalStrategy.PasswordField), row.password)
                 && gate.value == WithoutPassword(row);
      assert IndexOfId(auth.db.users, gate.value.id).Some?;
      var r, cookie := auth.Login(gate.value, now, salt);
      assert r.Ok?;
      reply := Replied(Created, Some(r.value), cookie);
    }

    /**
     * `POST /auth/logout` as written: behind the access gate, it reads
     * `req.user.sub`, which the gate never sets, so the id handed to
     * AuthService.logout is undefined and the outcome is left open.
     */
    method Logout(header: Option<AuthHeader>, now: nat) returns (reply: Reply)
      requires auth.db.Valid()
      modifies auth.db
      ensures JwtStrategy.Gate(auth.accessSecret, header, now).Err? ==>
                && reply == Failed(Unauthorized(DefaultUnauthorized), KeepCookie)
                && auth.db.users == old(auth.db.users) && auth.db.ideas == old(auth.db.ideas)
      ensures JwtStrategy.Gate(auth.accessSecret, header, now).Ok? ==> reply == Indeterminate
    {
      var gate := JwtStrategy.Gate(auth.accessSecret, header, now);
      if gate.Err? {
        return Failed(gate.error, KeepCookie);
      }
      LogoutTargetAbsent(auth.accessSecret, header, now);
      var target := LogoutTarget(gate.value);
      assert target.None?;
      // AuthService.logout(res, undefined): what `findOneBy({ id: undefined })` does is not modelled
      reply := Indeterminate;
    }

    /**
     * `POST /auth/logout` reading the field the access gate does set,
     * `req.user.id`: 204 with the cookie cleared and the session of the
     * token's subject closed, after which the refresh gate refuses every
     * cookie naming that user, whichever way it compares tokens; a 404 with the cookie still cleared when the
     * subject has no row.
     */
    method LogoutById(header: Option<AuthHeader>, now: nat) returns (reply: Reply)
      requires auth.db.Valid()
      modifies auth.db
      ensures auth.db.Valid() && auth.db.ideas == old(auth.db.ideas)
      ensures JwtStrategy.Gate(auth.accessSecret, header, now).Err? ==>
                reply == Failed(Unauthorized(DefaultUnauthorized), KeepCookie) && auth.db.users == old(auth.db.users)
      ensures JwtStrategy.Gate(auth.accessSecret, header, now).Ok? ==>
                var id := header.value.credentials.jwt.sub;
                if IndexOfId(old(auth.db.users), id).None? then
                  reply == Failed(NotFound(LogoutUserNotFound), ClearRefreshCookie) && auth.db.users == old(auth.db.users)
                else
                  && reply == Replied(NoContent, None, ClearRefreshCookie)
                  && auth.db.users == ClearRefreshDigest(old(auth.db.users), IndexOfId(old(auth.db.users), id).value)
                  && forall cookies: Option<map<string, CookieValue>>, n: nat
                       {:trigger RefreshStrategy.Gate(refreshCheck, auth.db.users, auth.refreshSecret, cookies, n)} ::
                       (RefreshStrategy.CookieExtractor(cookies).Some? ==>
                          Session.Names(RefreshStrategy.CookieExtractor(cookies).value, id)) ==>
                       RefreshStrategy.Gate(refreshCheck, auth.db.users, auth.refreshSecret, cookies, n).Err?
    {
      var gate := JwtStrategy.Gate(auth.accessSecret, header, now);
      if gate.Err? {
        return Failed(gate.error, KeepCookie);
      }
      var id := gate.value["id"];
      var before := auth.db.users;
      var r, cookie := auth.Logout(id);
      reply := if r.Ok? then Replied(NoContent, None, cookie) else Failed(r.error, cookie);
      if r.Ok? {
        var i := IndexOfId(before, id).value;
        forall cookies: Option<map<string, CookieValue>>, n: nat |
          RefreshStrategy.CookieExtractor(cookies).Some? ==> Session.Names(RefreshStrategy.CookieExtractor(cookies).value, id)
          ensures RefreshStrategy.Gate(refreshCheck, auth.db.users, auth.refreshSecret, cookies, n).Err?
        {
          Session.LogoutRevokesEveryToken(refreshCheck, before, auth.refreshSecret, i, cookies, n);
        }
      }
    }

    /**
     * `POST /auth/refresh`: AuthService.refreshTokens runs only with the row
     * the refresh gate accepted, so it always rotates that row's session.
     * With the program's check the presented cookie keeps working until it
     * expires (its first 72 bytes are those of the new token); with the
     * whole-token check it stops working unless it was issued in this very
     * second (then the new token is the same token).
     */
    method Refresh(cookies: Option<map<string, CookieValue>>, now: nat, salt: nat) returns (reply: Reply)
      requires auth.db.Valid()
      modifies auth.db
      ensures auth.db.Valid() && auth.db.ideas == old(auth.db.ideas)
      ensures RefreshStrategy.Gate(refreshCheck, old(auth.db.users), auth.refreshSecret, cookies, now).Err? ==>
                && reply == Failed(RefreshStrategy.Gate(refreshCheck, old(auth.db.users), auth.refreshSecret, cookies, now).error,
                                   KeepCookie)
                && auth.db.users == old(auth.db.users)
      ensures RefreshStrategy.Gate(refreshCheck, old(auth.db.users), auth.refreshSecret, cookies, now).Ok? ==>
                var principal := RefreshStrategy.Gate(refreshCheck, old(auth.db.users), auth.refreshSecret, cookies, now).value;
                var u := principal.user;
                var p := auth.GetTokens(u.id, now);
                && IndexOfId(old(auth.db.users), u.id).Some?
                && auth.db.users == StoreRefreshDigest(old(auth.db.users), IndexOfId(old(auth.db.users), u.id).value,
                                                       p.refresh, salt)
                && reply == Replied(Created, Some(AuthResponse(p.access, UserView(u.id, u.username, u.email))),
                                    SetRefreshCookie(p.refresh))
                && (refreshCheck == RefreshStrategy.WholeToken && principal.refreshToken.jwt.iat != now ==>
                      forall n :: RefreshStrategy.Gate(refreshCheck, auth.db.users, auth.refreshSecret, cookies, n).Err?)
                && (refreshCheck == RefreshStrategy.Bcrypt72 && |u.id| >= 19 ==>
                      forall n: nat :: n < principal.refreshToken.jwt.exp ==>
                        RefreshStrategy.Gate(refreshCheck, auth.db.users, auth.refreshSecret, cookies, n).Ok?)
    {
      var gate := RefreshStrategy.Gate(refreshCheck, auth.db.users, auth.refreshSecret, cookies, now);
      if gate.Err? {
        return Failed(gate.error, KeepCookie);
      }
      var before := auth.db.users;
      var principal := gate.value;
      var k :| 0 <= k < |before| && before[k] == principal.user;
      assert IndexOfId(before, principal.user.id).Some?;
      var r, cookie := auth.RefreshTokens(principal, now, salt);
      assert r.Ok?;
      reply := Replied(Created, Some(r.value), cookie);
      var i := IndexOfId(before, principal.user.id).value;
      var issued := auth.GetTokens(principal.user.id, now).refresh;
      if refreshCheck == RefreshStrategy.WholeToken && principal.refreshToken.jwt.iat != now {
        assert issued.jwt.iat == now;
        forall n ensures RefreshStrategy.Gate(refreshCheck, auth.db.users, auth.refreshSecret, cookies, n).Err? {
          Session.RotationRevokesEarlierToken(before, auth.refreshSecret, i, cookies, issued, salt, n);
        }
      }
      if refreshCheck == RefreshStrategy.Bcrypt72 && |principal.user.id| >= 19 {
        Session.RotationKeepsEarlierToken(before, auth.refreshSecret, i, cookies, issued, salt);
      }
    }
  }
}
