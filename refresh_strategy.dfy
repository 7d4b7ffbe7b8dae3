/**
 * `RefreshStrategy`: the refresh-cookie gate. The token is taken from the
 * `refresh_token` cookie, verified with the refresh secret, and accepted only
 * when it matches the digest stored on its subject's row. The store is only
 * read.
 */
module RefreshStrategy {
  import opened Wrappers
  import opened Errors
  import opened Crypto
  import opened Bcrypt
  import opened UserEntity
  import opened Http
  import opened Config
  import Auth
  import JwtWire

  const MissingSecret := "JWT_REFRESH_SECRET is not defined in the environment variables."
  const NoCookieToken := "Access Denied: No refresh token found in cookie."
  const NoStoredToken := "Access Denied: User not found or no refresh token stored."
  const TokenMismatch := "Access Denied: Refresh token mismatch."

  /** The constructor's check: the strategy exists only with a non-empty JWT_REFRESH_SECRET. */
  function Configure(env: Option<string>): (r: Result<string, string>)
    ensures r.Ok? <==> env.Some? && env.value != ""
    ensures r.Ok? ==> r.value == env.value
    ensures r.Err? ==> r.error == MissingSecret
  {
    RequireSecret(env, MissingSecret)
  }

  /**
   * `cookieExtractor(req)`: the `refresh_token` cookie when there is a cookie
   * jar, it has that cookie and its value is a string; null otherwise.
   */
  function CookieExtractor(cookies: Option<map<string, CookieValue>>): (r: Option<TokenText>)
    ensures r.Some? <==> cookies.Some? && RefreshCookieName in cookies.value
                         && cookies.value[RefreshCookieName].TextCookie?
    ensures r.Some? ==> r.value == cookies.value[RefreshCookieName].token
  {
    if cookies.Some? && RefreshCookieName in cookies.value then
      match cookies.value[RefreshCookieName]
      case TextCookie(t) => Some(t)
      case JsonCookie => None
    else None
  }

  /**
   * How the cookie's token is checked against the stored digest.
   * `Bcrypt72` is the program: `bcrypt.compare(refreshToken,
   * user.hashedRefreshToken)`, which reads only the first 72 bytes of each
   * token. `WholeToken` is the evidently intended check, on the whole token
   * (as a digest of a fixed-length fingerprint of the token would give).
   */
  datatype TokenCheck = Bcrypt72 | WholeToken

  predicate TokenMatches(check: TokenCheck, t: TokenText, d: Digest<TokenText>)
  {
    match check
    case Bcrypt72 => JwtWire.TokenKey(t) == JwtWire.TokenKey(d.input)
    case WholeToken => t == d.input
  }

  /**
   * With the program's check, any two signed tokens of the same subject of 19
   * characters or more match each other's digests, whatever their times.
   */
  lemma SameSubjectMatches(t1: TokenText, t2: TokenText, salt: nat)
    requires t1.Signed? && t2.Signed? && t1.jwt.sub == t2.jwt.sub && |t1.jwt.sub| >= 19
    ensures TokenMatches(Bcrypt72, t1, Hash(t2, salt))
  {
    JwtWire.SameSubjectSameKey(t1.jwt, t2.jwt);
  }

  /** The stored session of user `sub` trusts token `t`. */
  ghost predicate Trusts(check: TokenCheck, users: seq<User>, sub: UserId, t: TokenText)
  {
    exists u :: u in users && u.id == sub && u.hashedRefreshToken.Some?
                && TokenMatches(check, t, u.hashedRefreshToken.value)
  }

  /**
   * `validate(req, payload)` with the cookie's token: 401 for an empty token;
   * the 404 of `findOne` for an unknown subject (so the `!user` half of the
   * next check never fires); 401 when the row stores no digest or a digest
   * the token does not match; otherwise the row plus the token.
   */
  function Validate(check: TokenCheck, users: seq<User>, refreshToken: TokenText, payload: Payload): (r: Outcome<Auth.RefreshPrincipal>)
    ensures IsEmptyText(refreshToken) ==> r == Err(Unauthorized(NoCookieToken))
    ensures !IsEmptyText(refreshToken) && (forall k :: 0 <= k < |users| ==> users[k].id != payload.sub) ==>
              r == Err(NotFound(UserNotFound))
    ensures r.Ok? ==> && r.value.refreshToken == refreshToken && r.value.user in users
                      && r.value.user.id == payload.sub && r.value.user.hashedRefreshToken.Some?
                      && TokenMatches(check, refreshToken, r.value.user.hashedRefreshToken.value)
    ensures UniqueUsers(users) ==> (r.Ok? <==> !IsEmptyText(refreshToken) && Trusts(check, users, payload.sub, refreshToken))
    ensures r.Err? ==>
              (r.error == NotFound(UserNotFound) ||
               r.error in {Unauthorized(NoCookieToken), Unauthorized(NoStoredToken), Unauthorized(TokenMismatch)})
  {
    if IsEmptyText(refreshToken) then Err(Unauthorized(NoCookieToken))
    else match Auth.FindOne(users, Auth.ById, payload.sub)
      case Err(e) => Err(e)
      case Ok(user) =>
        if user.hashedRefreshToken.None? then Err(Unauthorized(NoStoredToken))
        else if !TokenMatches(check, refreshToken, user.hashedRefreshToken.value) then Err(Unauthorized(TokenMismatch))
        else Ok(Auth.RefreshPrincipal(user, refreshToken))
  }

  /**
   * The gate as the guard runs it: passport-jwt fails with a plain 401 when
   * the extractor yields no token or an empty one, or when the token does not
   * verify under `secret` or has expired; otherwise `validate` decides.
   */
  function Gate(check: TokenCheck, users: seq<User>, secret: string, cookies: Option<map<string, CookieValue>>, now: nat)
    : (r: Outcome<Auth.RefreshPrincipal>)
    ensures CookieExtractor(cookies).None? ==> r == Err(Unauthorized(DefaultUnauthorized))
    ensures r.Ok? ==> && CookieExtractor(cookies) == Some(r.value.refreshToken)
                      && Verify(r.value.refreshToken, secret, now).Ok?
                      && r.value.user in users && r.value.user.id == r.value.refreshToken.jwt.sub
                      && r.value.user.hashedRefreshToken.Some?
                      && TokenMatches(check, r.value.refreshToken, r.value.user.hashedRefreshToken.value)
    ensures UniqueUsers(users) ==>
              (r.Ok? <==> && CookieExtractor(cookies).Some?
                          && Verify(CookieExtractor(cookies).value, secret, now).Ok?
                          && Trusts(check, users, CookieExtractor(cookies).value.jwt.sub, CookieExtractor(cookies).value))
    ensures r != Err(Unauthorized(NoCookieToken))
  {
    match CookieExtractor(cookies)
    case None => Err(Unauthorized(DefaultUnauthorized))
    case Some(token) =>
      if IsEmptyText(token) then Err(Unauthorized(DefaultUnauthorized))
      else match Verify(token, secret, now)
        case Err(_) => Err(Unauthorized(DefaultUnauthorized))
        case Ok(payload) => Validate(check, users, token, payload)
  }
}
