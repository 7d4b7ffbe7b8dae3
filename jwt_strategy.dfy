/**
 * `JwtStrategy`: the access-token gate. The token comes only from an
 * `Authorization: Bearer` header (section 2.1 of RFC 6750), is verified with
 * the access secret and is refused once expired (`exp`, section 4.1.4 of
 * RFC 7519). The gate never reads the store.
 */
module JwtStrategy {
  import opened Wrappers
  import opened Errors
  import opened Crypto
  import opened Http
  import opened Config

  const MissingSecret := "JWT_ACCESS_SECRET is not defined in the environment variables."

  /** `ignoreExpiration: false`: expired tokens are refused. */
  const IgnoreExpiration := false

  /** What the gate attaches to the request as `req.user`: a JSON object of strings. */
  type Principal = map<string, string>

  /** The constructor's check: the strategy exists only with a non-empty JWT_ACCESS_SECRET. */
  function Configure(env: Option<string>): (r: Result<string, string>)
    ensures r.Ok? <==> env.Some? && env.value != ""
    ensures r.Ok? ==> r.value == env.value
    ensures r.Err? ==> r.error == MissingSecret
  {
    RequireSecret(env, MissingSecret)
  }

  /**
   * `ExtractJwt.fromAuthHeaderAsBearerToken()`: the credentials of an
   * Authorization header whose scheme is `bearer` in any letter case, and
   * nothing from any other header, cookie or body field.
   */
  function FromAuthHeaderAsBearerToken(header: Option<AuthHeader>): (r: Option<TokenText>)
    ensures r.Some? <==> header.Some? && SchemeIs(header.value.scheme, "bearer")
    ensures r.Some? ==> r.value == header.value.credentials
  {
    if header.Some? && SchemeIs(header.value.scheme, "bearer") then Some(header.value.credentials) else None
  }

  /** `validate(payload)`: `{ id: payload.sub }`, one field and no other. */
  function Validate(payload: Payload): (p: Principal)
    ensures p.Keys == {"id"} && p["id"] == payload.sub
  {
    map["id" := payload.sub]
  }

  /**
   * The gate as the guard runs it: a missing or non-Bearer header, a token
   * that does not verify under `secret`, or an expired one gives a plain 401;
   * otherwise the principal names the token's subject.
   */
  function Gate(secret: string, header: Option<AuthHeader>, now: nat): (r: Outcome<Principal>)
    ensures r.Ok? <==> FromAuthHeaderAsBearerToken(header).Some?
                       && Verify(FromAuthHeaderAsBearerToken(header).value, secret, now).Ok?
    ensures r.Ok? ==> r.value == map["id" := Verify(header.value.credentials, secret, now).value.sub]
    ensures r.Ok? ==> now < header.value.credentials.jwt.exp && header.value.credentials.jwt.key == secret
    ensures r.Err? ==> r.error == Unauthorized(DefaultUnauthorized)
  {
    match FromAuthHeaderAsBearerToken(header)
    case None => Err(Unauthorized(DefaultUnauthorized))
    case Some(token) =>
      match Verify(token, secret, now)
      case Err(_) => Err(Unauthorized(DefaultUnauthorized))
      case Ok(payload) => Ok(Validate(payload))
  }
}
