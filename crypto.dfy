/**
 * HS256-signed JSON Web Tokens (RFC 7519) carrying `sub` (section 4.1.2),
 * `iat` (section 4.1.6) and `exp` (section 4.1.4), as the backend signs and
 * verifies them; the HMAC itself is abstracted. bcrypt is module Bcrypt.
 */
module Crypto {
  import opened Wrappers

  /** Lifetime of an access token, `expiresIn: '15m'`, in seconds. */
  const AccessLifetime: nat := 15 * 60
  /** Lifetime of a refresh token, `expiresIn: '7d'`, in seconds. */
  const RefreshLifetime: nat := 7 * 24 * 60 * 60

  /**
   * A signed token. `key` is the secret it was signed with: the HMAC is
   * abstracted so that a verifier holding secret `k` accepts exactly the tokens
   * whose `key` is `k`. Times are whole seconds since the epoch.
   */
  datatype Jwt = Jwt(sub: string, iat: nat, exp: nat, key: string)

  /**
   * A token as it travels in a header or a cookie: either the compact
   * serialisation of a signed token, or any other text (which no verifier
   * accepts). The empty string is `Raw("")`.
   */
  datatype TokenText = Signed(jwt: Jwt) | Raw(text: string)

  /** JavaScript truthiness of a token string: only the empty string is falsy. */
  predicate IsEmptyText(t: TokenText)
  {
    t == Raw("")
  }

  /** The claims a successful verification hands to a strategy's `validate`. */
  datatype Payload = Payload(sub: string, iat: nat, exp: nat)

  /** Why `jwt.verify` rejects a token, in the order it checks. */
  datatype VerifyError = Malformed | InvalidSignature | Expired

  /**
   * `jwt.verify(token, key)` at clock time `now`: the structure is checked
   * first, then the signature, then `exp` (a token is expired once
   * `now >= exp`).
   */
  function Verify(t: TokenText, key: string, now: nat): (r: Result<Payload, VerifyError>)
    ensures r.Ok? <==> t.Signed? && t.jwt.key == key && now < t.jwt.exp
    ensures r.Ok? ==> r.value == Payload(t.jwt.sub, t.jwt.iat, t.jwt.exp)
    ensures r == Err(Expired) <==> t.Signed? && t.jwt.key == key && t.jwt.exp <= now
  {
    match t
    case Raw(_) => Err(Malformed)
    case Signed(j) =>
      if j.key != key then Err(InvalidSignature)
      else if j.exp <= now then Err(Expired)
      else Ok(Payload(j.sub, j.iat, j.exp))
  }

  /**
   * `jwtService.signAsync({sub}, {secret: key, expiresIn})` at clock time
   * `now`. The token verifies under the same key until it expires, never under
   * another key, and is reported expired from `now + lifetime` on.
   */
  function Sign(sub: string, key: string, now: nat, lifetime: nat): (t: TokenText)
    ensures t.Signed? && t.jwt.sub == sub
    ensures forall n {:trigger Verify(t, key, n)} :: now <= n < now + lifetime ==>
              Verify(t, key, n) == Ok(Payload(sub, now, now + lifetime))
    ensures forall n {:trigger Verify(t, key, n)} :: now + lifetime <= n ==>
              Verify(t, key, n) == Err(Expired)
    ensures forall k, n {:trigger Verify(t, k, n)} :: k != key ==>
              Verify(t, k, n) == Err(InvalidSignature)
  {
    Signed(Jwt(sub, now, now + lifetime, key))
  }

  /**
   * Two tokens for the same subject and key differ when they were signed in
   * different seconds or with different lifetimes, and are identical when both
   * agree: the token carries no nonce.
   */
  lemma SignDistinguishes(sub: string, key: string, n1: nat, l1: nat, n2: nat, l2: nat)
    ensures Sign(sub, key, n1, l1) == Sign(sub, key, n2, l2) <==> n1 == n2 && l1 == l2
  {
    if Sign(sub, key, n1, l1) == Sign(sub, key, n2, l2) {
      assert Sign(sub, key, n1, l1).jwt.iat == n1;
    }
  }
}
