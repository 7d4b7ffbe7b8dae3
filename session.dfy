/**
 * The refresh-session state machine across requests: what the refresh gate
 * accepts after each transition that AuthService makes on a row's
 * `hashedRefreshToken` (StoreRefreshDigest for signup, login and refresh;
 * ClearRefreshDigest for logout).
 */
module Session {
  import opened Wrappers
  import opened Errors
  import opened Crypto
  import opened Bcrypt
  import opened UserEntity
  import opened Db
  import opened Http
  import opened Auth
  import Utf8
  import JwtWire
  import RefreshStrategy
  import JwtStrategy

  /** A cookie jar holding exactly the refresh cookie `t`. */
  function CookieJar(t: TokenText): (jar: Option<map<string, CookieValue>>)
    ensures RefreshStrategy.CookieExtractor(jar) == Some(t)
  {
    Some(map[RefreshCookieName := TextCookie(t)])
  }

  /** A token that, if it is a signed token at all, names user `sub`. */
  predicate Names(t: TokenText, sub: UserId)
  {
    t.Signed? ==> t.jwt.sub == sub
  }

  /** Changing only the refresh digest of one row keeps the constraints and every lookup. */
  lemma DigestUpdateKeepsRows(users: seq<User>, i: nat, u: User)
    requires UniqueUsers(users) && i < |users|
    requires u == users[i].(hashedRefreshToken := u.hashedRefreshToken)
    ensures UniqueUsers(users[i := u])
    ensures IndexOfId(users[i := u], u.id) == Some(i)
  {
    SameIdsSameLookup(users, users[i := u], u.id);
  }

  /**
   * Rotation revokes, under the whole-token check: once the row's digest is
   * that of `t2`, a cookie holding any other token that names the same user
   * is refused with a 401.
   */
  lemma RotationRevokesEarlierToken(users: seq<User>, secret: string, i: nat,
                                    cookies: Option<map<string, CookieValue>>, t2: TokenText, salt: nat, now: nat)
    requires UniqueUsers(users) && i < |users|
    requires RefreshStrategy.CookieExtractor(cookies).Some?
    requires RefreshStrategy.CookieExtractor(cookies).value != t2
    requires Names(RefreshStrategy.CookieExtractor(cookies).value, users[i].id)
    ensures var r := RefreshStrategy.Gate(RefreshStrategy.WholeToken, StoreRefreshDigest(users, i, t2, salt), secret,
                                          cookies, now);
            r.Err? && r.error.Unauthorized?
  {
    var after := StoreRefreshDigest(users, i, t2, salt);
    DigestUpdateKeepsRows(users, i, after[i]);
    assert users[i := after[i]] == after;
  }

  /** After logout no token naming the user passes the refresh gate, under either check. */
  lemma LogoutRevokesEveryToken(check: RefreshStrategy.TokenCheck, users: seq<User>, secret: string, i: nat,
                                cookies: Option<map<string, CookieValue>>, now: nat)
    requires UniqueUsers(users) && i < |users|
    requires RefreshStrategy.CookieExtractor(cookies).Some? ==>
               Names(RefreshStrategy.CookieExtractor(cookies).value, users[i].id)
    ensures var r := RefreshStrategy.Gate(check, ClearRefreshDigest(users, i), secret, cookies, now);
            r.Err? && r.error.Unauthorized?
  {
    var after := ClearRefreshDigest(users, i);
    DigestUpdateKeepsRows(users, i, after[i]);
    assert users[i := after[i]] == after;
  }

  /**
   * The refresh token just issued and stored is accepted, with the updated row,
   * for its whole lifetime, and refused with a plain 401 from then on, under
   * either check.
   */
  lemma IssuedTokenAccepted(check: RefreshStrategy.TokenCheck, users: seq<User>, secret: string, i: nat, issued: nat, salt: nat, now: nat)
    requires UniqueUsers(users) && i < |users|
    ensures var t := Sign(users[i].id, secret, issued, RefreshLifetime);
            var after := StoreRefreshDigest(users, i, t, salt);
            && (issued <= now < issued + RefreshLifetime ==>
                  RefreshStrategy.Gate(check, after, secret, CookieJar(t), now) == Ok(RefreshPrincipal(after[i], t)))
            && (issued + RefreshLifetime <= now ==>
                  RefreshStrategy.Gate(check, after, secret, CookieJar(t), now) == Err(Unauthorized(DefaultUnauthorized)))
  {
    var t := Sign(users[i].id, secret, issued, RefreshLifetime);
    var after := StoreRefreshDigest(users, i, t, salt);
    DigestUpdateKeepsRows(users, i, after[i]);
    assert users[i := after[i]] == after;
  }

  /**
   * As written, rotation does not revoke: after the row's digest becomes that
   * of `t2`, an earlier token of the same user in the cookie still passes the
   * refresh gate until it expires, because both tokens have the same first
   * 72 bytes once the id has 19 characters (a uuid has 36).
   */
  lemma RotationKeepsEarlierToken(users: seq<User>, secret: string, i: nat,
                                  cookies: Option<map<string, CookieValue>>, t2: TokenText, salt: nat)
    requires UniqueUsers(users) && i < |users| && |users[i].id| >= 19
    requires RefreshStrategy.CookieExtractor(cookies).Some?
    requires var t1 := RefreshStrategy.CookieExtractor(cookies).value;
             t1.Signed? && t1.jwt.sub == users[i].id && t1.jwt.key == secret
    requires t2.Signed? && t2.jwt.sub == users[i].id
    ensures var t1 := RefreshStrategy.CookieExtractor(cookies).value;
            var after := StoreRefreshDigest(users, i, t2, salt);
            forall n: nat :: n < t1.jwt.exp ==>
              RefreshStrategy.Gate(RefreshStrategy.Bcrypt72, after, secret, cookies, n) == Ok(RefreshPrincipal(after[i], t1))
  {
    var t1 := RefreshStrategy.CookieExtractor(cookies).value;
    var after := StoreRefreshDigest(users, i, t2, salt);
    DigestUpdateKeepsRows(users, i, after[i]);
    assert users[i := after[i]] == after;
    RefreshStrategy.SameSubjectMatches(t1, t2, salt);
    assert after[i].hashedRefreshToken == Some(Hash(t2, salt));
    forall n: nat | n < t1.jwt.exp
      ensures RefreshStrategy.Gate(RefreshStrategy.Bcrypt72, after, secret, cookies, n) == Ok(RefreshPrincipal(after[i], t1))
    {
    }
  }

  /** A user id as the database generates it. */
  const SampleId := "123e4567-e89b-12d3-a456-426614174000"

  /**
   * A concrete instance: login at 1700000000 issues `t1`, a refresh a minute
   * later stores the digest of `t2`, and a minute after that `t1` still
   * passes the program's refresh gate, alongside `t2`; the whole-token check
   * refuses it.
   */
  lemma StaleRefreshTokenAccepted(users: seq<User>, secret: string, i: nat, salt: nat)
    requires UniqueUsers(users) && i < |users| && users[i].id == SampleId
    ensures var t1 := Sign(SampleId, secret, 1700000000, RefreshLifetime);
            var t2 := Sign(SampleId, secret, 1700000060, RefreshLifetime);
            var after := StoreRefreshDigest(users, i, t2, salt);
            && t1 != t2
            && RefreshStrategy.Gate(RefreshStrategy.Bcrypt72, after, secret, CookieJar(t1), 1700000120).Ok?
            && RefreshStrategy.Gate(RefreshStrategy.Bcrypt72, after, secret, CookieJar(t2), 1700000120).Ok?
            && RefreshStrategy.Gate(RefreshStrategy.WholeToken, after, secret, CookieJar(t1), 1700000120).Err?
  {
    var t1 := Sign(SampleId, secret, 1700000000, RefreshLifetime);
    var t2 := Sign(SampleId, secret, 1700000060, RefreshLifetime);
    assert t1.jwt.iat != t2.jwt.iat;
    RotationKeepsEarlierToken(users, secret, i, CookieJar(t1), t2, salt);
    IssuedTokenAccepted(RefreshStrategy.Bcrypt72, users, secret, i, 1700000060, salt, 1700000120);
    RotationRevokesEarlierToken(users, secret, i, CookieJar(t1), t2, salt, 1700000120);
  }

  /**
   * Under the whole-token check, at any moment at most one refresh token per
   * user passes the refresh gate. StaleRefreshTokenAccepted shows two that
   * pass the program's check.
   */
  lemma AtMostOneTrustedToken(users: seq<User>, secret: string, t1: TokenText, t2: TokenText, now1: nat, now2: nat)
    requires UniqueUsers(users)
    requires RefreshStrategy.Gate(RefreshStrategy.WholeToken, users, secret, CookieJar(t1), now1).Ok?
    requires RefreshStrategy.Gate(RefreshStrategy.WholeToken, users, secret, CookieJar(t2), now2).Ok?
    requires t1.jwt.sub == t2.jwt.sub
    ensures t1 == t2
  {
    var u1 := RefreshStrategy.Gate(RefreshStrategy.WholeToken, users, secret, CookieJar(t1), now1).value.user;
    var u2 := RefreshStrategy.Gate(RefreshStrategy.WholeToken, users, secret, CookieJar(t2), now2).value.user;
    var k1 :| 0 <= k1 < |users| && users[k1] == u1;
    var k2 :| 0 <= k2 < |users| && users[k2] == u2;
    assert k1 == k2;
  }

  /**
   * The two gates use different secrets, so neither accepts the other's
   * token: an access token in the refresh cookie and a refresh token in the
   * Bearer header both get a plain 401.
   */
  lemma TokenKindsDoNotCross(check: RefreshStrategy.TokenCheck, users: seq<User>, accessSecret: string, refreshSecret: string, sub: UserId,
                             issued: nat, now: nat)
    requires accessSecret != refreshSecret
    ensures RefreshStrategy.Gate(check, users, refreshSecret, CookieJar(Sign(sub, accessSecret, issued, AccessLifetime)), now)
            == Err(Unauthorized(DefaultUnauthorized))
    ensures JwtStrategy.Gate(accessSecret, Some(AuthHeader("Bearer", Sign(sub, refreshSecret, issued, RefreshLifetime))), now)
            == Err(Unauthorized(DefaultUnauthorized))
  {
    var t := Sign(sub, accessSecret, issued, AccessLifetime);
    assert Verify(t, refreshSecret, now) == Err(InvalidSignature);
  }

  /**
   * Signup stores the password so that the password gate afterwards accepts
   * for the new email exactly the passwords whose bcrypt key is that of the
   * stored one: exactly that password when both are 72 bytes or shorter and
   * neither contains U+0000.
   */
  lemma SignupThenValidate(users: seq<User>, newId: UserId, email: string, username: string, password: string,
                           salt: nat, session: Option<Digest<TokenText>>, attempt: string)
    requires IndexOfEmail(users, email).None?
    ensures var after := users + [User(newId, email, username, Hash(password, salt), session)];
            ValidateUser(after, email, attempt)
              == Ok(if Key(Utf8.Encode(attempt)) == Key(Utf8.Encode(password))
                    then Some(SafeUser(newId, email, username, session)) else None)
    ensures var after := users + [User(newId, email, username, Hash(password, salt), session)];
            |Utf8.Encode(password)| <= MaxKeyBytes && |Utf8.Encode(attempt)| <= MaxKeyBytes
            && NulFree(password) && NulFree(attempt) ==>
              (ValidateUser(after, email, attempt).Ok? && ValidateUser(after, email, attempt).value.Some?
               <==> attempt == password)
  {
    var after := users + [User(newId, email, username, Hash(password, salt), session)];
    var u := after[|users|];
    assert u.email == email;
    assert IndexOfEmail(after, email) == Some(|users|);
    assert FindOne(after, ByEmail, email) == Ok(u);
    assert ValidateUser(after, email, attempt)
           == if Compare(attempt, u.password) then Ok(Some(WithoutPassword(u))) else Ok(None);
    CompareHashed(password, attempt, salt);
  }

  /** Logging out twice leaves the table as logging out once. */
  lemma LogoutIdempotent(users: seq<User>, i: nat)
    requires i < |users|
    ensures ClearRefreshDigest(ClearRefreshDigest(users, i), i) == ClearRefreshDigest(users, i)
  {
  }
}
