/**
 * `AuthService`: the refresh-token session lifecycle. Each user row carries
 * one nullable `hashedRefreshToken`; signup, login and refresh overwrite it
 * with the digest of a newly issued refresh token, logout clears it.
 * The cookie a response sets or clears is returned as a CookieEffect; the
 * clock, generated ids and bcrypt salts are parameters.
 */
module Auth {
  import opened Wrappers
  import opened Errors
  import opened Crypto
  import opened Bcrypt
  import opened UserEntity
  import opened Db
  import CreateUserDto

  const EmailTaken := "A user with this email already exists."
  const LogoutUserNotFound := "User not found!"

  /** The column `findOne` searches. */
  datatype LookupField = ById | ByEmail

  datatype TokenPair = TokenPair(access: TokenText, refresh: TokenText)

  /** The JSON body of signup, login and refresh: `{ access_token, user }`. */
  datatype AuthResponse = AuthResponse(accessToken: TokenText, user: UserView)

  /** What a response does to the browser's `refresh_token` cookie. */
  datatype CookieEffect = KeepCookie | SetRefreshCookie(token: TokenText) | ClearRefreshCookie

  /**
   * What the refresh gate attaches to the request: the whole user row plus the
   * raw cookie token, `{ ...user, refreshToken }`.
   */
  datatype RefreshPrincipal = RefreshPrincipal(user: User, refreshToken: TokenText)

  /** Row `i` after its refresh digest is replaced by the digest of `token`. */
  function StoreRefreshDigest(users: seq<User>, i: nat, token: TokenText, salt: nat): (r: seq<User>)
    requires i < |users|
    ensures |r| == |users| && r[i].hashedRefreshToken == Some(Hash(token, salt))
    ensures r[i] == users[i].(hashedRefreshToken := r[i].hashedRefreshToken)
    ensures forall j :: 0 <= j < |users| && j != i ==> r[j] == users[j]
  {
    users[i := Assign(users[i], UserAttrs(None, None, Some(Some(Hash(token, salt)))))]
  }

  /** Row `i` after logout: its refresh digest set to NULL. */
  function ClearRefreshDigest(users: seq<User>, i: nat): (r: seq<User>)
    requires i < |users|
    ensures |r| == |users| && !SessionActive(r[i])
    ensures r[i] == users[i].(hashedRefreshToken := None)
    ensures forall j :: 0 <= j < |users| && j != i ==> r[j] == users[j]
  {
    users[i := Assign(users[i], UserAttrs(None, None, Some(None)))]
  }

  /**
   * `findOne(type, value)`: the first row whose `type` column equals `value`,
   * or a 404 when there is none.
   */
  function FindOne(users: seq<User>, field: LookupField, value: string): (r: Outcome<User>)
    ensures r.Ok? <==> exists k :: 0 <= k < |users| && (if field.ById? then users[k].id else users[k].email) == value
    ensures r.Ok? ==> r.value in users && (if field.ById? then r.value.id else r.value.email) == value
    ensures r.Err? ==> r.error == NotFound(UserNotFound)
  {
    var found := if field.ById? then IndexOfId(users, value) else IndexOfEmail(users, value);
    match found
    case Some(k) => Ok(users[k])
    case None => Err(NotFound(UserNotFound))
  }

  /**
   * `validateUser(email, pass)`: the row without its password when `pass`
   * matches the stored digest, null when it does not. An unknown email does
   * not give null: `findOne` throws a 404 first.
   */
  function ValidateUser(users: seq<User>, email: string, pass: string): (r: Outcome<Option<SafeUser>>)
    ensures (r == Err(NotFound(UserNotFound))) <==> forall k :: 0 <= k < |users| ==> users[k].email != email
    ensures r.Ok? ==> exists k :: 0 <= k < |users| && users[k].email == email
    ensures r.Ok? && r.value.Some? ==> exists u :: u in users && u.email == email && Compare(pass, u.password)
                                                   && r.value.value == WithoutPassword(u)
    ensures UniqueUsers(users) && r.Ok? && r.value.None? ==>
              forall u :: u in users && u.email == email ==> !Compare(pass, u.password)
  {
    match FindOne(users, ByEmail, email)
    case Err(e) => Err(e)
    case Ok(user) =>
      if Compare(pass, user.password) then Ok(Some(WithoutPassword(user))) else Ok(None)
  }

  class AuthService {
    const db: Database
    const accessSecret: string
    const refreshSecret: string

    constructor (db: Database, accessSecret: string, refreshSecret: string)
      ensures this.db == db && this.accessSecret == accessSecret && this.refreshSecret == refreshSecret
    {
      this.db, this.accessSecret, this.refreshSecret := db, accessSecret, refreshSecret;
    }

    /**
     * `getTokens(userId)` at clock time `now`: an access token that verifies
     * under the access secret for 15 minutes and a refresh token that verifies
     * under the refresh secret for 7 days, both for subject `userId`.
     */
    function GetTokens(userId: UserId, now: nat): (p: TokenPair)
      ensures Verify(p.access, accessSecret, now) == Ok(Payload(userId, now, now + AccessLifetime))
      ensures Verify(p.refresh, refreshSecret, now) == Ok(Payload(userId, now, now + RefreshLifetime))
      ensures p.access != p.refresh
    {
      TokenPair(Sign(userId, accessSecret, now, AccessLifetime), Sign(userId, refreshSecret, now, RefreshLifetime))
    }

    /**
     * `updateUser(id, attrs)`: a 404 for an unknown id; otherwise the given
     * fields replace the row's and nothing else changes, unless the new email
     * is another row's.
     */
    method UpdateUser(id: UserId, attrs: UserAttrs) returns (r: Outcome<User>)
      requires db.Valid()
      modifies db
      ensures db.Valid() && db.ideas == old(db.ideas)
      ensures IndexOfId(old(db.users), id).None? ==>
                r == Err(NotFound(UserNotFound)) && db.users == old(db.users)
      ensures IndexOfId(old(db.users), id).Some? ==>
                var i := IndexOfId(old(db.users), id).value;
                if attrs.email.Some? && EmailHeldByOther(old(db.users), i, attrs.email.value)
                then r == Err(QueryFailed) && db.users == old(db.users)
                else r == Ok(Assign(old(db.users)[i], attrs)) && db.users == old(db.users)[i := r.value]
    {
      var found := IndexOfId(db.users, id);
      if found.None? {
        return Err(NotFound(UserNotFound));
      }
      var i := found.value;
      var saved := SaveAssigned(db.users, i, attrs);
      if saved.Err? {
        return Err(saved.error);
      }
      var user := Assign(db.users[i], attrs);
      RowUpdateKeepsConsistent(db.users, db.ideas, i, user);
      db.users := saved.value;
      r := Ok(user);
    }

    /**
     * `updateUserRefreshToken(userId, token)`: a 404 for an unknown id;
     * otherwise the row's refresh digest becomes `bcrypt.hash(token, 10)` and
     * nothing else changes.
     */
    method UpdateUserRefreshToken(userId: UserId, token: TokenText, salt: nat) returns (r: Outcome<()>)
      requires db.Valid()
      modifies db
      ensures db.Valid() && db.ideas == old(db.ideas)
      ensures IndexOfId(old(db.users), userId).None? ==>
                r == Err(NotFound(UserNotFound)) && db.users == old(db.users)
      ensures IndexOfId(old(db.users), userId).Some? ==>
                && r == Ok(())
                && db.users == StoreRefreshDigest(old(db.users), IndexOfId(old(db.users), userId).value, token, salt)
    {
      var updated := UpdateUser(userId, UserAttrs(None, None, Some(Some(Hash(token, salt)))));
      if updated.Err? {
        return Err(updated.error);
      }
      r := Ok(());
    }

    /**
     * The common tail of signup, login and refresh: issue a token pair for
     * `id`, store the refresh token's digest on the row, and set the cookie to
     * exactly that refresh token. When the row is gone the 404 propagates and no
     * cookie is set.
     */
    method IssueSession(id: UserId, view: UserView, now: nat, salt: nat)
      returns (r: Outcome<AuthResponse>, cookie: CookieEffect)
      requires db.Valid()
      modifies db
      ensures db.Valid() && db.ideas == old(db.ideas)
      ensures IndexOfId(old(db.users), id).None? ==>
                r == Err(NotFound(UserNotFound)) && cookie == KeepCookie && db.users == old(db.users)
      ensures IndexOfId(old(db.users), id).Some? ==>
                var p := GetTokens(id, now);
                && db.users == StoreRefreshDigest(old(db.users), IndexOfId(old(db.users), id).value, p.refresh, salt)
                && cookie == SetRefreshCookie(p.refresh)
                && r == Ok(AuthResponse(p.access, view))
    {
      var tokens := GetTokens(id, now);
      var stored := UpdateUserRefreshToken(id, tokens.refresh, salt);
      if stored.Err? {
        return Err(stored.error), KeepCookie;
      }
      cookie := SetRefreshCookie(tokens.refresh);
      r := Ok(AuthResponse(tokens.access, view));
    }

    /**
     * `signup(res, dto)`: a 409 when the email is on file, with nothing
     * stored; otherwise a new row holding the password's digest, a fresh session
     * whose refresh digest is that of the cookie's token, and a response naming
     * only id, username and email.
     */
    method Signup(dto: CreateUserDto.SignupDto, newId: UserId, now: nat, passwordSalt: nat, tokenSalt: nat)
      returns (r: Outcome<AuthResponse>, cookie: CookieEffect)
      requires db.Valid()
      requires IndexOfId(db.users, newId).None?  // the generated primary key is fresh
      modifies db
      ensures db.Valid() && db.ideas == old(db.ideas)
      ensures IndexOfEmail(old(db.users), dto.email).Some? ==>
                r == Err(Conflict(EmailTaken)) && cookie == KeepCookie && db.users == old(db.users)
      ensures IndexOfEmail(old(db.users), dto.email).None? ==>
                var p := GetTokens(newId, now);
                && db.users == old(db.users) + [User(newId, dto.email, dto.username, Hash(dto.password, passwordSalt),
                                                     Some(Hash(p.refresh, tokenSalt)))]
                && cookie == SetRefreshCookie(p.refresh)
                && r == Ok(AuthResponse(p.access, UserView(newId, dto.username, dto.email)))
    {
      if IndexOfEmail(db.users, dto.email).Some? {
        return Err(Conflict(EmailTaken)), KeepCookie;
      }
      var user := User(newId, dto.email, dto.username, Hash(dto.password, passwordSalt), None);
      InsertKeepsConsistent(db.users, db.ideas, user);
      db.users := db.users + [user];
      assert db.users[|db.users| - 1].id == newId;
      r, cookie := IssueSession(newId, UserView(user.id, user.username, user.email), now, tokenSalt);
    }

    /**
     * `login(res, user)`, reached with the row the password gate produced:
     * rotates the session exactly as IssueSession states; the response repeats
     * the id, username and email of the `user` handed in.
     */
    method Login(user: SafeUser, now: nat, salt: nat) returns (r: Outcome<AuthResponse>, cookie: CookieEffect)
      requires db.Valid()
      modifies db
      ensures db.Valid() && db.ideas == old(db.ideas)
      ensures IndexOfId(old(db.users), user.id).None? ==>
                r == Err(NotFound(UserNotFound)) && cookie == KeepCookie && db.users == old(db.users)
      ensures IndexOfId(old(db.users), user.id).Some? ==>
                var p := GetTokens(user.id, now);
                && db.users == StoreRefreshDigest(old(db.users), IndexOfId(old(db.users), user.id).value, p.refresh, salt)
                && cookie == SetRefreshCookie(p.refresh)
                && r == Ok(AuthResponse(p.access, UserView(user.id, user.username, user.email)))
    {
      r, cookie := IssueSession(user.id, UserView(user.id, user.username, user.email), now, salt);
    }

    /**
     * `refreshTokens(res, user)`, reached with the principal the refresh gate
     * produced: rotates the session exactly as login does.
     */
    method RefreshTokens(principal: RefreshPrincipal, now: nat, salt: nat)
      returns (r: Outcome<AuthResponse>, cookie: CookieEffect)
      requires db.Valid()
      modifies db
      ensures db.Valid() && db.ideas == old(db.ideas)
      ensures IndexOfId(old(db.users), principal.user.id).None? ==>
                r == Err(NotFound(UserNotFound)) && cookie == KeepCookie && db.users == old(db.users)
      ensures IndexOfId(old(db.users), principal.user.id).Some? ==>
                var u := principal.user;
                var p := GetTokens(u.id, now);
                && db.users == StoreRefreshDigest(old(db.users), IndexOfId(old(db.users), u.id).value, p.refresh, salt)
                && cookie == SetRefreshCookie(p.refresh)
                && r == Ok(AuthResponse(p.access, UserView(u.id, u.username, u.email)))
    {
      var u := principal.user;
      r, cookie := IssueSession(u.id, UserView(u.id, u.username, u.email), now, salt);
    }

    /**
     * `logout(res, id)`: the cookie is cleared before the lookup, so also on
     * the 404; for a known id the refresh digest becomes NULL and nothing else
     * changes. A second logout succeeds and leaves the same state.
     */
    method Logout(id: UserId) returns (r: Outcome<()>, cookie: CookieEffect)
      requires db.Valid()
      modifies db
      ensures db.Valid() && db.ideas == old(db.ideas)
      ensures cookie == ClearRefreshCookie
      ensures IndexOfId(old(db.users), id).None? ==>
                r == Err(NotFound(LogoutUserNotFound)) && db.users == old(db.users)
      ensures IndexOfId(old(db.users), id).Some? ==>
                r == Ok(()) && db.users == ClearRefreshDigest(old(db.users), IndexOfId(old(db.users), id).value)
    {
      cookie := ClearRefreshCookie;
      var found := IndexOfId(db.users, id);
      if found.None? {
        return Err(NotFound(LogoutUserNotFound)), cookie;
      }
      var i := found.value;
      var user := Assign(db.users[i], UserAttrs(None, None, Some(None)));
      RowUpdateKeepsConsistent(db.users, db.ideas, i, user);
      db.users := db.users[i := user];
      r := Ok(());
    }
  }
}
