/**
 * The `User` entity: one row of the users table, and the views of it that the
 * services hand out.
 */
module UserEntity {
  import opened Wrappers
  import opened Crypto
  import opened Bcrypt

  /** A generated UUID primary key (36 characters when printed). */
  type UserId = string

  /**
   * A user row. `password` holds the bcrypt digest of the password, never the
   * plaintext; `hashedRefreshToken` is the nullable digest of the most recently
   * issued refresh token, and `None` (SQL NULL) means no refresh session is
   * trusted. `username` carries no uniqueness constraint.
   */
  datatype User = User(
    id: UserId,
    email: string,
    username: string,
    password: Digest<string>,
    hashedRefreshToken: Option<Digest<TokenText>>)

  /** The row without its `password` field: `const { password, ...result } = user`. */
  datatype SafeUser = SafeUser(
    id: UserId,
    email: string,
    username: string,
    hashedRefreshToken: Option<Digest<TokenText>>)

  /** The user object that signup, login and refresh put in their response body. */
  datatype UserView = UserView(id: UserId, username: string, email: string)

  /** The `{ id, username }` projection the ideas service gives creators and followers. */
  datatype UserRef = UserRef(id: UserId, username: string)

  /** `const { password, ...result } = user`: every field but the password digest. */
  function WithoutPassword(u: User): (r: SafeUser)
    ensures r.id == u.id && r.email == u.email && r.username == u.username
    ensures r.hashedRefreshToken == u.hashedRefreshToken
  {
    SafeUser(u.id, u.email, u.username, u.hashedRefreshToken)
  }

  /** The view forgets the password and nothing else: two rows give the same view exactly when only their passwords differ. */
  lemma WithoutPasswordForgetsOnlyPassword(u1: User, u2: User)
    ensures WithoutPassword(u1) == WithoutPassword(u2) <==> u1.(password := u2.password) == u2
  {
    if WithoutPassword(u1) == WithoutPassword(u2) {
      assert WithoutPassword(u1).id == u2.id && WithoutPassword(u1).email == u2.email;
    }
  }

  /**
   * The fields of a `Partial<User>` that the services pass to their update
   * helpers; a present field replaces the row's value, an absent one keeps it.
   */
  datatype UserAttrs = UserAttrs(
    email: Option<string>,
    username: Option<string>,
    hashedRefreshToken: Option<Option<Digest<TokenText>>>)

  /**
   * `Object.assign(user, attrs)`: each present attribute replaces the row's
   * value, each absent one keeps it; the id and the password digest are never
   * among the attributes, so they are kept.
   */
  function Assign(u: User, a: UserAttrs): (r: User)
    ensures r.id == u.id && r.password == u.password
    ensures r.email == (if a.email.Some? then a.email.value else u.email)
    ensures r.username == (if a.username.Some? then a.username.value else u.username)
    ensures r.hashedRefreshToken == (if a.hashedRefreshToken.Some? then a.hashedRefreshToken.value else u.hashedRefreshToken)
  {
    u.(email := if a.email.Some? then a.email.value else u.email,
       username := if a.username.Some? then a.username.value else u.username,
       hashedRefreshToken := if a.hashedRefreshToken.Some? then a.hashedRefreshToken.value else u.hashedRefreshToken)
  }

  /** Assigning the same attributes twice changes nothing more; assigning none changes nothing. */
  lemma AssignIdempotent(u: User, a: UserAttrs)
    ensures Assign(Assign(u, a), a) == Assign(u, a)
    ensures Assign(u, UserAttrs(None, None, None)) == u
  {
  }

  /** A refresh session is trusted for `u` exactly when a refresh-token digest is stored. */
  predicate SessionActive(u: User)
  {
    u.hashedRefreshToken.Some?
  }

  /**
   * The table constraints: `id` is the primary key and `email` carries a
   * unique index, so no two rows share either.
   */
  ghost predicate UniqueUsers(users: seq<User>)
  {
    forall i, j :: 0 <= i < j < |users| ==> users[i].id != users[j].id && users[i].email != users[j].email
  }
}
