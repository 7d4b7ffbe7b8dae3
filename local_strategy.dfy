/**
 * `LocalStrategy`: the password gate in front of login. The credentials are
 * the body's `email` and `password` fields; the store is only read.
 */
module LocalStrategy {
  import opened Wrappers
  import opened Errors
  import opened Crypto
  import opened Bcrypt
  import opened UserEntity
  import Auth

  /** The body field passport-local reads as the username. */
  const UsernameField := "email"
  const PasswordField := "password"
  const InvalidCredentials := "Invalid credentials"

  /**
   * `validate(email, password)`: exactly validateUser's user when the
   * password matches, 401 "Invalid credentials" when it does not, and the 404
   * of validateUser when no row has that email, which keeps an unknown email
   * distinguishable from a wrong password.
   */
  function Validate(users: seq<User>, email: string, password: string): (r: Outcome<SafeUser>)
    ensures r.Ok? <==> Auth.ValidateUser(users, email, password).Ok? && Auth.ValidateUser(users, email, password).value.Some?
    ensures r.Ok? ==> r.value == Auth.ValidateUser(users, email, password).value.value
    ensures r == Err(NotFound(UserNotFound)) <==> forall k :: 0 <= k < |users| ==> users[k].email != email
    ensures UniqueUsers(users) && r.Err? && r.error != NotFound(UserNotFound) ==>
              r.error == Unauthorized(InvalidCredentials)
              && forall u :: u in users && u.email == email ==> !Compare(password, u.password)
  {
    match Auth.ValidateUser(users, email, password)
    case Err(e) => Err(e)
    case Ok(found) =>
      if found.None? then Err(Unauthorized(InvalidCredentials)) else Ok(found.value)
  }

  /**
   * passport-local's `lookup(req.body, field) || lookup(req.query, field)`:
   * the body's value unless it is missing or empty, and then the query
   * string's; "" stands for a value that is missing everywhere.
   */
  function Credential(body: map<string, string>, query: map<string, string>, field: string): (v: string)
    ensures v != "" <==> (field in body && body[field] != "") || (field in query && query[field] != "")
    ensures field in body && body[field] != "" ==> v == body[field]
    ensures v != "" && (field !in body || body[field] == "") ==> v == query[field]
  {
    if field in body && body[field] != "" then body[field]
    else if field in query then query[field]
    else ""
  }

  /**
   * The gate as the guard runs it: passport-local fails with a plain 401
   * before calling `validate` when either credential is missing or empty in
   * both the body and the query string.
   */
  function Gate(users: seq<User>, body: map<string, string>, query: map<string, string>): (r: Outcome<SafeUser>)
    ensures (Credential(body, query, UsernameField) == "" || Credential(body, query, PasswordField) == "")
              ==> r == Err(Unauthorized(DefaultUnauthorized))
    ensures r.Ok? ==> exists u :: u in users && u.email == Credential(body, query, UsernameField)
                                && Compare(Credential(body, query, PasswordField), u.password)
                                && r.value == WithoutPassword(u)
    ensures UniqueUsers(users) ==>
              (r.Ok? <==> && Credential(body, query, UsernameField) != "" && Credential(body, query, PasswordField) != ""
                          && exists u :: u in users && u.email == Credential(body, query, UsernameField)
                                         && Compare(Credential(body, query, PasswordField), u.password))
  {
    var email, password := Credential(body, query, UsernameField), Credential(body, query, PasswordField);
    if email == "" || password == "" then Err(Unauthorized(DefaultUnauthorized))
    else Validate(users, email, password)
  }

  /**
   * A body that carries both credentials decides alone; the query string only
   * fills in what the body leaves missing or empty.
   */
  lemma QueryOnlyFillsGaps(users: seq<User>, body: map<string, string>, query: map<string, string>)
    requires UsernameField in body && body[UsernameField] != "" && PasswordField in body && body[PasswordField] != ""
    ensures Gate(users, body, query) == Gate(users, body, map[])
    ensures Gate(users, map[], query) == Gate(users, query, map[])
  {
  }
}
