/**
 * `CreateUserDto`, the body of `POST /auth/signup`, and the ValidationPipe
 * check applied to it. The `@IsEmail()` format test belongs to the validator
 * library and is a parameter here.
 */
module CreateUserDto {
  import opened Wrappers
  import opened Errors
  import opened Validation

  const Declared: set<string> := {"email", "username", "password"}

  datatype SignupDto = SignupDto(email: string, username: string, password: string)

  /** `@IsNotEmpty() @IsString() @IsEmail()`. */
  predicate EmailOk(s: string, isEmail: string -> bool)
  {
    s != "" && isEmail(s)
  }

  /** `@IsNotEmpty() @IsString() @MinLength(3)`. */
  predicate UsernameOk(s: string)
  {
    s != "" && ValidatorLength(s) >= 3
  }

  /**
   * `@IsString() @MaxLength(25) @MinLength(6) @IsNotEmpty()`. The rule asking
   * for an upper-case letter is commented out in the DTO and is not applied.
   */
  predicate PasswordOk(s: string)
  {
    s != "" && 6 <= ValidatorLength(s) <= 25
  }

  predicate Valid(dto: SignupDto, isEmail: string -> bool)
  {
    EmailOk(dto.email, isEmail) && UsernameOk(dto.username) && PasswordOk(dto.password)
  }

  /** The JSON body a client sends for `dto`. */
  function ToBody(dto: SignupDto): Body
  {
    map["email" := Str(dto.email), "username" := Str(dto.username), "password" := Str(dto.password)]
  }

  /**
   * The pipe: accepts exactly the bodies that hold the three declared string
   * properties, nothing else, and values meeting every constraint; anything
   * else is a 400.
   */
  function Parse(body: Body, isEmail: string -> bool): (r: Outcome<SignupDto>)
    ensures r.Ok? ==> Valid(r.value, isEmail) && ToBody(r.value) == body
    ensures r.Err? ==> r.error == BadRequest
    ensures r.Err? ==> forall dto :: Valid(dto, isEmail) ==> ToBody(dto) != body
  {
    var email, username, password :=
      StringField(body, "email"), StringField(body, "username"), StringField(body, "password");
    if Whitelisted(body, Declared) && email.Some? && username.Some? && password.Some?
       && Valid(SignupDto(email.value, username.value, password.value), isEmail)
    then
      var dto := SignupDto(email.value, username.value, password.value);
      assert body.Keys == ToBody(dto).Keys;
      Ok(dto)
    else
      Err(BadRequest)
  }

  /** Every valid DTO, sent as a body, passes the pipe unchanged. */
  lemma ParseAcceptsValid(dto: SignupDto, isEmail: string -> bool)
    requires Valid(dto, isEmail)
    ensures Parse(ToBody(dto), isEmail) == Ok(dto)
  {
    var body := ToBody(dto);
    assert StringField(body, "email") == Some(dto.email);
    assert StringField(body, "username") == Some(dto.username);
    assert StringField(body, "password") == Some(dto.password);
  }

  /** A body with one undeclared property is rejected, even if the rest is valid. */
  lemma ExtraPropertyRejected(dto: SignupDto, key: string, v: JsonValue, isEmail: string -> bool)
    requires key !in Declared
    ensures Parse(ToBody(dto)[key := v], isEmail) == Err(BadRequest)
  {
    var body := ToBody(dto)[key := v];
    assert key in body.Keys;
  }

  /** A 2-character user name fails `@MinLength(3)`, whatever the other fields are. */
  lemma TwoCharacterUsernameRejected(email: string, password: string, isEmail: string -> bool)
    ensures Parse(ToBody(SignupDto(email, "ab", password)), isEmail) == Err(BadRequest)
  {
    var dto := SignupDto(email, "ab", password);
    assert !UsernameOk("ab");
    assert StringField(ToBody(dto), "username") == Some("ab");
  }

  /** An all-lower-case password of legal length is accepted: no upper-case rule is enforced. */
  lemma LowerCasePasswordAccepted(email: string, isEmail: string -> bool)
    requires EmailOk(email, isEmail)
    ensures Parse(ToBody(SignupDto(email, "alice", "secret1")), isEmail).Ok?
  {
    ParseAcceptsValid(SignupDto(email, "alice", "secret1"), isEmail);
  }
}
