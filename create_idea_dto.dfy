/** `CreateIdeaDto`, the body of `POST /ideas`, and the ValidationPipe check applied to it. */
module CreateIdeaDto {
  import opened Wrappers
  import opened Errors
  import opened Validation
  import IdeaEntity

  const Declared: set<string> := {"name", "description"}

  datatype IdeaDto = IdeaDto(name: string, description: string)

  /** `@IsNotEmpty() @IsString() @MinLength(2) @MaxLength(40)`. */
  predicate NameOk(s: string)
  {
    s != "" && 2 <= ValidatorLength(s) <= 40
  }

  /** `@IsNotEmpty() @IsString() @MinLength(3)`; no maximum. */
  predicate DescriptionOk(s: string)
  {
    s != "" && ValidatorLength(s) >= 3
  }

  predicate Valid(dto: IdeaDto)
  {
    NameOk(dto.name) && DescriptionOk(dto.description)
  }

  function ToBody(dto: IdeaDto): Body
  {
    map["name" := Str(dto.name), "description" := Str(dto.description)]
  }

  /**
   * The pipe: accepts exactly the bodies holding the two declared string
   * properties, nothing else, with values meeting every constraint. An
   * accepted name has at most 40 characters besides variation selectors.
   */
  function Parse(body: Body): (r: Outcome<IdeaDto>)
    ensures r.Ok? ==> Valid(r.value) && ToBody(r.value) == body
    ensures r.Ok? ==> ValidatorLength(r.value.name) <= 40 && |r.value.name| >= 2
    ensures r.Err? ==> r.error == BadRequest
    ensures r.Err? ==> forall dto :: Valid(dto) ==> ToBody(dto) != body
  {
    var name, description := StringField(body, "name"), StringField(body, "description");
    if Whitelisted(body, Declared) && name.Some? && description.Some?
       && Valid(IdeaDto(name.value, description.value))
    then
      var dto := IdeaDto(name.value, description.value);
      assert body.Keys == ToBody(dto).Keys;
      Ok(dto)
    else
      Err(BadRequest)
  }

  /** Every valid DTO, sent as a body, passes the pipe unchanged. */
  lemma ParseAcceptsValid(dto: IdeaDto)
    requires Valid(dto)
    ensures Parse(ToBody(dto)) == Ok(dto)
  {
    var body := ToBody(dto);
    assert StringField(body, "name") == Some(dto.name);
    assert StringField(body, "description") == Some(dto.description);
  }

  /**
   * Variation selectors do not count towards `@MaxLength(40)`, so the pipe
   * accepts a 201-character name, which the 200-character column then
   * refuses.
   */
  lemma OverlongNameAccepted(description: string)
    requires DescriptionOk(description)
    ensures var name := "ab" + seq(199, _ => '\U{FE0F}');
            |name| > IdeaEntity.NameColumnLength && Parse(ToBody(IdeaDto(name, description))) == Ok(IdeaDto(name, description))
  {
    var name := "ab" + seq(199, _ => '\U{FE0F}');
    SelectorsUncounted(199);
    ValidatorLengthAppend("ab", seq(199, _ => '\U{FE0F}'));
    ParseAcceptsValid(IdeaDto(name, description));
  }
}
