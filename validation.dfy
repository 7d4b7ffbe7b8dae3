/**
 * The request-body shape the global ValidationPipe sees (`whitelist: true`,
 * `forbidNonWhitelisted: true`): a JSON object whose properties are strings or
 * something else.
 */
module Validation {
  import opened Wrappers

  datatype JsonValue = Str(s: string) | NonString

  type Body = map<string, JsonValue>

  /** With `forbidNonWhitelisted`, a property the DTO does not declare rejects the body. */
  predicate Whitelisted(body: Body, declared: set<string>)
  {
    body.Keys <= declared
  }

  /** The property `key` when it is present and a string (`@IsString`). */
  function StringField(body: Body, key: string): (r: Option<string>)
    ensures r.Some? <==> key in body && body[key].Str?
    ensures r.Some? ==> body[key] == Str(r.value)
  {
    if key in body && body[key].Str? then Some(body[key].s) else None
  }

  /** The two variation selectors validator.js leaves out of a length. */
  predicate IsVariationSelector(c: char)
  {
    c == '\U{FE0E}' || c == '\U{FE0F}'
  }

  /**
   * The length `@MinLength` and `@MaxLength` compare, modelled on
   * validator.js 13.x `isLength`: code points, a surrogate pair counting
   * once, less the variation selectors U+FE0E and U+FE0F.
   */
  function ValidatorLength(s: string): (n: nat)
    ensures n <= |s|
    ensures (forall i :: 0 <= i < |s| ==> !IsVariationSelector(s[i])) ==> n == |s|
  {
    if s == [] then 0 else (if IsVariationSelector(s[0]) then 0 else 1) + ValidatorLength(s[1..])
  }

  lemma {:induction false} ValidatorLengthAppend(a: string, b: string)
    ensures ValidatorLength(a + b) == ValidatorLength(a) + ValidatorLength(b)
  {
    if a == [] {
      assert a + b == b;
    } else {
      assert (a + b)[0] == a[0] && (a + b)[1..] == a[1..] + b;
      ValidatorLengthAppend(a[1..], b);
    }
  }

  /** A run of variation selectors adds nothing to the validator's length. */
  lemma {:induction false} SelectorsUncounted(n: nat)
    ensures ValidatorLength(seq(n, _ => '\U{FE0F}')) == 0
  {
    if n > 0 {
      assert seq(n, _ => '\U{FE0F}')[1..] == seq(n - 1, _ => '\U{FE0F}');
      SelectorsUncounted(n - 1);
    }
  }
}
