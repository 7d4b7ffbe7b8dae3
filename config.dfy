/**
 * The startup checks on the environment: a strategy that needs a signing
 * secret refuses to be constructed when the variable is unset or empty.
 */
module Config {
  import opened Wrappers

  /**
   * `configService.get(name)` followed by `if (!secret) throw new Error(message)`:
   * the secret when it is set to a non-empty string, otherwise the error.
   */
  function RequireSecret(env: Option<string>, message: string): (r: Result<string, string>)
    ensures r.Ok? <==> env.Some? && env.value != ""
    ensures r.Ok? ==> r.value == env.value
    ensures r.Err? ==> r.error == message
  {
    if env.Some? && env.value != "" then Ok(env.value) else Err(message)
  }
}
