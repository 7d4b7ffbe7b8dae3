/** The parts of an incoming HTTP request the gates read. */
module Http {
  import opened Wrappers
  import opened Crypto

  /**
   * A cookie after `cookie-parser`: plain text, or a value written with the
   * `j:` prefix, which the parser turns into a JSON object.
   */
  datatype CookieValue = TextCookie(token: TokenText) | JsonCookie

  /** The name of the cookie that carries the refresh token. */
  const RefreshCookieName := "refresh_token"

  /** An `Authorization` header split at its first run of white space. */
  datatype AuthHeader = AuthHeader(scheme: string, credentials: TokenText)

  /** ASCII lower-casing, as `toLowerCase` acts on the letters of a scheme name. */
  function Lower(c: char): (l: char)
    ensures 'A' <= c <= 'Z' ==> l as int == c as int + 32
    ensures !('A' <= c <= 'Z') ==> l == c
  {
    if 'A' <= c <= 'Z' then (c as int + 32) as char else c
  }

  /** Case-insensitive equality of a header's scheme with a lower-case name. */
  predicate SchemeIs(scheme: string, name: string)
  {
    |scheme| == |name| && forall i :: 0 <= i < |scheme| ==> Lower(scheme[i]) == name[i]
  }
}
