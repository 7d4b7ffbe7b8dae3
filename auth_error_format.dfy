/**
 * The front end's `handleAuthError`: turns whatever an auth request threw
 * into the text shown to the user, one bulleted line per server message.
 */
module AuthErrorFormat {
  import opened Wrappers

  /** `response.data.message`: an array, a string, or anything else (absent included). */
  datatype MessageField = Messages(items: seq<string>) | Message(text: string) | NoMessage

  /**
   * `response.data`: null or undefined, or any other value. A falsy value
   * that is not null or undefined has no `message` and is `Data(NoMessage)`.
   */
  datatype ResponseData = NullData | Data(message: MessageField)

  /** What was caught: an axios error, another `Error`, or any other value. */
  datatype Caught =
    | AxiosErr(response: Option<ResponseData>, message: string)
    | PlainErr(message: string)
    | Other

  /**
   * The function's outcome: the text, or the TypeError raised by reading
   * `message` of a null `response.data` in the second test.
   */
  datatype Handled = Shown(text: string) | TypeErrorThrown

  const DefaultMessage := "An unexpected error occurred."

  /** The bullet and the space before each message. */
  const Bullet := "\U{2022} "

  /** `lines.join("\n")`. */
  function JoinLines(lines: seq<string>): (s: string)
    ensures lines == [] ==> s == ""
    ensures |lines| == 1 ==> s == lines[0]
  {
    if lines == [] then ""
    else if |lines| == 1 then lines[0]
    else lines[0] + "\n" + JoinLines(lines[1..])
  }

  /** `s.split("\n")`: never empty; the empty string gives one empty line. */
  function SplitLines(s: string): (lines: seq<string>)
    ensures |lines| >= 1
    ensures '\n' !in s ==> lines == [s]
  {
    if s == [] then [""]
    else
      var rest := SplitLines(s[1..]);
      assert s == [s[0]] + s[1..];
      if s[0] == '\n' then [""] + rest else [[s[0]] + rest[0]] + rest[1..]
  }

  /** A line without a line break followed by a break ends the first piece of the split. */
  lemma {:induction false} SplitAfterLine(a: string, b: string)
    requires '\n' !in a
    ensures SplitLines(a + "\n" + b) == [a] + SplitLines(b)
  {
    if a == [] {
      assert a + "\n" + b == "\n" + b;
      assert ("\n" + b)[1..] == b;
    } else {
      assert (a + "\n" + b)[0] == a[0];
      assert (a + "\n" + b)[1..] == a[1..] + "\n" + b;
      SplitAfterLine(a[1..], b);
      assert [a[0]] + a[1..] == a;
    }
  }

  /** Splitting undoes joining, for at least one line and lines without breaks. */
  lemma {:induction false} SplitJoin(lines: seq<string>)
    requires |lines| >= 1 && forall i :: 0 <= i < |lines| ==> '\n' !in lines[i]
    ensures SplitLines(JoinLines(lines)) == lines
  {
    if |lines| > 1 {
      SplitAfterLine(lines[0], JoinLines(lines[1..]));
      SplitJoin(lines[1..]);
      assert [lines[0]] + lines[1..] == lines;
    }
  }

  /** A character put in front of the first line comes first in the joined text. */
  lemma JoinPrefixFirstLine(c: char, lines: seq<string>)
    requires |lines| >= 1
    ensures JoinLines([[c] + lines[0]] + lines[1..]) == [c] + JoinLines(lines)
  {
    var front := [[c] + lines[0]] + lines[1..];
    if |lines| > 1 {
      assert front[1..] == lines[1..];
      assert JoinLines(front) == ([c] + lines[0]) + "\n" + JoinLines(lines[1..]);
    }
  }

  /** Joining undoes splitting, for every string. */
  lemma {:induction false} JoinSplit(s: string)
    ensures JoinLines(SplitLines(s)) == s
  {
    if s != [] {
      var rest := SplitLines(s[1..]);
      JoinSplit(s[1..]);
      assert s == [s[0]] + s[1..];
      if s[0] == '\n' {
        assert SplitLines(s) == [""] + rest;
        assert ([""] + rest)[1..] == rest;
      } else {
        assert SplitLines(s) == [[s[0]] + rest[0]] + rest[1..];
        JoinPrefixFirstLine(s[0], rest);
      }
    }
  }

  /** `messages.map(msg => `• ${msg}`)`. */
  function Bulleted(messages: seq<string>): (lines: seq<string>)
    ensures |lines| == |messages|
    ensures forall i :: 0 <= i < |messages| ==> lines[i] == Bullet + messages[i]
  {
    seq(|messages|, i requires 0 <= i < |messages| => Bullet + messages[i])
  }

  /**
   * `handleAuthError(err)`: the server's message array as bulleted lines; a
   * single server message bulleted; otherwise the axios error's own message
   * bulleted when non-empty; a plain Error's message bulleted; and the default
   * text for anything else.
   */
  function HandleAuthError(err: Caught): (r: Handled)
    ensures err.Other? ==> r == Shown(DefaultMessage)
    ensures err.PlainErr? ==> r == Shown(Bullet + err.message)
    ensures err.AxiosErr? && err.response == Some(NullData) <==> r == TypeErrorThrown
    ensures err.AxiosErr? && err.response.Some? && err.response.value.Data? ==>
              match err.response.value.message
              case Messages(ms) => r == Shown(JoinLines(Bulleted(ms)))
              case Message(t) => r == Shown(Bullet + t)
              case NoMessage => r == Shown(if err.message != "" then Bullet + err.message else DefaultMessage)
    ensures err.AxiosErr? && err.response.None? ==>
              r == Shown(if err.message != "" then Bullet + err.message else DefaultMessage)
  {
    match err
    case AxiosErr(response, message) =>
      if response.Some? && response.value.Data? && response.value.message.Messages? then
        Shown(JoinLines(Bulleted(response.value.message.items)))
      else if response.Some? && response.value.NullData? then
        TypeErrorThrown
      else if response.Some? && response.value.message.Message? then
        Shown(Bullet + response.value.message.text)
      else if message != "" then
        Shown(Bullet + message)
      else
        Shown(DefaultMessage)
    case PlainErr(message) => Shown(Bullet + message)
    case Other => Shown(DefaultMessage)
  }

  /**
   * A non-empty message array whose messages hold no line break is shown as
   * exactly one line per message, each the message behind a bullet; an empty
   * array is shown as the empty string.
   */
  lemma OneLinePerMessage(response: ResponseData, axiosMessage: string)
    requires response.Data? && response.message.Messages?
    requires forall i :: 0 <= i < |response.message.items| ==> '\n' !in response.message.items[i]
    ensures var r := HandleAuthError(AxiosErr(Some(response), axiosMessage));
            && r.Shown?
            && (response.message.items == [] ==> r.text == "")
            && (response.message.items != [] ==> SplitLines(r.text) == Bulleted(response.message.items))
  {
    var ms := response.message.items;
    if ms != [] {
      forall i | 0 <= i < |ms| ensures '\n' !in Bulleted(ms)[i] {
        assert Bulleted(ms)[i] == Bullet + ms[i];
      }
      SplitJoin(Bulleted(ms));
    }
  }
}
