/** Go `error` values as the core sees them, and the text of
    `buildError` (build_error.go). */
module Errors {
  import opened Wrappers
  import opened Text

  /** An error value. Go compares errors by identity, so the sentinel
      `errNotFound` is its own case; every other error the environment
      reports (the os package, net/http, a page renderer) is a `Failure`
      carrying its text; `BuildError` is build_error.go's `buildError`,
      a message wrapping an optional cause. */
  datatype Err =
    | NotFound
    | Failure(text: string)
    | BuildError(message: string, cause: Option<Err>)

  /** The text of `errNotFound` (static.go). */
  const NotFoundText: string := "No handler for path"

  /** `Error()`: for a `buildError`, the message, followed by `": "` and
      the cause's own text when there is a cause. */
  function ErrorText(e: Err): (s: string)
    ensures e.BuildError? ==> HasPrefix(s, e.message)
    ensures e.BuildError? && e.cause.None? ==> s == e.message
    ensures e.BuildError? && e.cause.Some? ==>
      |s| > |e.message| + 1 && s[|e.message|..|e.message| + 2] == ": " &&
      s[|e.message| + 2..] == ErrorText(e.cause.value)
  {
    match e
    case NotFound => NotFoundText
    case Failure(t) => t
    case BuildError(m, c) =>
      match c
      case None => m
      case Some(cause) => m + ": " + ErrorText(cause)
  }

  /** The cause's text can be found inside a build error's text, which is
      how callers recognise an underlying "not a directory". */
  lemma CauseTextContained(message: string, cause: Err)
    ensures Contains(ErrorText(BuildError(message, Some(cause))), ErrorText(cause))
  {
    ContainsInside(message + ": ", ErrorText(cause), "");
    assert message + ": " + ErrorText(cause) + "" == message + ": " + ErrorText(cause);
  }

  /** Anything contained in a cause's text is contained in the build
      error's text. */
  lemma ContainedInCause(message: string, cause: Err, t: string)
    requires Contains(ErrorText(cause), t)
    ensures Contains(ErrorText(BuildError(message, Some(cause))), t)
  {
    var c := ErrorText(cause);
    var i :| 0 <= i <= |c| - |t| && OccursAt(c, t, i);
    var s := ErrorText(BuildError(message, Some(cause)));
    var k := |message| + 2 + i;
    assert s[k..k + |t|] == c[i..i + |t|];
    assert OccursAt(s, t, k);
  }

  /** Reads a build error's text back into its message and the cause's
      text, cutting at the first `:`. */
  function SplitErrorText(s: string): (string, Option<string>) {
    var (message, rest) := Cut(s, ':');
    if HasPrefix(rest, ": ") then (message, Some(rest[2..])) else (s, None)
  }

  /** For a message without a colon, `Error()` loses nothing: the message
      and the cause's text can be read back. */
  lemma SplitErrorTextInverse(message: string, cause: Option<Err>)
    requires ':' !in message
    ensures SplitErrorText(ErrorText(BuildError(message, cause))) ==
      (message, match cause case None => None case Some(c) => Some(ErrorText(c)))
  {
    var s := ErrorText(BuildError(message, cause));
    match cause
    case None =>
      assert s == message + [];
      CutAt(message, [], ':');
    case Some(c) =>
      var rest := ": " + ErrorText(c);
      assert s == message + rest;
      CutAt(message, rest, ':');
      assert rest[2..] == ErrorText(c);
  }
}
