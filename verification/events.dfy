/** event.go: the record the build hands to the event handler for every
    path, and its one-line text form. */
module Events {
  import opened Wrappers
  import opened Text
  import opened Errors

  /** A build event. `outputPath` is set by build.go although event.go's
      declaration lacks it; `String` does not print it. */
  datatype Event = Event(
    action: string,
    statusCode: int,
    path: string,
    outputPath: string,
    error: Option<Err>)

  const ActionLabel: string := "Action: "
  const StatusLabel: string := ", StatusCode: "
  const PathLabel: string := ", Path: "
  const ErrorLabel: string := ", Error: "

  /** The line for an event without an error. */
  function PlainLine(action: string, statusCode: int, path: string): string {
    ActionLabel + action + StatusLabel + IntToString(statusCode) + PathLabel + path
  }

  /** What the error adds to the line: nothing, or its label and text. */
  function ErrorSuffix(error: Option<Err>): string {
    match error
    case None => ""
    case Some(err) => ErrorLabel + ErrorText(err)
  }

  /** `String()`: the action, the decimal status code and the path, then
      the error's text when there is one. */
  function String(e: Event): (r: string)
    ensures HasPrefix(r, PlainLine(e.action, e.statusCode, e.path))
    ensures e.error.None? <==> |r| == |PlainLine(e.action, e.statusCode, e.path)|
  {
    PlainLine(e.action, e.statusCode, e.path) + ErrorSuffix(e.error)
  }

  /** The fields a line shows, with the error as its text. */
  datatype Shown = Shown(action: string, statusCode: int, path: string, errorText: Option<string>)

  function ShownFields(e: Event): Shown {
    Shown(e.action, e.statusCode, e.path,
      match e.error case None => None case Some(err) => Some(ErrorText(err)))
  }

  /** The comma-free field after `tag` at the start of `s`, and the
      text after the field. */
  function Field(s: string, tag: string): Option<(string, string)> {
    if HasPrefix(s, tag) then Some(Cut(s[|tag|..], ',')) else None
  }

  /** Reads a line back into the fields it shows; `None` for text that is
      not such a line. */
  function ParseLine(s: string): Option<Shown> {
    match Field(s, ActionLabel)
    case None => None
    case Some((action, r1)) =>
      match Field(r1, StatusLabel)
      case None => None
      case Some((digits, r2)) =>
        match ParseInt(digits)
        case None => None
        case Some(code) =>
          match Field(r2, PathLabel)
          case None => None
          case Some((path, r3)) =>
            if r3 == "" then Some(Shown(action, code, path, None))
            else if HasPrefix(r3, ErrorLabel) then Some(Shown(action, code, path, Some(r3[|ErrorLabel|..])))
            else None
  }

  /** A line without an error is exactly the plain line. */
  lemma StringWithoutError(e: Event)
    requires e.error.None?
    ensures String(e) == PlainLine(e.action, e.statusCode, e.path)
  {
    assert PlainLine(e.action, e.statusCode, e.path) + "" == PlainLine(e.action, e.statusCode, e.path);
  }

  /** Adding an error only appends `", Error: "` and its text, so the line
      without the error is a prefix of the line with it. */
  lemma StringWithError(e: Event, err: Err)
    ensures String(e.(error := Some(err))) == String(e.(error := None)) + ErrorLabel + ErrorText(err)
    ensures HasPrefix(String(e.(error := Some(err))), String(e.(error := None)))
  {
    StringWithoutError(e.(error := None));
    var p := PlainLine(e.action, e.statusCode, e.path);
    assert String(e.(error := Some(err))) == p + (ErrorLabel + ErrorText(err));
    assert (p + (ErrorLabel + ErrorText(err)))[..|p|] == p;
  }

  /** The line shows the action, status code, path and error text, and
      they can be read back from it when neither the action nor the path
      contains a comma. */
  lemma ParseString(e: Event)
    requires ',' !in e.action && ',' !in e.path
    ensures ParseLine(String(e)) == Some(ShownFields(e))
  {
    var a, c, p, t := e.action, IntToString(e.statusCode), e.path, ErrorSuffix(e.error);
    var r2 := PathLabel + p + t;
    var r1 := StatusLabel + c + r2;
    var s := String(e);
    assert s == ActionLabel + a + r1;
    ReadField(ActionLabel, a, r1);
    ReadField(StatusLabel, c, r2);
    ParseIntToString(e.statusCode);
    ReadField(PathLabel, p, t);
    ParseTail(e.error);
  }

  /** A tagged comma-free field followed by text that is empty or starts
      at a comma reads back as that field and that text. */
  lemma ReadField(tag: string, x: string, rest: string)
    requires ',' !in x && (rest == [] || rest[0] == ',')
    ensures Field(tag + x + rest, tag) == Some((x, rest))
  {
    var s := tag + x + rest;
    assert s[..|tag|] == tag;
    assert s[|tag|..] == x + rest;
    CutAt(x, rest, ',');
  }

  /** The error suffix is empty or starts at a comma, and gives back the
      error's text. */
  lemma ParseTail(error: Option<Err>)
    ensures var t := ErrorSuffix(error);
      (t == [] || t[0] == ',') &&
      (error.None? <==> t == "") &&
      (error.Some? ==> HasPrefix(t, ErrorLabel) && t[|ErrorLabel|..] == ErrorText(error.value))
  {
  }

  /** Two events with comma-free actions and paths have the same line
      exactly when they agree on action, status code, path and error
      text. */
  lemma StringInjective(e1: Event, e2: Event)
    requires ',' !in e1.action && ',' !in e1.path
    requires ',' !in e2.action && ',' !in e2.path
    ensures String(e1) == String(e2) <==> ShownFields(e1) == ShownFields(e2)
  {
    ParseString(e1);
    ParseString(e2);
    if ShownFields(e1) == ShownFields(e2) {
      match e1.error
      case None =>
        StringWithoutError(e1);
        StringWithoutError(e2);
      case Some(x) =>
        assert e2.error.Some? && ErrorSuffix(e1.error) == ErrorSuffix(e2.error);
    }
  }

  /** The line for a successful build of `/world`. */
  lemma WorldLine()
    ensures String(Event("build", 200, "/world", "build/world", None)) ==
      "Action: build, StatusCode: 200, Path: /world"
  {
    var e := Event("build", 200, "/world", "build/world", None);
    StringWithoutError(e);
    WorldPlain();
  }

  lemma WorldPlain()
    ensures PlainLine("build", 200, "/world") == "Action: build, StatusCode: 200, Path: /world"
  {
    Decimal200();
    var l1 := ActionLabel + "build";
    assert l1 == "Action: build";
    var l2 := l1 + StatusLabel;
    assert l2 == "Action: build, StatusCode: ";
    var l3 := l2 + "200";
    assert l3 == "Action: build, StatusCode: 200";
    var l4 := l3 + PathLabel;
    assert l4 == "Action: build, StatusCode: 200, Path: ";
    assert l4 + "/world" == "Action: build, StatusCode: 200, Path: /world";
  }

  lemma Decimal200()
    ensures IntToString(200) == "200"
  {
    assert NatToString(20) == "20";
    assert NatToString(200) == NatToString(20) + "0";
  }
}
