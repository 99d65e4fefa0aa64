/** Backslash directives (SQLRunner.doEscape): `\m<mode>`, `\o<file>`, `\q`. */
module Escapes {
  import opened Results
  import opened Failures
  import opened JavaString

  datatype Escape =
    /** `\m`: set the output mode from the argument */
    | ModeEscape(arg: string)
    /** `\o`: send decorator output to the named file */
    | OutputEscape(path: string)
    /** `\q`: quit */
    | QuitEscape

  /** The directive as it is written in a script (without the `;`). */
  function EscapeText(e: Escape): string {
    match e
    case ModeEscape(arg) => "\\m" + arg
    case OutputEscape(path) => "\\o" + path
    case QuitEscape => "\\q"
  }

  /** An argument-taking directive has a non-empty argument. */
  predicate WellFormed(e: Escape) {
    match e
    case ModeEscape(arg) => |arg| > 0
    case OutputEscape(path) => |path| > 0
    case QuitEscape => true
  }

  /** doEscape's parsing: the argument is everything after the first two
      characters, present only when there is at least one such character;
      prefixes are tried in the order m, o, q. */
  function ParseEscape(str: string): (r: Result<Escape, Failure>)
    ensures r.Ok? ==> WellFormed(r.value) && StartsWith(str, EscapeText(r.value))
    ensures r.Ok? && !r.value.QuitEscape? ==> EscapeText(r.value) == str
    ensures r.Err? ==> r.error in {MissingModeArgument, MissingFileArgument, UnknownEscape(str)}
  {
    var rest := if |str| > 2 then Some(str[2..]) else None;
    if StartsWith(str, "\\m") then
      if rest.None? then Err(MissingModeArgument) else Ok(ModeEscape(rest.value))
    else if StartsWith(str, "\\o") then
      if rest.None? then Err(MissingFileArgument) else Ok(OutputEscape(rest.value))
    else if StartsWith(str, "\\q") then
      Ok(QuitEscape)
    else
      Err(UnknownEscape(str))
  }

  /** Writing a well-formed directive and parsing it gives it back. */
  lemma EscapeRoundTrip(e: Escape)
    requires WellFormed(e)
    ensures ParseEscape(EscapeText(e)) == Ok(e)
  {
    var s := EscapeText(e);
    match e
    case ModeEscape(arg) =>
      assert s[..2] == "\\m" && s[2..] == arg;
    case OutputEscape(path) =>
      assert s[..2] == "\\o" && s[2..] == path;
      assert s[..2][1] != "\\m"[1];
    case QuitEscape =>
      assert s[..2][1] != "\\m"[1] && s[..2][1] != "\\o"[1];
  }

  /** The failures of doEscape: a bare `\m`, a bare `\o`, or a string
      that starts with none of the three directives. */
  lemma ParseEscapeFailures(str: string)
    ensures ParseEscape(str) == Err(MissingModeArgument) <==> str == "\\m"
    ensures ParseEscape(str) == Err(MissingFileArgument) <==> str == "\\o"
    ensures ParseEscape(str) == Err(UnknownEscape(str)) <==>
            forall e :: !StartsWith(str, EscapeText(e)[..2])
  {
    if str == "\\o" {
      assert str[..2][1] == 'o';
    }
    if forall e :: !StartsWith(str, EscapeText(e)[..2]) {
      assert !StartsWith(str, EscapeText(ModeEscape(""))[..2]);
      assert !StartsWith(str, EscapeText(OutputEscape(""))[..2]);
      assert !StartsWith(str, EscapeText(QuitEscape)[..2]);
    } else {
      var e :| StartsWith(str, EscapeText(e)[..2]);
    }
  }

  /** `\q` ignores whatever follows it, unless `\m` or `\o` matched first. */
  lemma QuitIgnoresArgument(tail: string)
    ensures ParseEscape("\\q" + tail) == Ok(QuitEscape)
  {
    var s := "\\q" + tail;
    assert s[..2] == "\\q";
  }
}
