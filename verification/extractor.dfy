/** SQLRunner.getStatement: pulls one statement out of a line-oriented script.

    The reader is modelled as the sequence of lines it still holds; a call
    returns the statement together with the lines left unread. */
module Extractor {
  import opened Results
  import opened JavaString

  /** Outcome of one getStatement call. */
  datatype Extraction =
    /** A statement (terminator stripped) and the lines after its terminator. */
    | Found(text: string, rest: seq<string>)
    /** readLine returned null: the method returns null. */
    | Exhausted
    /** substring(0, -1) on an empty accumulator threw. */
    | IndexError

  /** A line starting with `#` or `--` is a comment. */
  predicate IsComment(line: string) {
    StartsWith(line, "#") || StartsWith(line, "--")
  }

  /** A line ending in `;` ends the statement, comment or not. */
  predicate Terminates(line: string) {
    EndsWith(line, ";")
  }

  // ---------------------------------------------------------------------
  // The loop as written

  /** One pass of the read loop, `ret` being the text accumulated so far. */
  function ReadFrom(lines: seq<string>, ret: string): (r: Extraction)
    ensures r.Found? ==> |r.rest| < |lines| && r.rest == lines[|lines| - |r.rest|..]
    decreases |lines|
  {
    if |lines| == 0 then Exhausted
    else
      var line := lines[0];
      if |line| == 0 then ReadFrom(lines[1..], ret)
      else
        var ret' := if !IsComment(line) then ret + " " + line else ret;
        if EndsWith(line, ";") then
          // The "kill off empty statements" assignment to `line` is never read.
          if |ret'| == 0 then IndexError else Found(ret'[..|ret'| - 1], lines[1..])
        else ReadFrom(lines[1..], ret')
  }

  /** getStatement(is): the loop started with an empty accumulator. */
  function GetStatement(lines: seq<string>): (r: Extraction)
    ensures r.Found? ==> |r.rest| < |lines| && r.rest == lines[|lines| - |r.rest|..]
  {
    ReadFrom(lines, "")
  }

  /** Every statement a reader yields, in order, until getStatement
      returns null or throws. */
  function Statements(lines: seq<string>): seq<string>
    decreases |lines|
  {
    match GetStatement(lines)
    case Found(text, rest) => [text] + Statements(rest)
    case _ => []
  }

  /** The statements of a reader are its next statement followed by the
      statements of what remains. */
  lemma StatementsFound(lines: seq<string>)
    requires GetStatement(lines).Found?
    ensures Statements(lines) == [GetStatement(lines).text] + Statements(GetStatement(lines).rest)
  {
  }

  // ---------------------------------------------------------------------
  // A declarative description of the same extraction

  /** What a line adds to the statement: nothing for an empty or comment
      line, otherwise a space followed by the line verbatim. */
  function Piece(line: string): string {
    if |line| == 0 || IsComment(line) then "" else " " + line
  }

  /** The pieces of `lines`, concatenated. */
  function Accumulate(lines: seq<string>): string
    decreases |lines|
  {
    if |lines| == 0 then "" else Piece(lines[0]) + Accumulate(lines[1..])
  }

  /** Index of the first terminating line, if any. */
  function FirstTerminator(lines: seq<string>): (r: Option<nat>)
    ensures r.Some? ==> r.value < |lines| && Terminates(lines[r.value])
    ensures r.Some? ==> forall j :: 0 <= j < r.value ==> !Terminates(lines[j])
    ensures r.None? ==> forall j :: 0 <= j < |lines| ==> !Terminates(lines[j])
    decreases |lines|
  {
    if |lines| == 0 then None
    else if Terminates(lines[0]) then Some(0)
    else match FirstTerminator(lines[1..])
      case None => None
      case Some(k) => Some(k + 1)
  }

  /** Drop the last character of the accumulated text, failing when there is none. */
  function Finish(acc: string, rest: seq<string>): Extraction {
    if |acc| == 0 then IndexError else Found(acc[..|acc| - 1], rest)
  }

  /** The statement is everything up to the first terminating line,
      comments and empty lines contributing nothing, minus one character. */
  function Extract(lines: seq<string>): Extraction {
    match FirstTerminator(lines)
    case None => Exhausted
    case Some(k) => Finish(Accumulate(lines[..k + 1]), lines[k + 1..])
  }

  // ---------------------------------------------------------------------
  // Properties

  /** The declarative extraction, continued from accumulated text `ret`. */
  function ExtractAfter(lines: seq<string>, ret: string): Extraction {
    match FirstTerminator(lines)
    case None => Exhausted
    case Some(k) => Finish(ret + Accumulate(lines[..k + 1]), lines[k + 1..])
  }

  /** The loop computes the declarative extraction, for any accumulator. */
  lemma {:induction false} ReadFromMeetsSpec(lines: seq<string>, ret: string)
    ensures ReadFrom(lines, ret) == ExtractAfter(lines, ret)
    decreases |lines|
  {
    if |lines| > 0 {
      if Terminates(lines[0]) {
        ReadStopsAtTerminator(lines, ret);
        ExtractStopsAtTerminator(lines, ret);
      } else {
        ReadSkipsOver(lines, ret);
        ExtractSkipsOver(lines, ret);
        ReadFromMeetsSpec(lines[1..], ret + Piece(lines[0]));
      }
    }
  }

  lemma ReadSkipsOver(lines: seq<string>, ret: string)
    requires |lines| > 0 && !Terminates(lines[0])
    ensures ReadFrom(lines, ret) == ReadFrom(lines[1..], ret + Piece(lines[0]))
  {
    var line := lines[0];
    if |line| == 0 {
      assert ret + Piece(line) == ret;
    } else if !IsComment(line) {
      assert ret + Piece(line) == ret + " " + line;
    } else {
      assert ret + Piece(line) == ret;
    }
  }

  lemma ReadStopsAtTerminator(lines: seq<string>, ret: string)
    requires |lines| > 0 && Terminates(lines[0])
    ensures ReadFrom(lines, ret) == Finish(ret + Piece(lines[0]), lines[1..])
  {
    var line := lines[0];
    if !IsComment(line) {
      assert ret + Piece(line) == ret + " " + line;
    } else {
      assert ret + Piece(line) == ret;
    }
  }

  lemma ExtractSkipsOver(lines: seq<string>, ret: string)
    requires |lines| > 0 && !Terminates(lines[0])
    ensures ExtractAfter(lines, ret) == ExtractAfter(lines[1..], ret + Piece(lines[0]))
  {
    match FirstTerminator(lines[1..])
    case None =>
    case Some(k) =>
      assert FirstTerminator(lines) == Some(k + 1);
      assert lines[..k + 2][1..] == lines[1..][..k + 1];
      assert lines[k + 2..] == lines[1..][k + 1..];
      assert Accumulate(lines[..k + 2]) == Piece(lines[0]) + Accumulate(lines[1..][..k + 1]);
      assert ret + Accumulate(lines[..k + 2]) == ret + Piece(lines[0]) + Accumulate(lines[1..][..k + 1]);
  }

  lemma ExtractStopsAtTerminator(lines: seq<string>, ret: string)
    requires |lines| > 0 && Terminates(lines[0])
    ensures ExtractAfter(lines, ret) == Finish(ret + Piece(lines[0]), lines[1..])
  {
    assert FirstTerminator(lines) == Some(0);
    assert lines[..1][1..] == [];
    assert Accumulate(lines[..1]) == Piece(lines[0]);
  }

  /** getStatement agrees with the declarative extraction. */
  lemma GetStatementMeetsSpec(lines: seq<string>)
    ensures GetStatement(lines) == Extract(lines)
  {
    ReadFromMeetsSpec(lines, "");
    match FirstTerminator(lines)
    case None =>
    case Some(k) => assert "" + Accumulate(lines[..k + 1]) == Accumulate(lines[..k + 1]);
  }

  /** getStatement returns null exactly when no line terminates: text
      accumulated before the end of input is discarded. */
  lemma ExhaustedIffNoTerminator(lines: seq<string>)
    ensures GetStatement(lines).Exhausted? <==>
            forall j :: 0 <= j < |lines| ==> !Terminates(lines[j])
  {
    GetStatementMeetsSpec(lines);
  }

  /** An empty or comment line that does not end in `;`, placed anywhere
      before the terminator, changes neither the statement nor the rest. */
  lemma CommentLinesInvisible(before: seq<string>, c: string, after: seq<string>)
    requires |c| == 0 || IsComment(c)
    requires !Terminates(c)
    requires forall j :: 0 <= j < |before| ==> !Terminates(before[j])
    ensures GetStatement(before + [c] + after) == GetStatement(before + after)
  {
    ReadIgnoresComment(before, c, after, "");
  }

  lemma {:induction false} ReadIgnoresComment(before: seq<string>, c: string, after: seq<string>, ret: string)
    requires |c| == 0 || IsComment(c)
    requires !Terminates(c)
    requires forall j :: 0 <= j < |before| ==> !Terminates(before[j])
    ensures ReadFrom(before + [c] + after, ret) == ReadFrom(before + after, ret)
    decreases |before|
  {
    var with, without := before + [c] + after, before + after;
    if |before| == 0 {
      assert with[1..] == without;
      ReadSkipsOver(with, ret);
      assert Piece(c) == "" && ret + Piece(c) == ret;
    } else {
      assert with[1..] == before[1..] + [c] + after;
      assert without[1..] == before[1..] + after;
      ReadSkipsOver(with, ret);
      ReadSkipsOver(without, ret);
      ReadIgnoresComment(before[1..], c, after, ret + Piece(before[0]));
    }
  }

  /** Accumulated text is empty or a space followed by at least one character. */
  lemma {:induction false} AccumulateShape(lines: seq<string>)
    ensures |Accumulate(lines)| == 0 || (|Accumulate(lines)| >= 2 && Accumulate(lines)[0] == ' ')
    decreases |lines|
  {
    if |lines| > 0 {
      AccumulateShape(lines[1..]);
    }
  }

  /** A statement always starts with the space put before its first line. */
  lemma FoundStartsWithSpace(lines: seq<string>)
    requires GetStatement(lines).Found?
    ensures |GetStatement(lines).text| >= 1 && GetStatement(lines).text[0] == ' '
  {
    GetStatementMeetsSpec(lines);
    var k := FirstTerminator(lines).value;
    AccumulateShape(lines[..k + 1]);
  }

  /** Each line preceded by a single space, concatenated. */
  function SpaceJoin(lines: seq<string>): string
    decreases |lines|
  {
    if |lines| == 0 then "" else " " + lines[0] + SpaceJoin(lines[1..])
  }

  /** A statement line: not empty, not a comment, not terminating. */
  predicate IsBodyLine(line: string) {
    |line| > 0 && !IsComment(line) && !Terminates(line)
  }

  /** Statement lines followed by a line ending in `;` give those lines
      joined by single spaces, with the `;` removed; the reader resumes
      after the terminating line. */
  lemma PlainStatement(body: seq<string>, last: string, rest: seq<string>)
    requires forall j :: 0 <= j < |body| ==> IsBodyLine(body[j])
    requires !IsComment(last) && Terminates(last)
    ensures GetStatement(body + [last] + rest) ==
            Found(SpaceJoin(body) + " " + last[..|last| - 1], rest)
  {
    var cut := last[..|last| - 1];
    assert GetStatement(body + [last] + rest) == Found("" + SpaceJoin(body) + " " + cut, rest) by {
      ReadPlainStatement(body, last, rest, "");
    }
    assert "" + SpaceJoin(body) == SpaceJoin(body);
  }

  lemma {:induction false} ReadPlainStatement(body: seq<string>, last: string, rest: seq<string>, ret: string)
    requires forall j :: 0 <= j < |body| ==> IsBodyLine(body[j])
    requires !IsComment(last) && Terminates(last)
    ensures ReadFrom(body + [last] + rest, ret) ==
            Found(ret + SpaceJoin(body) + " " + last[..|last| - 1], rest)
    decreases |body|
  {
    var lines := body + [last] + rest;
    if |body| == 0 {
      assert lines == [last] + rest;
      ReadLastLine(last, rest, ret);
    } else {
      var head, tail := body[0], body[1..];
      assert lines[1..] == tail + [last] + rest;
      ReadSkipsOver(lines, ret);
      var ret' := ret + Piece(head);
      ReadPlainStatement(tail, last, rest, ret');
      JoinStep(body, ret);
    }
  }

  lemma JoinStep(body: seq<string>, ret: string)
    requires |body| > 0 && IsBodyLine(body[0])
    ensures ret + Piece(body[0]) + SpaceJoin(body[1..]) == ret + SpaceJoin(body)
  {
    var p, t := " " + body[0], SpaceJoin(body[1..]);
    assert Piece(body[0]) == p;
    assert SpaceJoin(body) == p + t;
    Associate(ret, p, t);
  }

  lemma ReadLastLine(last: string, rest: seq<string>, ret: string)
    requires !IsComment(last) && Terminates(last)
    ensures ReadFrom([last] + rest, ret) == Found(ret + " " + last[..|last| - 1], rest)
  {
    var lines := [last] + rest;
    assert lines[1..] == rest;
    ReadStopsAtTerminator(lines, ret);
    var acc := ret + Piece(last);
    assert acc == (ret + " " + last[..|last| - 1]) + [last[|last| - 1]];
  }

  /** A line that is only `;` yields a statement of one space: the
      empty-statement kludge assigns a variable nobody reads. */
  lemma LoneSemicolon(rest: seq<string>)
    ensures GetStatement([";"] + rest) == Found(" ", rest)
    ensures Trim(" ") == ""
  {
    assert ";"[..1] == ";" && ";"[0] != '#' && ";"[0] != '-';
    assert Terminates(";") && !IsComment(";");
    ReadLastLine(";", rest, "");
    assert Trim(" ") == "" by {
      var r := Trim(" ");
      assert |r| == 0 || r == " ";
    }
  }

  /** A comment line ending in `;` also terminates; before any statement
      text it makes substring(0, -1) throw. */
  lemma TerminatingCommentFirst(line: string, rest: seq<string>)
    requires IsComment(line) && Terminates(line)
    ensures GetStatement([line] + rest) == IndexError
  {
    ReadStopsAtTerminator([line] + rest, "");
  }

  /** After statement text, a terminating comment line cuts off the last
      character of that text instead of a `;`. */
  lemma TerminatingCommentDropsChar(body: string, comment: string, rest: seq<string>)
    requires IsBodyLine(body)
    requires IsComment(comment) && Terminates(comment)
    ensures GetStatement([body, comment] + rest) == Found(" " + body[..|body| - 1], rest)
  {
    var lines := [body, comment] + rest;
    var tail := [comment] + rest;
    var acc := " " + body;
    assert GetStatement(lines) == ReadFrom(tail, acc) by {
      assert lines[0] == body && lines[1..] == tail;
      ReadSkipsOver(lines, "");
      assert "" + Piece(body) == acc;
    }
    assert ReadFrom(tail, acc) == Finish(acc, rest) by {
      assert tail[0] == comment && tail[1..] == rest;
      ReadStopsAtTerminator(tail, acc);
      assert acc + Piece(comment) == acc;
    }
    assert acc[..|acc| - 1] == " " + body[..|body| - 1];
  }

  /** White space after the `;` keeps a line from terminating. */
  lemma SpaceAfterSemicolonDoesNotTerminate(line: string)
    requires EndsWith(line, "; ")
    ensures !Terminates(line)
  {
    assert line[|line| - 1] == ' ';
  }
}
