/** Whole scripts run through the model: a mode switch before a query, a
    failing statement before a good one, and a quit. The SQL text and the
    database's answers are left general. */
module Scenarios {
  import opened Results
  import opened Failures
  import opened JavaString
  import opened Extractor
  import opened OutputMode
  import opened Escapes
  import opened Runner

  /** The first character picks the mode: "html", "h" and "hx" all mean
      HTML; an empty or unknown argument, or one with a leading space, is
      rejected. */
  lemma ModeArguments()
    ensures SelectMode("html") == Ok(Html)
    ensures SelectMode("h") == Ok(Html)
    ensures SelectMode("hx") == Ok(Html)
    ensures SelectMode("") == Err(InvalidMode(""))
    ensures SelectMode("x") == Err(InvalidMode("x"))
    ensures SelectMode(" h") == Err(InvalidMode(" h"))
  {
  }

  /** SQL text as it stands after trimming, that is neither a comment nor
      a directive. */
  predicate IsQuery(q: string) {
    |q| > 0 && NoOuterSpace(q) && q[0] != '#' && q[0] != '-' && q[0] != '\\'
  }

  /** A line ending in `;` whose first character starts no comment. */
  lemma StatementLine(line: string)
    requires |line| > 0 && line[0] != '#' && line[0] != '-' && line[|line| - 1] == ';'
    ensures !IsComment(line) && Terminates(line)
  {
    assert line[|line| - 1..] == [line[|line| - 1]];
  }

  /** A script whose first line is a whole statement. */
  lemma FirstLine(lines: seq<string>)
    requires |lines| > 0
    requires var line := lines[0];
             |line| > 0 && line[0] != '#' && line[0] != '-' && line[|line| - 1] == ';'
    ensures GetStatement(lines) == Found(" " + lines[0][..|lines[0]| - 1], lines[1..])
  {
    StatementLine(lines[0]);
    assert lines == [] + [lines[0]] + lines[1..];
    PlainStatement([], lines[0], lines[1..]);
  }

  lemma TrimOneLeadingSpace(core: string)
    requires NoOuterSpace(core)
    ensures Trim(" " + core) == core
  {
    assert " " + core == " " + core + "";
    TrimExtractsCore(" ", core, "");
  }

  /** A script whose first line is the statement `q;`. */
  lemma QueryLine(lines: seq<string>, q: string)
    requires |lines| > 0 && lines[0] == q + ";" && IsQuery(q)
    ensures GetStatement(lines).Found?
    ensures Trim(GetStatement(lines).text) == q
    ensures !StartsWith(Trim(GetStatement(lines).text), "\\")
    ensures GetStatement(lines).rest == lines[1..]
  {
    FirstLine(lines);
    assert lines[0][..|lines[0]| - 1] == q;
    TrimOneLeadingSpace(q);
  }

  /** A script whose first line is a directive `d;`. */
  lemma DirectiveLine(lines: seq<string>, d: string)
    requires |lines| > 0 && lines[0] == d + ";" && |d| > 0 && d[0] == '\\' && NoOuterSpace(d)
    ensures GetStatement(lines).Found?
    ensures Trim(GetStatement(lines).text) == d
    ensures GetStatement(lines).rest == lines[1..]
  {
    FirstLine(lines);
    assert lines[0][..|lines[0]| - 1] == d;
    TrimOneLeadingSpace(d);
  }

  /** A script whose one statement completes: its output is the run's. */
  lemma OnlyStatement<D>(env: Env<D>, st: State<D>, lines: seq<string>)
    requires GetStatement(lines).Found? && GetStatement(lines).rest == []
    requires Step(env, st, GetStatement(lines).text).status.Done?
    ensures RunLines(env, st, lines) == Step(env, st, GetStatement(lines).text)
  {
    var first := Step(env, st, GetStatement(lines).text);
    RunLinesFound(env, st, lines);
    assert RunLines(env, first.state, []) == Run(first.state, [], Done);
    assert first.events + [] == first.events;
  }

  /** A script that is the single statement `q;`. */
  lemma LastQuery<D>(env: Env<D>, st: State<D>, lines: seq<string>, q: string)
    requires lines == [q + ";"] && IsQuery(q)
    requires env.exec(st.db, q).result.Ok?
    ensures RunLines(env, st, lines) ==
            Run(State(st.session, env.exec(st.db, q).db),
                [Executing(q), Rendered(st.session.sink, st.session.mode, env.exec(st.db, q).result.value), BlankLine],
                Done)
  {
    QueryLine(lines, q);
    var g := GetStatement(lines);
    assert g.rest == [];
    StepRenders(env, st, g.text);
    OnlyStatement(env, st, lines);
  }

  /** A script whose first statement completes: the banner, that
      statement's output, then the rest of the run. */
  lemma ScriptAfterFirst<D>(env: Env<D>, st: State<D>, lines: seq<string>, first: Run<D>, later: Run<D>)
    requires GetStatement(lines).Found?
    requires Step(env, st, GetStatement(lines).text) == first && first.status.Done?
    requires RunLines(env, first.state, GetStatement(lines).rest) == later
    ensures RunScript(env, st, lines) == Run(later.state, [Ready] + first.events + later.events, later.status)
  {
    var loop := Run(later.state, first.events + later.events, later.status);
    assert RunLines(env, st, lines) == loop by {
      RunLinesFound(env, st, lines);
    }
    assert RunScript(env, st, lines) == Run(loop.state, [Ready] + loop.events, loop.status);
    PrependReady(first.events, later.events);
  }

  lemma PrependReady(a: seq<Event>, b: seq<Event>)
    ensures [Ready] + (a + b) == [Ready] + a + b
  {
  }

  /** `\mh;` then a query, starting in text mode: the switch to HTML is
      announced, then the query's result is rendered as HTML. */
  lemma HtmlScenario<D>(env: Env<D>, db: D, q: string, lines: seq<string>)
    requires lines == ["\\mh;", q + ";"] && IsQuery(q)
    requires env.exec(db, q).result.Ok?
    ensures var ex := env.exec(db, q);
            RunScript(env, State(Session(Text, StandardOutput, false), db), lines) ==
            Run(State(Session(Html, StandardOutput, false), ex.db),
                [Ready, ModeAnnounced(Html), Executing(q),
                 Rendered(StandardOutput, Html, ex.result.value), BlankLine],
                Done)
  {
    var st := State(Session(Text, StandardOutput, false), db);
    var st' := State(Session(Html, StandardOutput, false), db);
    DirectiveLine(lines, "\\mh");
    var g := GetStatement(lines);
    var first := Step(env, st, g.text);
    assert first == Run(st', [ModeAnnounced(Html)], Done) by {
      assert "\\mh" == EscapeText(ModeEscape("h"));
      CodeSelectsMode(Html);
      StepModeEscape(env, st, g.text, "h");
    }
    var later := RunLines(env, st', g.rest);
    var ex := env.exec(db, q);
    assert later == Run(State(st'.session, ex.db), [Executing(q), Rendered(StandardOutput, Html, ex.result.value), BlankLine], Done) by {
      LastQuery(env, st', g.rest, q);
    }
    ScriptAfterFirst(env, st, lines, first, later);
    var events := [Ready] + first.events + later.events;
    Flatten(Ready, first.events, later.events);
    assert later.state == State(Session(Html, StandardOutput, false), ex.db);
    assert RunScript(env, st, lines) == Run(later.state, events, Done);
  }

  /** The banner, a one-event step, then a three-event step. */
  lemma Flatten(e: Event, a: seq<Event>, b: seq<Event>)
    requires |a| == 1 && |b| == 3
    ensures [e] + a + b == [e, a[0], b[0], b[1], b[2]]
  {
  }

  /** With debug off a failing statement is reported and the next one
      still runs, against the database the failure left behind. */
  lemma ErrorThenQuery<D>(env: Env<D>, db: D, bad: string, good: string, lines: seq<string>)
    requires lines == [bad + ";", good + ";"] && IsQuery(bad) && IsQuery(good)
    requires env.exec(db, bad).result.Err?
    requires env.exec(env.exec(db, bad).db, good).result.Ok?
    ensures var failed := env.exec(db, bad);
            var ok := env.exec(failed.db, good);
            RunScript(env, State(Session(Text, StandardOutput, false), db), lines) ==
            Run(State(Session(Text, StandardOutput, false), ok.db),
                [Ready, Executing(bad), ErrorReported(failed.result.error), BlankLine,
                 Executing(good), Rendered(StandardOutput, Text, ok.result.value), BlankLine],
                Done)
  {
    var s := Session(Text, StandardOutput, false);
    var st := State(s, db);
    var failed := env.exec(db, bad);
    var st' := State(s, failed.db);
    var ok := env.exec(failed.db, good);
    QueryLine(lines, bad);
    var g := GetStatement(lines);
    var first := Step(env, st, g.text);
    assert first == Run(st', [Executing(bad), ErrorReported(failed.result.error), BlankLine], Done) by {
      StepSwallows(env, st, g.text);
    }
    var later := RunLines(env, st', g.rest);
    assert later == Run(State(s, ok.db), [Executing(good), Rendered(StandardOutput, Text, ok.result.value), BlankLine], Done) by {
      assert g.rest == [good + ";"];
      LastQuery(env, st', g.rest, good);
    }
    ScriptAfterFirst(env, st, lines, first, later);
    FlattenTwoSteps(Ready, first.events, later.events);
  }

  /** The banner, then two three-event steps. */
  lemma FlattenTwoSteps(e: Event, a: seq<Event>, b: seq<Event>)
    requires |a| == 3 && |b| == 3
    ensures [e] + a + b == [e, a[0], a[1], a[2], b[0], b[1], b[2]]
  {
  }

  /** `\m h;` as the first line: the argument is " h", which names no
      mode, so the script aborts after the ready banner. */
  lemma SpacedModeFirst<D>(env: Env<D>, st: State<D>, lines: seq<string>)
    requires |lines| > 0 && lines[0] == "\\m h;"
    ensures RunScript(env, st, lines) == Run(st, [Ready], Aborted(InvalidMode(" h")))
  {
    DirectiveLine(lines, "\\m h");
    assert "\\m h" == EscapeText(ModeEscape(" h"));
    assert SelectMode(" h").Err?;
    InvalidModeAborts(env, st, lines, " h");
  }

  /** `\q;` as the first line: only the ready banner, whatever follows. */
  lemma QuitFirst<D>(env: Env<D>, st: State<D>, lines: seq<string>)
    requires |lines| > 0 && lines[0] == "\\q;"
    ensures RunScript(env, st, lines) == Run(st, [Ready], Quit)
  {
    DirectiveLine(lines, "\\q");
    assert Trim(GetStatement(lines).text)[..2] == "\\q";
    QuitEndsScript(env, st, lines);
  }
}
