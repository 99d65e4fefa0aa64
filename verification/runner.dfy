/** The session controller of SQLRunner: setOutputMode, doEscape,
    runStatement and the runScript loop, over an abstract database. */
module Runner {
  import opened Results
  import opened Failures
  import opened JavaString
  import opened Extractor
  import opened OutputMode
  import opened Escapes

  /** Where the decorators write: System.out or a file named by `\o`. */
  datatype Sink = StandardOutput | File(path: string)

  /** The mutable fields of an SQLRunner that the script can observe. */
  datatype Session = Session(mode: Mode, sink: Sink, debug: bool)

  /** What a successful execute() produced: an update count or rows. */
  datatype Outcome = UpdateCount(count: int) | RowSet(rows: seq<seq<string>>)

  /** The database after a statement, and the statement's outcome or the
      text of its SQLException. */
  datatype Executed<D> = Executed(db: D, result: Result<Outcome, string>)

  /** The collaborators the runner cannot see: JDBC execution over a
      database state `D`, and whether a redirect target can be opened. */
  datatype Env<!D> = Env(exec: (D, string) -> Executed<D>, canOpen: string -> bool)

  /** Observable output, in order. */
  datatype Event =
    /** "SQLRunner: ready." */
    | Ready
    /** "Mode set to ..." */
    | ModeAnnounced(mode: Mode)
    /** "Output set to ..." */
    | OutputAnnounced(path: string)
    /** "Executing : <<...>>" */
    | Executing(text: string)
    /** The current decorator writing an outcome to the current sink */
    | Rendered(sink: Sink, mode: Mode, outcome: Outcome)
    /** "ERROR: ..." for a swallowed SQLException */
    | ErrorReported(message: string)
    /** The empty line printed after each statement */
    | BlankLine

  /** How a step or a whole script ended: normally, by `\q`, or with an exception. */
  datatype Status = Done | Quit | Aborted(failure: Failure)

  datatype State<D> = State(session: Session, db: D)

  datatype Run<D> = Run(state: State<D>, events: seq<Event>, status: Status)

  /** A session after a mode request, with what was announced. */
  datatype Switched = Switched(session: Session, events: seq<Event>)

  /** Texts of the "Executing" lines among `events`, in order. */
  function ExecutedTexts(events: seq<Event>): seq<string>
    decreases |events|
  {
    if |events| == 0 then []
    else (if events[0].Executing? then [events[0].text] else []) + ExecutedTexts(events[1..])
  }

  /** Every rendered result in `events` went to `sink`. */
  predicate RendersTo(events: seq<Event>, sink: Sink) {
    forall i :: 0 <= i < |events| && events[i].Rendered? ==> events[i].sink == sink
  }

  /** Every rendered result in `events` was rendered in `mode`. */
  predicate RendersIn(events: seq<Event>, mode: Mode) {
    forall i :: 0 <= i < |events| && events[i].Rendered? ==> events[i].mode == mode
  }

  // ---------------------------------------------------------------------
  // Operations

  /** setOutputMode: validate the argument, switch decorator and announce
      it only when the selected mode differs from the current one. */
  function SetOutputMode(s: Session, arg: string): (r: Result<Switched, Failure>)
    ensures r.Ok? <==> SelectMode(arg).Ok?
    ensures r.Err? ==> r.error == InvalidMode(arg)
    ensures r.Ok? ==> r.value.session == s.(mode := SelectMode(arg).value)
    ensures r.Ok? ==> (r.value.events == [] <==> r.value.session == s)
    ensures r.Ok? && r.value.events != [] ==> r.value.events == [ModeAnnounced(r.value.session.mode)]
  {
    match SelectMode(arg)
    case Err(f) => Err(f)
    case Ok(m) =>
      if m != s.mode then Ok(Switched(s.(mode := m), [ModeAnnounced(m)]))
      else Ok(Switched(s, []))
  }

  /** The constructor's setup: output to System.out, debug off (the
      field's initial value), and the initial mode, always announced
      because no decorator is current yet. */
  function Open(outputMode: string): (r: Result<Switched, Failure>)
    ensures r.Ok? <==> SelectMode(outputMode).Ok?
    ensures r.Ok? ==> r.value.session == Session(SelectMode(outputMode).value, StandardOutput, false)
    ensures r.Ok? ==> r.value.events == [ModeAnnounced(r.value.session.mode)]
    ensures r.Err? ==> r.error == InvalidMode(outputMode)
  {
    match SelectMode(outputMode)
    case Err(f) => Err(f)
    case Ok(m) => Ok(Switched(Session(m, StandardOutput, false), [ModeAnnounced(m)]))
  }

  /** runStatement: echo, execute, render through the current decorator
      and sink; an SQLException is reported and swallowed, or rethrown in
      debug mode (then the closing blank line is never printed). */
  function RunStatement<D>(env: Env<D>, st: State<D>, str: string): (r: Run<D>)
    ensures r.state == State(st.session, env.exec(st.db, str).db)
    ensures |r.events| > 0 && r.events[0] == Executing(Trim(str))
    ensures ExecutedTexts(r.events) == [Trim(str)]
    ensures RendersTo(r.events, st.session.sink) && RendersIn(r.events, st.session.mode)
    ensures env.exec(st.db, str).result.Ok? ==>
              r.status == Done && Rendered(st.session.sink, st.session.mode, env.exec(st.db, str).result.value) in r.events
    ensures env.exec(st.db, str).result.Err? ==>
              if st.session.debug then r.status == Aborted(SqlException(env.exec(st.db, str).result.error))
              else r.status == Done && ErrorReported(env.exec(st.db, str).result.error) in r.events
    ensures r.status.Done? ==> r.events[|r.events| - 1] == BlankLine
    ensures r.status.Aborted? ==> r.events == [Executing(Trim(str))]
  {
    var echo := Executing(Trim(str));
    var ex := env.exec(st.db, str);
    var st' := State(st.session, ex.db);
    match ex.result
    case Ok(outcome) =>
      var events := [echo, Rendered(st.session.sink, st.session.mode, outcome), BlankLine];
      assert ExecutedTexts(events) == [Trim(str)] by {
        assert events[1..][1..][1..] == [];
        assert ExecutedTexts(events[1..][1..]) == [];
        assert ExecutedTexts(events[1..]) == [];
      }
      Run(st', events, Done)
    case Err(message) =>
      if st.session.debug then
        assert ExecutedTexts([echo]) == [Trim(str)] by {
          assert [echo][1..] == [];
        }
        Run(st', [echo], Aborted(SqlException(message)))
      else
        var events := [echo, ErrorReported(message), BlankLine];
        assert ExecutedTexts(events) == [Trim(str)] by {
          assert events[1..][1..][1..] == [];
          assert ExecutedTexts(events[1..][1..]) == [];
          assert ExecutedTexts(events[1..]) == [];
        }
        Run(st', events, Done)
  }

  /** doEscape: carry out a backslash directive. It executes nothing and
      leaves the database alone; `\q` ends the run. */
  function DoEscape<D>(env: Env<D>, st: State<D>, str: string): (r: Run<D>)
    ensures r.state.db == st.db
    ensures r.state.session.debug == st.session.debug
    ensures ExecutedTexts(r.events) == []
    ensures forall i :: 0 <= i < |r.events| ==> !r.events[i].Rendered?
    ensures RendersTo(r.events, st.session.sink) && RendersIn(r.events, st.session.mode)
    ensures r.status.Quit? <==> ParseEscape(str) == Ok(QuitEscape)
    ensures ParseEscape(str).Err? ==> r == Run(st, [], Aborted(ParseEscape(str).error))
    ensures r.status.Aborted? ==> !r.status.failure.SqlException?
    ensures r.state.session.sink != st.session.sink ==> StartsWith(str, "\\o")
    ensures r.state.session.mode != st.session.mode ==> StartsWith(str, "\\m")
    ensures ParseEscape(str).Ok? && ParseEscape(str).value.OutputEscape? ==>
              var path := ParseEscape(str).value.path;
              r == if env.canOpen(path)
                   then Run(State(st.session.(sink := File(path)), st.db), [OutputAnnounced(path)], Done)
                   else Run(st, [], Aborted(CannotOpen(path)))
    ensures ParseEscape(str).Ok? && ParseEscape(str).value.ModeEscape? ==>
              var arg := ParseEscape(str).value.arg;
              SelectMode(arg).Err? ==> r == Run(st, [], Aborted(InvalidMode(arg)))
  {
    match ParseEscape(str)
    case Err(f) => Run(st, [], Aborted(f))
    case Ok(ModeEscape(arg)) =>
      assert str[..2] == "\\m";
      var switched := SetOutputMode(st.session, arg);
      if switched.Err? then Run(st, [], Aborted(switched.error))
      else
        var sw := switched.value;
        assert ExecutedTexts(sw.events) == [] by {
          if sw.events != [] { assert sw.events[1..] == []; }
        }
        Run(State(sw.session, st.db), sw.events, Done)
    case Ok(OutputEscape(path)) =>
      assert str[..2] == "\\o";
      if env.canOpen(path) then
        assert ExecutedTexts([OutputAnnounced(path)]) == [] by {
          assert [OutputAnnounced(path)][1..] == [];
        }
        Run(State(st.session.(sink := File(path)), st.db), [OutputAnnounced(path)], Done)
      else Run(st, [], Aborted(CannotOpen(path)))
    case Ok(QuitEscape) => Run(st, [], Quit)
  }

  /** One iteration of runScript's loop on an extracted statement: trim,
      then route to doEscape or runStatement. */
  function Step<D>(env: Env<D>, st: State<D>, text: string): (r: Run<D>)
    ensures r.state.session.debug == st.session.debug
    ensures ExecutedTexts(r.events) == if StartsWith(Trim(text), "\\") then [] else [Trim(text)]
    ensures !st.session.debug ==> !(r.status.Aborted? && r.status.failure.SqlException?)
  {
    var stmt := Trim(text);
    TrimIdempotent(text);
    if StartsWith(stmt, "\\") then DoEscape(env, st, stmt) else RunStatement(env, st, stmt)
  }

  /** The runScript loop over the unread lines: stops at end of input,
      on `\q`, or when an exception escapes. */
  function RunLines<D>(env: Env<D>, st: State<D>, lines: seq<string>): (r: Run<D>)
    ensures r.state.session.debug == st.session.debug
    decreases |lines|
  {
    match GetStatement(lines)
    case Exhausted => Run(st, [], Done)
    case IndexError => Run(st, [], Aborted(StatementIndexOutOfRange))
    case Found(text, rest) =>
      var first := Step(env, st, text);
      if first.status.Done? then
        var later := RunLines(env, first.state, rest);
        Run(later.state, first.events + later.events, later.status)
      else first
  }

  /** runScript(BufferedReader): announce readiness, then run the loop. */
  function RunScript<D>(env: Env<D>, st: State<D>, lines: seq<string>): (r: Run<D>)
    ensures |r.events| > 0 && r.events[0] == Ready
    ensures r.state.session.debug == st.session.debug
  {
    var loop := RunLines(env, st, lines);
    Run(loop.state, [Ready] + loop.events, loop.status)
  }

  // ---------------------------------------------------------------------
  // Properties

  /** A step renders only through the session's current decorator and
      sink; only `\o` changes the sink and only `\m` the mode. */
  lemma StepKeepsOutput<D>(env: Env<D>, st: State<D>, text: string)
    ensures var r := Step(env, st, text);
            && RendersTo(r.events, st.session.sink) && RendersIn(r.events, st.session.mode)
            && (r.state.session.sink != st.session.sink ==> StartsWith(Trim(text), "\\o"))
            && (r.state.session.mode != st.session.mode ==> StartsWith(Trim(text), "\\m"))
  {
  }

  /** One turn of the loop on an extracted statement. */
  lemma RunLinesFound<D>(env: Env<D>, st: State<D>, lines: seq<string>)
    requires GetStatement(lines).Found?
    ensures var g := GetStatement(lines);
            var first := Step(env, st, g.text);
            RunLines(env, st, lines) ==
              if first.status.Done? then
                var later := RunLines(env, first.state, g.rest);
                Run(later.state, first.events + later.events, later.status)
              else first
  {
  }

  lemma {:induction false} ExecutedTextsAppend(a: seq<Event>, b: seq<Event>)
    ensures ExecutedTexts(a + b) == ExecutedTexts(a) + ExecutedTexts(b)
    decreases |a|
  {
    if |a| > 0 {
      assert (a + b)[1..] == a[1..] + b;
      ExecutedTextsAppend(a[1..], b);
    } else {
      assert a + b == b;
    }
  }

  /** The statements runScript passes to runStatement, trimmed, in order. */
  function SqlTexts(stmts: seq<string>): seq<string>
    decreases |stmts|
  {
    if |stmts| == 0 then []
    else (if StartsWith(Trim(stmts[0]), "\\") then [] else [Trim(stmts[0])]) + SqlTexts(stmts[1..])
  }

  /** Statements are executed in input order, escapes executing nothing;
      a run that reaches the end of input has executed every SQL
      statement of the script, an interrupted one a prefix of them. */
  lemma {:induction false} ExecutionFollowsInput<D>(env: Env<D>, st: State<D>, lines: seq<string>)
    ensures ExecutedTexts(RunLines(env, st, lines).events) <= SqlTexts(Statements(lines))
    ensures RunLines(env, st, lines).status.Done? ==>
              ExecutedTexts(RunLines(env, st, lines).events) == SqlTexts(Statements(lines))
    decreases |lines|
  {
    var g := GetStatement(lines);
    if g.Found? {
      RunLinesFound(env, st, lines);
      var first := Step(env, st, g.text);
      var stmts := Statements(g.rest);
      StatementsFound(lines);
      assert ([g.text] + stmts)[1..] == stmts;
      assert SqlTexts(Statements(lines)) == ExecutedTexts(first.events) + SqlTexts(stmts);
      if first.status.Done? {
        var later := RunLines(env, first.state, g.rest);
        ExecutionFollowsInput(env, first.state, g.rest);
        ExecutedTextsAppend(first.events, later.events);
      }
    }
  }

  /** With debug off an SQLException never ends the script. */
  lemma {:induction false} SqlErrorsSwallowedUnlessDebug<D>(env: Env<D>, st: State<D>, lines: seq<string>)
    requires !st.session.debug
    ensures var r := RunLines(env, st, lines);
            !(r.status.Aborted? && r.status.failure.SqlException?)
    decreases |lines|
  {
    var g := GetStatement(lines);
    if g.Found? {
      RunLinesFound(env, st, lines);
      var first := Step(env, st, g.text);
      if first.status.Done? {
        SqlErrorsSwallowedUnlessDebug(env, first.state, g.rest);
      }
    }
  }

  /** A statement that is not a directive is executed and its outcome
      rendered by the current decorator on the current sink. */
  lemma StepRenders<D>(env: Env<D>, st: State<D>, text: string)
    requires !StartsWith(Trim(text), "\\")
    requires env.exec(st.db, Trim(text)).result.Ok?
    ensures var stmt := Trim(text);
            var ex := env.exec(st.db, stmt);
            Step(env, st, text) ==
              Run(State(st.session, ex.db),
                  [Executing(stmt), Rendered(st.session.sink, st.session.mode, ex.result.value), BlankLine],
                  Done)
  {
    TrimIdempotent(text);
  }

  /** A well-formed `\m` directive as a step: the mode request, and
      nothing else. */
  lemma StepModeEscape<D>(env: Env<D>, st: State<D>, text: string, arg: string)
    requires Trim(text) == EscapeText(ModeEscape(arg)) && |arg| > 0
    requires SelectMode(arg).Ok?
    ensures var sw := SetOutputMode(st.session, arg).value;
            Step(env, st, text) == Run(State(sw.session, st.db), sw.events, Done)
  {
    EscapeRoundTrip(ModeEscape(arg));
    assert Trim(text)[..1] == "\\";
  }

  /** runStatement with debug off on a failing statement: echo, error
      line, blank line, and the loop goes on. */
  lemma StepSwallows<D>(env: Env<D>, st: State<D>, text: string)
    requires !st.session.debug
    requires !StartsWith(Trim(text), "\\")
    requires env.exec(st.db, Trim(text)).result.Err?
    ensures var stmt := Trim(text);
            var ex := env.exec(st.db, stmt);
            Step(env, st, text) ==
              Run(State(st.session, ex.db), [Executing(stmt), ErrorReported(ex.result.error), BlankLine], Done)
  {
    TrimIdempotent(text);
  }

  /** runStatement with debug on rethrows right after the echo. */
  lemma StepRethrows<D>(env: Env<D>, st: State<D>, text: string)
    requires st.session.debug
    requires !StartsWith(Trim(text), "\\")
    requires env.exec(st.db, Trim(text)).result.Err?
    ensures var stmt := Trim(text);
            var ex := env.exec(st.db, stmt);
            Step(env, st, text) ==
              Run(State(st.session, ex.db), [Executing(stmt)], Aborted(SqlException(ex.result.error)))
  {
    TrimIdempotent(text);
  }

  /** `\q` as a step: nothing printed, nothing changed, run over. */
  lemma StepQuits<D>(env: Env<D>, st: State<D>, text: string)
    requires StartsWith(Trim(text), "\\q")
    ensures Step(env, st, text) == Run(st, [], Quit)
  {
    var stmt := Trim(text);
    assert stmt[..2] == "\\q";
    assert stmt[..1] == "\\";
    assert ParseEscape(stmt) == Ok(QuitEscape);
  }

  /** With debug off a failing statement is reported and the script goes
      on with the next statement against the updated database. */
  lemma SwallowedErrorContinues<D>(env: Env<D>, st: State<D>, lines: seq<string>)
    requires !st.session.debug
    requires GetStatement(lines).Found?
    requires !StartsWith(Trim(GetStatement(lines).text), "\\")
    requires env.exec(st.db, Trim(GetStatement(lines).text)).result.Err?
    ensures var stmt := Trim(GetStatement(lines).text);
            var ex := env.exec(st.db, stmt);
            var later := RunLines(env, State(st.session, ex.db), GetStatement(lines).rest);
            RunLines(env, st, lines) ==
              Run(later.state,
                  [Executing(stmt), ErrorReported(ex.result.error), BlankLine] + later.events,
                  later.status)
  {
    RunLinesFound(env, st, lines);
    StepSwallows(env, st, GetStatement(lines).text);
  }

  /** With debug on the first failing statement's SQLException ends the
      script right after its echo. */
  lemma DebugRethrows<D>(env: Env<D>, st: State<D>, lines: seq<string>)
    requires st.session.debug
    requires GetStatement(lines).Found?
    requires !StartsWith(Trim(GetStatement(lines).text), "\\")
    requires env.exec(st.db, Trim(GetStatement(lines).text)).result.Err?
    ensures var stmt := Trim(GetStatement(lines).text);
            var ex := env.exec(st.db, stmt);
            RunLines(env, st, lines) ==
              Run(State(st.session, ex.db), [Executing(stmt)], Aborted(SqlException(ex.result.error)))
  {
    RunLinesFound(env, st, lines);
    StepRethrows(env, st, GetStatement(lines).text);
  }

  /** A `\q` directive ends the run at once: nothing after it is read,
      executed or printed. */
  lemma QuitEndsScript<D>(env: Env<D>, st: State<D>, lines: seq<string>)
    requires GetStatement(lines).Found?
    requires StartsWith(Trim(GetStatement(lines).text), "\\q")
    ensures RunLines(env, st, lines) == Run(st, [], Quit)
  {
    RunLinesFound(env, st, lines);
    StepQuits(env, st, GetStatement(lines).text);
  }

  /** A malformed or unknown directive aborts the script with its error,
      before anything else of it runs. */
  lemma EscapeErrorAborts<D>(env: Env<D>, st: State<D>, lines: seq<string>)
    requires GetStatement(lines).Found?
    requires StartsWith(Trim(GetStatement(lines).text), "\\")
    requires ParseEscape(Trim(GetStatement(lines).text)).Err?
    ensures RunLines(env, st, lines) ==
            Run(st, [], Aborted(ParseEscape(Trim(GetStatement(lines).text)).error))
  {
    RunLinesFound(env, st, lines);
  }

  /** A well-formed `\o` directive as a step: the sink becomes the named
      file and the redirect is announced, or, when the file cannot be
      opened, the run aborts with nothing changed. */
  lemma StepRedirects<D>(env: Env<D>, st: State<D>, text: string, path: string)
    requires Trim(text) == EscapeText(OutputEscape(path)) && |path| > 0
    ensures Step(env, st, text) ==
            if env.canOpen(path)
            then Run(State(st.session.(sink := File(path)), st.db), [OutputAnnounced(path)], Done)
            else Run(st, [], Aborted(CannotOpen(path)))
  {
    EscapeRoundTrip(OutputEscape(path));
    assert Trim(text)[..1] == "\\";
  }

  /** A redirect to a file that cannot be opened aborts the script before
      anything else of it runs. */
  lemma RedirectFailureAborts<D>(env: Env<D>, st: State<D>, lines: seq<string>, path: string)
    requires GetStatement(lines).Found?
    requires Trim(GetStatement(lines).text) == EscapeText(OutputEscape(path)) && |path| > 0
    requires !env.canOpen(path)
    ensures RunLines(env, st, lines) == Run(st, [], Aborted(CannotOpen(path)))
  {
    RunLinesFound(env, st, lines);
    StepRedirects(env, st, GetStatement(lines).text, path);
  }

  /** `\m` with an argument that names no mode (`\m h` passes " h")
      aborts the script with the invalid-mode error, nothing changed. */
  lemma InvalidModeAborts<D>(env: Env<D>, st: State<D>, lines: seq<string>, arg: string)
    requires GetStatement(lines).Found?
    requires Trim(GetStatement(lines).text) == EscapeText(ModeEscape(arg)) && |arg| > 0
    requires SelectMode(arg).Err?
    ensures RunLines(env, st, lines) == Run(st, [], Aborted(InvalidMode(arg)))
  {
    var text := GetStatement(lines).text;
    RunLinesFound(env, st, lines);
    EscapeRoundTrip(ModeEscape(arg));
    assert Trim(text)[..1] == "\\";
    TrimIdempotent(text);
  }

  /** No statement of `stmts` is the directive `code`. */
  predicate Without(stmts: seq<string>, code: string) {
    forall i :: 0 <= i < |stmts| ==> !StartsWith(Trim(stmts[i]), code)
  }

  lemma WithoutCons(head: string, tail: seq<string>, code: string)
    requires Without([head] + tail, code)
    ensures !StartsWith(Trim(head), code) && Without(tail, code)
  {
    assert ([head] + tail)[0] == head;
    forall i | 0 <= i < |tail| ensures !StartsWith(Trim(tail[i]), code) {
      assert tail[i] == ([head] + tail)[i + 1];
    }
  }

  lemma RendersToAppend(a: seq<Event>, b: seq<Event>, sink: Sink)
    requires RendersTo(a, sink) && RendersTo(b, sink)
    ensures RendersTo(a + b, sink)
  {
    forall i | 0 <= i < |a + b| && (a + b)[i].Rendered? ensures (a + b)[i].sink == sink {
      if i >= |a| {
        assert (a + b)[i] == b[i - |a|];
      }
    }
  }

  lemma RendersInAppend(a: seq<Event>, b: seq<Event>, mode: Mode)
    requires RendersIn(a, mode) && RendersIn(b, mode)
    ensures RendersIn(a + b, mode)
  {
    forall i | 0 <= i < |a + b| && (a + b)[i].Rendered? ensures (a + b)[i].mode == mode {
      if i >= |a| {
        assert (a + b)[i] == b[i - |a|];
      }
    }
  }

  /** Without a `\o` directive every result goes to the sink the run
      started with. */
  lemma {:induction false} SinkStaysWithoutRedirect<D>(env: Env<D>, st: State<D>, lines: seq<string>)
    requires Without(Statements(lines), "\\o")
    ensures var r := RunLines(env, st, lines);
            r.state.session.sink == st.session.sink && RendersTo(r.events, st.session.sink)
    decreases |lines|
  {
    var g := GetStatement(lines);
    if g.Found? {
      RunLinesFound(env, st, lines);
      StatementsFound(lines);
      WithoutCons(g.text, Statements(g.rest), "\\o");
      var first := Step(env, st, g.text);
      StepKeepsOutput(env, st, g.text);
      if first.status.Done? {
        var later := RunLines(env, first.state, g.rest);
        SinkStaysWithoutRedirect(env, first.state, g.rest);
        RendersToAppend(first.events, later.events, st.session.sink);
      }
    }
  }

  /** Without a `\m` directive every result is rendered in the mode the
      run started with. */
  lemma {:induction false} ModeStaysWithoutModeEscape<D>(env: Env<D>, st: State<D>, lines: seq<string>)
    requires Without(Statements(lines), "\\m")
    ensures var r := RunLines(env, st, lines);
            r.state.session.mode == st.session.mode && RendersIn(r.events, st.session.mode)
    decreases |lines|
  {
    var g := GetStatement(lines);
    if g.Found? {
      RunLinesFound(env, st, lines);
      StatementsFound(lines);
      WithoutCons(g.text, Statements(g.rest), "\\m");
      var first := Step(env, st, g.text);
      StepKeepsOutput(env, st, g.text);
      if first.status.Done? {
        var later := RunLines(env, first.state, g.rest);
        ModeStaysWithoutModeEscape(env, first.state, g.rest);
        RendersInAppend(first.events, later.events, st.session.mode);
      }
    }
  }

  /** Selecting the same mode twice announces at most once: the second
      request changes nothing. */
  lemma SetOutputModeIdempotent(s: Session, arg: string)
    requires SetOutputMode(s, arg).Ok?
    ensures var once := SetOutputMode(s, arg).value.session;
            SetOutputMode(once, arg) == Ok(Switched(once, []))
  {
  }
}
