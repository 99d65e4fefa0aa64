# SQLRunner script engine, modelled in Dafny

SQLRunner (`com.darwinsys.sql.SQLRunner`) runs a line-oriented SQL script against a JDBC
connection. The model covers the following parts.

- The statement extractor `getStatement`. It skips empty lines. It joins non-comment lines with a
  leading space each. It stops at the first line ending in `;`, then drops the last character of
  the accumulated text.
- The backslash directives of `doEscape`:
  - `\m<mode>` selects the output mode;
  - `\o<file>` redirects output to a file;
  - `\q` quits.
- `setOutputMode`, which chooses the text, HTML or SQL decorator from the first character of its
  argument.
- `runStatement`. It echoes the statement, executes it, and renders the outcome through the
  current decorator. An `SQLException` is reported and swallowed, unless debug mode is on, in
  which case it is rethrown.
- The `runScript(BufferedReader)` loop. It trims each statement and sends it either to
  `doEscape` or to `runStatement`.

Modules:

- `Results`, `Failures` (`results.dfy`): option and result types, plus the exceptions the core can
  raise, as values.
- `JavaString` (`java_string.dfy`): `startsWith`, `endsWith` and `trim`. `trim` removes every
  character at or below U+0020 at both ends.
- `Extractor` (`extractor.dfy`): `getStatement`, defined twice:
  - as the loop is written (`ReadFrom`);
  - as a declarative description (`Extract`: everything up to the first terminating line, with
    comments contributing nothing, minus one character).

  A proof shows that the two agree.
- `OutputMode` (`output_mode.dfy`): the three modes and `setOutputMode`'s choice of one.
- `Escapes` (`escapes.dfy`): parsing of a directive, with a round trip between writing a
  directive and parsing it.
- `Runner` (`runner.dfy`): the session (mode, sink, debug flag) and the operations over it. The
  database and JDBC are an abstract executor `Env<D>`. Its `exec` maps a database state and a
  statement text to a new state, plus either an outcome (update count or rows) or the text of an
  `SQLException`. Its `canOpen` says whether a redirect target can be opened. Console output is a
  sequence of `Event`s. A run ends `Done`, `Quit` (`\q`, which calls `System.exit`), or
  `Aborted(failure)` (an exception escaping `runScript`).
- `Scenarios` (`scenarios.dfy`): whole scripts run through the model. The query text and the
  database's answers are left general.

The script reader is modelled as the sequence of lines it still holds. `getStatement` returns
the statement together with the lines left unread.

Where the code and its own comments differ, the model follows the code. The getStatement
Javadoc (SQLRunner.java:337-340) promises the statement up to but not including the `;`, and the
comment at :356 promises that a lone `;` is killed off as an empty statement:

- A line that is only `;` is meant to be suppressed as an empty statement. The assignment that
  should do this (`line = ""`) is never read afterwards. So `getStatement` returns `" "`, which
  `runScript` trims to `""` and hands to `runStatement` (`Extractor.LoneSemicolon`).
- A comment line ending in `;` also ends the statement. If statement text has been accumulated,
  the last character of that text is cut off (`Extractor.TerminatingCommentDropsChar`).
  Otherwise `substring(0, -1)` throws (`Extractor.TerminatingCommentFirst`).
- Text accumulated before the end of input without a terminator is discarded: `getStatement`
  returns `null` (`Extractor.ExhaustedIffNoTerminator`).

## Model

| member | source | states |
|---|---|---|
| JavaString.Trim | src/com/darwinsys/sql/SQLRunner.java:263 | The trimmed statement neither starts nor ends with white space (a character at or below U+0020), and it is no longer than the input. |
| JavaString.TrimSplits | src/com/darwinsys/sql/SQLRunner.java:263 | Trimming removes only white space: the input is white space, then the trimmed text, then white space. |
| JavaString.TrimExtractsCore | src/com/darwinsys/sql/SQLRunner.java:263 | Any decomposition into white space, a core without outer white space, and white space trims to exactly that core. |
| JavaString.TrimIdempotent | src/com/darwinsys/sql/SQLRunner.java:317 | Trimming an already trimmed statement changes nothing, so runStatement echoes exactly what runScript passed it. |
| Extractor.ReadFrom | src/com/darwinsys/sql/SQLRunner.java:347-362 | When the loop finds a statement, it has consumed at least one line, and what is left unread is a suffix of the input. |
| Extractor.GetStatement | src/com/darwinsys/sql/SQLRunner.java:342-364 | A found statement consumes at least one line and leaves a suffix of the input unread, so repeated calls make progress. |
| Extractor.FirstTerminator | src/com/darwinsys/sql/SQLRunner.java:355 | Finds the index of the first line ending in `;`, or reports that no line ends in `;`. |
| Extractor.ReadFromMeetsSpec | src/com/darwinsys/sql/SQLRunner.java:347-362 | From any accumulated text, the loop yields the declarative extraction: all pieces up to the first terminating line, minus one character. It fails when there is nothing to cut, and yields no statement when no line terminates. |
| Extractor.GetStatementMeetsSpec | src/com/darwinsys/sql/SQLRunner.java:342-364 | getStatement equals the declarative extraction for every input. |
| Extractor.ExhaustedIffNoTerminator | src/com/darwinsys/sql/SQLRunner.java:347-363 | getStatement returns null exactly when no line of the input ends in `;`. |
| Extractor.CommentLinesInvisible | src/com/darwinsys/sql/SQLRunner.java:348-354 | An empty line, or a comment line not ending in `;`, placed anywhere before the terminator changes neither the statement nor the unread lines. |
| Extractor.FoundStartsWithSpace | src/com/darwinsys/sql/SQLRunner.java:352 | Every statement found starts with the space put in front of its first line. |
| Extractor.PlainStatement | src/com/darwinsys/sql/SQLRunner.java:351-360 | Statement lines followed by a line ending in `;` yield those lines, each preceded by one space, with the `;` removed. Reading resumes after the terminating line. |
| Extractor.LoneSemicolon | src/com/darwinsys/sql/SQLRunner.java:355-360 | A line holding only `;` yields the statement `" "`, which trims to the empty string. The empty-statement kludge has no effect. |
| Extractor.TerminatingCommentFirst | src/com/darwinsys/sql/SQLRunner.java:351-359 | A comment line ending in `;` with no statement text before it makes getStatement fail on the substring call. |
| Extractor.TerminatingCommentDropsChar | src/com/darwinsys/sql/SQLRunner.java:351-360 | A comment line ending in `;` after a statement line ends that statement, and cuts off the statement's last character (a whole character; see the UTF-16 line under Left out). |
| Extractor.SpaceAfterSemicolonDoesNotTerminate | src/com/darwinsys/sql/SQLRunner.java:355 | A line ending in `; ` does not end a statement, because endsWith looks at the very last character. |
| OutputMode.SelectMode | src/com/darwinsys/sql/SQLRunner.java:197-216 | An argument is accepted exactly when it starts with one of the codes `t`, `h`, `s`, and then it selects the mode of that code. Anything else, the empty string included, is rejected with an invalid-mode error naming the argument. |
| OutputMode.CodeSelectsMode | src/com/darwinsys/sql/SQLRunner.java:62-66 | Each of MODE_TXT, MODE_HTML and MODE_SQL selects its own mode. |
| OutputMode.FirstCharacterDecides | src/com/darwinsys/sql/SQLRunner.java:204 | Two arguments with the same first character get the same answer. |
| Escapes.ParseEscape | src/com/darwinsys/sql/SQLRunner.java:275-294 | A parsed directive is well formed and is a prefix of the input. Apart from `\q`, it is the whole input. A failure is one of: missing mode argument, missing file argument, or unknown escape naming the input. |
| Escapes.EscapeRoundTrip | src/com/darwinsys/sql/SQLRunner.java:276-290 | Writing any well-formed directive and parsing it gives back the same directive. |
| Escapes.ParseEscapeFailures | src/com/darwinsys/sql/SQLRunner.java:280-294 | Each failure occurs exactly in its case: bare `\m`, bare `\o`, or a string starting with none of `\m`, `\o`, `\q`. |
| Escapes.QuitIgnoresArgument | src/com/darwinsys/sql/SQLRunner.java:290-291 | `\q` followed by anything is a quit. |
| Runner.SetOutputMode | src/com/darwinsys/sql/SQLRunner.java:197-222 | Succeeds exactly when the argument selects a mode, and then sets that mode and touches nothing else. The change is announced if and only if the mode actually changes. A failure is an invalid-mode error. |
| Runner.SetOutputModeIdempotent | src/com/darwinsys/sql/SQLRunner.java:217-220 | Requesting the same mode a second time changes nothing and announces nothing. |
| Runner.Open | src/com/darwinsys/sql/SQLRunner.java:178-190 | Setup writes to standard output in the requested mode, with debug off, the initial value of the `debug` field (:85). The initial mode is always announced, because no decorator is current yet. An invalid mode fails. |
| Runner.RunStatement | src/com/darwinsys/sql/SQLRunner.java:315-335 | Echoes the trimmed statement first and executes exactly that one statement. Results are rendered only by the current decorator to the current sink. With debug off, an SQLException is reported and the step ends with a blank line. With debug on, it is rethrown right after the echo. The session is unchanged. |
| Runner.DoEscape | src/com/darwinsys/sql/SQLRunner.java:275-305 | Executes nothing, renders nothing, and leaves the database and debug flag alone. Only `\o` changes the sink and only `\m` changes the mode. It quits exactly on `\q`. A parse error aborts with that error and changes nothing. `\o<path>` switches the sink to that file and announces it, or aborts with the file unopenable and nothing changed. `\m<arg>` with an argument naming no mode aborts with the invalid-mode error and nothing changed. |
| Runner.Step | src/com/darwinsys/sql/SQLRunner.java:263-268 | A directive executes nothing; any other statement executes exactly its trimmed text. With debug off, an SQLException never aborts. |
| Runner.StepKeepsOutput | src/com/darwinsys/sql/SQLRunner.java:264-268 | A step renders only through the current decorator and sink. The sink changes only on `\o` and the mode only on `\m`. |
| Runner.RunLines | src/com/darwinsys/sql/SQLRunner.java:262-269 | The loop never changes the debug flag. |
| Runner.RunScript | src/com/darwinsys/sql/SQLRunner.java:256-270 | The run first announces readiness, and keeps the debug flag. |
| Runner.ExecutionFollowsInput | src/com/darwinsys/sql/SQLRunner.java:262-269 | Statements are executed in input order and directives execute nothing. A run that reaches the end of input executed exactly the script's SQL statements; an interrupted run executed a prefix of them. |
| Runner.SqlErrorsSwallowedUnlessDebug | src/com/darwinsys/sql/SQLRunner.java:327-332 | With debug off, no SQLException ever ends a script. |
| Runner.StepRenders | src/com/darwinsys/sql/SQLRunner.java:317-334 | A statement that executes produces the echo, its outcome rendered in the current mode on the current sink, and a blank line. |
| Runner.StepModeEscape | src/com/darwinsys/sql/SQLRunner.java:280-284 | A well-formed `\m` directive does exactly what setOutputMode does with its argument. |
| Runner.StepSwallows | src/com/darwinsys/sql/SQLRunner.java:327-334 | With debug off, a failing statement produces the echo, the error line and a blank line, and the run goes on. |
| Runner.StepRethrows | src/com/darwinsys/sql/SQLRunner.java:328-329 | With debug on, a failing statement aborts right after the echo, with its SQLException. |
| Runner.StepQuits | src/com/darwinsys/sql/SQLRunner.java:290-291 | `\q` prints nothing, changes nothing, and ends the run. |
| Runner.SwallowedErrorContinues | src/com/darwinsys/sql/SQLRunner.java:327-334 | With debug off, the script continues after a failing statement, against the database as the failure left it. |
| Runner.DebugRethrows | src/com/darwinsys/sql/SQLRunner.java:328-329 | With debug on, the first failing statement ends the script. |
| Runner.QuitEndsScript | src/com/darwinsys/sql/SQLRunner.java:290-291 | Nothing after a `\q` is read, executed or printed. |
| Runner.StepRedirects | src/com/darwinsys/sql/SQLRunner.java:285-304 | A well-formed `\o<path>` makes that file the sink and announces it; if the file cannot be opened the run aborts with nothing changed. |
| Runner.RedirectFailureAborts | src/com/darwinsys/sql/SQLRunner.java:285-303 | A redirect to a file that cannot be opened aborts the script before anything else of it runs. |
| Runner.InvalidModeAborts | src/com/darwinsys/sql/SQLRunner.java:280-284 | `\m<arg>` whose argument names no mode aborts the script with the invalid-mode error before anything else runs. |
| Runner.EscapeErrorAborts | src/com/darwinsys/sql/SQLRunner.java:280-294 | A malformed or unknown directive aborts the script with its error before anything else runs. |
| Runner.SinkStaysWithoutRedirect | src/com/darwinsys/sql/SQLRunner.java:285-289 | In a script without `\o`, every result goes to the sink the run started with. |
| Runner.ModeStaysWithoutModeEscape | src/com/darwinsys/sql/SQLRunner.java:280-284 | In a script without `\m`, every result is rendered in the mode the run started with. |
| Scenarios.ModeArguments | src/com/darwinsys/sql/SQLRunner.java:204-215 | `html`, `h` and `hx` select HTML; the empty string, `x` and ` h` (leading space) are rejected. |
| Scenarios.QueryLine | src/com/darwinsys/sql/SQLRunner.java:351-360 | A first line `q;` yields a statement that trims back to `q`. |
| Scenarios.OnlyStatement | src/com/darwinsys/sql/SQLRunner.java:262-269 | A script whose single statement completes produces exactly that statement's output. |
| Scenarios.LastQuery | src/com/darwinsys/sql/SQLRunner.java:262-269 | The script `q;` echoes `q`, renders its result, and ends normally. |
| Scenarios.ScriptAfterFirst | src/com/darwinsys/sql/SQLRunner.java:256-270 | A script whose first statement completes prints the banner, then that statement's output, then the rest of the run. |
| Scenarios.HtmlScenario | src/com/darwinsys/sql/SQLRunner.java:256-270 | Starting in text mode, `\mh;` followed by a query first announces HTML mode and then renders the query's result as HTML. |
| Scenarios.ErrorThenQuery | src/com/darwinsys/sql/SQLRunner.java:327-334 | With debug off, a failing statement followed by a good one reports the error, then runs and renders the good one against the database as the failure left it. |
| Scenarios.SpacedModeFirst | src/com/darwinsys/sql/SQLRunner.java:280-284 | A script starting with `\m h;` passes ` h` to setOutputMode, so it prints the ready banner and aborts with the invalid-mode error. |
| Scenarios.QuitFirst | src/com/darwinsys/sql/SQLRunner.java:290-291 | A script starting with `\q;` prints only the ready banner, whatever follows. |

## Left out

- Splitting a character stream into lines (`BufferedReader.readLine`): the input is already a
  sequence of lines. An `IOException` from reading is not modelled.
- JDBC (`Statement.execute`, `getUpdateCount`, `getResultSet`) and the three results decorators.
  They are the abstract executor `Env.exec` and the event `Rendered(sink, mode, outcome)`. How
  rows are formatted as text, HTML or SQL is not part of this model.
- Opening the redirect file (`new FileWriter`) is the predicate `Env.canOpen`. A failure is the
  abort `CannotOpen`. `getCanonicalPath` is not modelled: the announcement carries the path as
  written.
- Runner.Open: the constructor always leaves `debug` false. A run with debug on starts from a
  session whose package-private `debug` field was set after construction; the model takes that
  session as given.
- `System.exit(0)` on `\q` is the status `Quit`. Exceptions escaping `runScript` are the status
  `Aborted`.
- `setOutputFile()` without an argument, `close()`, `print`/`println`, `runScript(String)`
  (opening a file by name), `main`, `GetOpt`, the properties file, `createConnection`, and the
  "Connected to" line in `finishSetup`. These are process set-up and I/O around the core.
- The flush of `System.out` and the line layout of the messages: events record which message is
  printed, not its exact wording.
- Strings are sequences of Unicode scalar values, not UTF-16 code units. `substring(0, length-1)`
  removes one UTF-16 unit; the model removes one character. The two differ only when the text
  before a terminating comment line ends in a supplementary character (above U+FFFF): for
  `x😀` followed by `--;` Java leaves a lone high surrogate after `x`, the model leaves `x`.
- SQLRunnerGUI, CompressingFilter and the regression tests are not part of this model.
- JavaString.Trim: the function's own contract says only that the result has no outer white
  space and is no longer than the input. That the result is the input without its outer white
  space is stated by the lemmas TrimSplits and TrimExtractsCore.
