/** The three output modes of SQLRunner and how a mode argument selects one. */
module OutputMode {
  import opened Results
  import opened Failures
  import opened JavaString

  /** Which results decorator is current: text, HTML or SQL inserts. */
  datatype Mode = Text | Html | Sql

  /** The MODE_TXT, MODE_HTML and MODE_SQL constants. */
  function Code(m: Mode): string {
    match m
    case Text => "t"
    case Html => "h"
    case Sql => "s"
  }

  /** The decorator an argument of setOutputMode picks: only the first
      character counts, and it must be the code of a mode. */
  function SelectMode(arg: string): (r: Result<Mode, Failure>)
    ensures r.Ok? <==> exists m :: StartsWith(arg, Code(m))
    ensures r.Ok? ==> StartsWith(arg, Code(r.value))
    ensures r.Err? ==> r.error == InvalidMode(arg)
  {
    if |arg| == 0 then Err(InvalidMode(arg))
    else if arg[0] == 't' then assert arg[..1] == Code(Text); Ok(Text)
    else if arg[0] == 'h' then assert arg[..1] == Code(Html); Ok(Html)
    else if arg[0] == 's' then assert arg[..1] == Code(Sql); Ok(Sql)
    else
      assert forall m :: !StartsWith(arg, Code(m)) by {
        forall m ensures !StartsWith(arg, Code(m)) {
          assert |Code(m)| == 1;
        }
      }
      Err(InvalidMode(arg))
  }

  /** Each mode constant selects its own mode. */
  lemma CodeSelectsMode(m: Mode)
    ensures SelectMode(Code(m)) == Ok(m)
  {
    assert StartsWith(Code(m), Code(m));
  }

  /** Arguments with the same first character select the same mode or
      are both rejected. */
  lemma FirstCharacterDecides(a: string, b: string)
    requires |a| > 0 && |b| > 0 && a[0] == b[0]
    ensures SelectMode(a).Ok? <==> SelectMode(b).Ok?
    ensures SelectMode(a).Ok? ==> SelectMode(a) == SelectMode(b)
  {
  }
}
