/** The per-line policy of the command-line driver (`cli`): blank lines are
    skipped, every other line is converted and written in order; a line that
    fails with one of the two converter errors is skipped under `--ignore`
    and otherwise stops the run, the error propagating to the caller after
    the lines before it have been written. Lines arrive already stripped;
    each written line is followed by a newline in the output file. */
module Driver {
  import opened Errors
  import Converter

  /** How a run ends: every line was processed, or a converter error was
      raised at some line. */
  datatype Outcome = Completed | Aborted(error: CoreError)

  /** The lines written and how the run ended. */
  datatype Run = Run(written: seq<string>, outcome: Outcome)

  /** The driver's run over `lines`, front to back. */
  function Drive(lines: seq<string>, ignore: bool, rewritePath: string,
                 hira2kata: string -> string, rewrite: (string, string) -> string): Run
  {
    if lines == [] then Run([], Completed)
    else
      var rest := Drive(lines[1..], ignore, rewritePath, hira2kata, rewrite);
      if lines[0] == "" then rest
      else
        match Converter.Convert(lines[0], rewritePath, hira2kata, rewrite)
        case Ok(converted) => Run([converted] + rest.written, rest.outcome)
        case Err(e) => if ignore then rest else Run([], Aborted(e))
  }

  /** `cli`'s loop over the lines of the input file. */
  method Cli(lines: seq<string>, ignore: bool, rewritePath: string,
             hira2kata: string -> string, rewrite: (string, string) -> string)
    returns (written: seq<string>, outcome: Outcome)
    ensures Run(written, outcome) == Drive(lines, ignore, rewritePath, hira2kata, rewrite)
  {
    written := [];
    var i := 0;
    while i < |lines|
      invariant 0 <= i <= |lines|
      invariant Drive(lines, ignore, rewritePath, hira2kata, rewrite)
             == var later := Drive(lines[i..], ignore, rewritePath, hira2kata, rewrite);
                Run(written + later.written, later.outcome)
    {
      var line := lines[i];
      assert lines[i..][1..] == lines[i + 1..];
      if line == "" {
        i := i + 1;
        continue;
      }
      var converted := Converter.Convert(line, rewritePath, hira2kata, rewrite);
      match converted {
        case Err(e) =>
          if ignore {
            i := i + 1;
            continue;
          } else {
            assert written + [] == written;
            return written, Aborted(e);
          }
        case Ok(s) =>
          written := written + [s];
      }
      i := i + 1;
    }
    assert lines[i..] == [];
    assert written + [] == written;
    outcome := Completed;
  }

  /** A run writes at most one line per input line. */
  lemma {:induction false} DriveWritesAtMostOnePerLine(lines: seq<string>, ignore: bool, rewritePath: string,
                                                       hira2kata: string -> string, rewrite: (string, string) -> string)
    ensures |Drive(lines, ignore, rewritePath, hira2kata, rewrite).written| <= |lines|
  {
    if lines != [] {
      DriveWritesAtMostOnePerLine(lines[1..], ignore, rewritePath, hira2kata, rewrite);
    }
  }

  /** A non-blank line the converter rejects. */
  predicate Fails(line: string, rewritePath: string,
                  hira2kata: string -> string, rewrite: (string, string) -> string)
  {
    line != "" && Converter.Convert(line, rewritePath, hira2kata, rewrite).Err?
  }

  /** The conversions of the lines the converter accepts, in input order;
      blank lines and rejected lines contribute nothing. */
  function Accepted(lines: seq<string>, rewritePath: string,
                    hira2kata: string -> string, rewrite: (string, string) -> string): seq<string>
  {
    if lines == [] then []
    else
      var here := Converter.Convert(lines[0], rewritePath, hira2kata, rewrite);
      (if lines[0] != "" && here.Ok? then [here.value] else [])
      + Accepted(lines[1..], rewritePath, hira2kata, rewrite)
  }

  /** Under `--ignore` the run always completes and writes the conversion of
      every accepted line, in order. */
  lemma {:induction false} IgnoreWritesAllAccepted(lines: seq<string>, rewritePath: string,
                                                   hira2kata: string -> string, rewrite: (string, string) -> string)
    ensures Drive(lines, true, rewritePath, hira2kata, rewrite)
         == Run(Accepted(lines, rewritePath, hira2kata, rewrite), Completed)
  {
    if lines != [] {
      IgnoreWritesAllAccepted(lines[1..], rewritePath, hira2kata, rewrite);
    }
  }

  /** Without `--ignore`, a run over lines none of which fails completes
      and writes every conversion, in order. */
  lemma {:induction false} StrictCompletes(lines: seq<string>, rewritePath: string,
                                           hira2kata: string -> string, rewrite: (string, string) -> string)
    requires forall j :: 0 <= j < |lines| ==> !Fails(lines[j], rewritePath, hira2kata, rewrite)
    ensures Drive(lines, false, rewritePath, hira2kata, rewrite)
         == Run(Accepted(lines, rewritePath, hira2kata, rewrite), Completed)
  {
    if lines != [] {
      assert !Fails(lines[0], rewritePath, hira2kata, rewrite);
      assert forall j :: 0 <= j < |lines[1..]| ==> lines[1..][j] == lines[j + 1];
      StrictCompletes(lines[1..], rewritePath, hira2kata, rewrite);
    }
  }

  /** Without `--ignore`, the first failing line stops the run with its
      error; what was written is exactly the conversions of the lines
      before it. */
  lemma {:induction false} StrictAbortsAtFirstFailure(lines: seq<string>, k: nat, rewritePath: string,
                                                      hira2kata: string -> string, rewrite: (string, string) -> string)
    requires k < |lines| && Fails(lines[k], rewritePath, hira2kata, rewrite)
    requires forall j :: 0 <= j < k ==> !Fails(lines[j], rewritePath, hira2kata, rewrite)
    ensures Drive(lines, false, rewritePath, hira2kata, rewrite)
         == Run(Accepted(lines[..k], rewritePath, hira2kata, rewrite),
                Aborted(Converter.Convert(lines[k], rewritePath, hira2kata, rewrite).error))
  {
    if k > 0 {
      assert !Fails(lines[0], rewritePath, hira2kata, rewrite);
      assert forall j :: 0 <= j < k - 1 ==> lines[1..][j] == lines[j + 1];
      StrictAbortsAtFirstFailure(lines[1..], k - 1, rewritePath, hira2kata, rewrite);
      assert lines[..k][0] == lines[0] && lines[..k][1..] == lines[1..][..k - 1];
    }
  }

  /** A blank line anywhere in the input changes nothing about the run. */
  lemma {:induction false} BlankLineIsSkipped(lines: seq<string>, k: nat, ignore: bool, rewritePath: string,
                                              hira2kata: string -> string, rewrite: (string, string) -> string)
    requires k <= |lines|
    ensures Drive(lines[..k] + [""] + lines[k..], ignore, rewritePath, hira2kata, rewrite)
         == Drive(lines, ignore, rewritePath, hira2kata, rewrite)
  {
    var padded := lines[..k] + [""] + lines[k..];
    if k == 0 {
      assert padded[1..] == lines;
    } else {
      BlankLineIsSkipped(lines[1..], k - 1, ignore, rewritePath, hira2kata, rewrite);
      assert padded[0] == lines[0];
      assert padded[1..] == lines[1..][..k - 1] + [""] + lines[1..][k - 1..];
    }
  }
}
