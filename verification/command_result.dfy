/** What we get from the execution of a command: a trustable report, the raw
    output of a command whose report cannot be trusted, or nothing yet. */
module CommandResults {
  import W = Wrappers
  import Externals

  /** `CommandResult`: exactly one variant is active. `L` is the type of a
      captured output line, `D` that of a report's diagnostic line. */
  datatype CommandResult<L, D> =
    | Report(report: Externals.Report<D>)
    | Failure(failure: Externals.Failure<L>)
    | None

  /** The exit code worth reporting: the status's code, when there is a
      status, it has a code, and the code is nonzero. */
  function ErrorCode(exitStatus: W.Option<Externals.ExitStatus>): (r: W.Option<Externals.I32>)
    ensures r.Some? <==> exitStatus.Some? && exitStatus.value.code.Some? && exitStatus.value.code.value != 0
    ensures r.Some? ==> r.value == exitStatus.value.code.value
  {
    exitStatus.AndThen((s: Externals.ExitStatus) => s.code).Filter((c: Externals.I32) => c != 0)
  }

  /** `CommandResult::new`: builds the report from all the lines with
      `fromLines` (the crate's `Report::from_lines`), passes on its error,
      and distrusts the report exactly when the process gave a nonzero exit
      code while the report counts no error. */
  function New<L, D, E>(lines: seq<L>, exitStatus: W.Option<Externals.ExitStatus>,
                        fromLines: seq<L> -> W.Result<Externals.Report<D>, E>): (r: W.Result<CommandResult<L, D>, E>)
    // a report that cannot be built is an error of the whole call, never a value
    ensures fromLines(lines).Err? ==> r == W.Err(fromLines(lines).error)
    ensures fromLines(lines).Ok? ==> r.Ok? && !r.value.None?
    // the trust policy
    ensures r.Ok? && r.value.Failure? <==>
              && fromLines(lines).Ok?
              && fromLines(lines).value.stats.errors == 0
              && exitStatus.Some? && exitStatus.value.code.Some? && exitStatus.value.code.value != 0
    // a failure carries the process's code and the input lines untouched
    ensures r.Ok? && r.value.Failure? ==>
              r.value.failure == Externals.Failure(exitStatus.value.code.value, lines)
    // a trusted report is the one built, unchanged
    ensures r.Ok? && r.value.Report? ==> r.value.report == fromLines(lines).value
  {
    var errorCode := ErrorCode(exitStatus);
    var report :- fromLines(lines);
    if errorCode.Some? && report.stats.errors == 0 then
      W.Ok(Failure(Externals.Failure(errorCode.value, lines)))
    else
      W.Ok(Report(report))
  }

  /** The value `CommandResult::reverse` leaves behind. */
  function Reversed<L, D>(cr: CommandResult<L, D>): (r: CommandResult<L, D>)
    ensures r.Report? == cr.Report? && r.Failure? == cr.Failure? && r.None? == cr.None?
    ensures cr.Report? ==> r.report == Externals.ReverseReport(cr.report)
    ensures cr.Failure? ==> r.failure.errorCode == cr.failure.errorCode
    ensures cr.Failure? ==> |r.failure.lines| == |cr.failure.lines|
    ensures cr.Failure? ==> forall i :: 0 <= i < |cr.failure.lines| ==>
              r.failure.lines[i] == cr.failure.lines[|cr.failure.lines| - 1 - i]
  {
    match cr
    case Report(report) => Report(Externals.ReverseReport(report))
    case Failure(failure) => Failure(failure.(lines := Externals.ReversedSeq(failure.lines)))
    case None => None
  }

  /** `CommandResult::lines_len`: the number of lines of the active variant. */
  function LinesLen<L, D>(cr: CommandResult<L, D>): (n: nat)
    ensures cr.None? ==> n == 0
    ensures cr.Failure? ==> n == |cr.failure.lines|
    ensures cr.Report? ==> n == |cr.report.lines|
  {
    match cr
    case Report(report) => |report.lines|
    case Failure(failure) => |failure.lines|
    case None => 0
  }

  /** Reversing twice restores the original value, in every variant. */
  lemma ReversedTwice<L, D>(cr: CommandResult<L, D>)
    ensures Reversed(Reversed(cr)) == cr
  {
  }

  /** Reversing does not change the line count. */
  lemma ReversedKeepsLinesLen<L, D>(cr: CommandResult<L, D>)
    ensures LinesLen(Reversed(cr)) == LinesLen(cr)
  {
  }

  /** The line count of what `new` returns: the input line count on a
      failure, the report's own line count on a report. */
  lemma LinesLenOfNew<L, D, E>(lines: seq<L>, exitStatus: W.Option<Externals.ExitStatus>,
                               fromLines: seq<L> -> W.Result<Externals.Report<D>, E>)
    requires fromLines(lines).Ok?
    ensures var r := New(lines, exitStatus, fromLines);
            r.Ok? && LinesLen(r.value) == if r.value.Failure? then |lines| else |fromLines(lines).value.lines|
  {
  }

  /** A run that exited cleanly, without a code, or with an unknown status is
      never distrusted, whatever the report's error count. */
  lemma CleanOrUnknownExitIsTrusted<L, D, E>(lines: seq<L>, exitStatus: W.Option<Externals.ExitStatus>,
                                             fromLines: seq<L> -> W.Result<Externals.Report<D>, E>)
    requires fromLines(lines).Ok?
    requires exitStatus.None? || exitStatus.value.code.None? || exitStatus.value.code.value == 0
    ensures New(lines, exitStatus, fromLines) == W.Ok(Report(fromLines(lines).value))
  {
  }

  /** A report that counts errors is trusted, whatever the exit code. */
  lemma ReportWithErrorsIsTrusted<L, D, E>(lines: seq<L>, exitStatus: W.Option<Externals.ExitStatus>,
                                           fromLines: seq<L> -> W.Result<Externals.Report<D>, E>)
    requires fromLines(lines).Ok? && fromLines(lines).value.stats.errors > 0
    ensures New(lines, exitStatus, fromLines) == W.Ok(Report(fromLines(lines).value))
  {
  }

  /** A command that crashed with code 134 after printing a line its report
      does not recognise as an error is kept as a failure. */
  lemma CrashIsKeptAsFailure<D, E>(fromLines: seq<string> -> W.Result<Externals.Report<D>, E>)
    requires fromLines(["panic: out of memory"]).Ok?
    requires fromLines(["panic: out of memory"]).value.stats.errors == 0
    ensures New(["panic: out of memory"], W.Some(Externals.ExitStatus(W.Some(134))), fromLines)
            == W.Ok(Failure(Externals.Failure(134, ["panic: out of memory"])))
  {
  }

  /** `CommandResult` as a place that `reverse(&mut self)` updates. */
  class CommandResultHolder<L, D> {
    var value: CommandResult<L, D>

    /** A holder in the "not yet computed" state. */
    constructor ()
      ensures value == None && LinesLen(value) == 0
    {
      value := None;
    }

    /** `CommandResult::reverse`: reverses, in place, the lines of whichever
        variant is active, through `Report::reverse` or `Vec::reverse`. */
    method Reverse()
      modifies this
      ensures value == Reversed(old(value))
      ensures LinesLen(value) == LinesLen(old(value))
    {
      match value
      case Report(report) =>
        value := Report(Externals.ReverseReport(report));
      case Failure(failure) =>
        var lines := Externals.ReverseLines(failure.lines);
        value := Failure(failure.(lines := lines));
      case None =>
    }
  }
}
