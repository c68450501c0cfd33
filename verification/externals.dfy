/** The collaborators of the classifier that live elsewhere in the crate or in
    the standard library, reduced to what the classifier reads of them. */
module Externals {
  import W = Wrappers

  /** Rust's `i32`, the type of a process exit code. */
  type I32 = c: int | -0x8000_0000 <= c < 0x8000_0000

  /** `std::process::ExitStatus`, reduced to `code()`: `None` when the process
      ended without a numeric code (for instance, killed by a signal). */
  datatype ExitStatus = ExitStatus(code: W.Option<I32>)

  /** The aggregate counts of a report; only the error count is read here. */
  datatype Stats = Stats(errors: nat)

  /** A report built from command output: its diagnostic lines (of type `D`,
      which need not be the raw output line type) and its statistics. */
  datatype Report<D> = Report(lines: seq<D>, stats: Stats)

  /** Raw output kept when the report cannot be trusted: the nonzero exit
      code and the output lines, verbatim. */
  datatype Failure<L> = Failure(errorCode: I32, lines: seq<L>)

  /** Reference definition of a sequence in reverse order. */
  function ReversedSeq<T>(s: seq<T>): (r: seq<T>)
    ensures |r| == |s|
    ensures forall i :: 0 <= i < |s| ==> r[i] == s[|s| - 1 - i]
  {
    if s == [] then [] else ReversedSeq(s[1..]) + [s[0]]
  }

  /** Reversing twice gives back the original sequence. */
  lemma ReversedSeqTwice<T>(s: seq<T>)
    ensures ReversedSeq(ReversedSeq(s)) == s
  {
  }

  /** `Vec::reverse`, done the way the standard library does it: swapping
      mirrored elements from both ends towards the middle. */
  method ReverseLines<T>(s: seq<T>) returns (r: seq<T>)
    ensures r == ReversedSeq(s)
  {
    r := s;
    var n, i := |s|, 0;
    while i < n / 2
      invariant 0 <= i <= n / 2 && |r| == n
      invariant forall k :: 0 <= k < i ==> r[k] == s[n - 1 - k] && r[n - 1 - k] == s[k]
      invariant forall k :: i <= k < n - i ==> r[k] == s[k]
    {
      r := r[i := r[n - 1 - i]][n - 1 - i := r[i]];
      i := i + 1;
    }
    assert forall k :: 0 <= k < n ==> r[k] == ReversedSeq(s)[k];
  }

  /** `Report::reverse`. Its body is not part of this model; the model ASSUMES
      that it reverses the report's diagnostic lines and leaves the
      statistics alone, and this definition is that assumption. */
  function ReverseReport<D>(report: Report<D>): (r: Report<D>)
    ensures r.stats == report.stats
    ensures |r.lines| == |report.lines|
    ensures forall i :: 0 <= i < |report.lines| ==> r.lines[i] == report.lines[|report.lines| - 1 - i]
  {
    report.(lines := ReversedSeq(report.lines))
  }
}
