# CommandResult: trusting or distrusting a command's report

This project models `CommandResult` from bacon, a background code checker.
`CommandResult` is the outcome of one run of a checking command. It has three
variants:

- `Report`: a diagnostic report that can be trusted;
- `Failure`: the raw output lines plus the nonzero exit code, kept when the
  report cannot be trusted;
- `None`: nothing has been computed yet.

`CommandResult::new` builds the report from the captured lines. It
distrusts the report in exactly one case: the process exited with a
nonzero code and the report counts zero errors. That combination suggests
the parser missed whatever made the command fail, such as a crash. A
report that cannot be built at all is returned as an error of the whole
call. `reverse` reverses the line order of the active variant in place.
`lines_len` counts its lines.

Files:

- `wrappers.dfy`: `Option` with the `and_then`/`filter` combinators, and a
  `Result` (`Ok`/`Err`) usable with `:-` in the role of Rust's `?`.
- `externals.dfy`: what the classifier reads of its collaborators.
  - `ExitStatus`, reduced to its optional `i32` code.
  - `Report`, reduced to its diagnostic lines and its error count.
  - `Failure`.
  - `Vec::reverse` (`ReverseLines`, proved against the reference
    definition `ReversedSeq`).
  - `Report::reverse` (`ReverseReport`).
- `command_result.dfy`: the `CommandResult` datatype; `new` (`New`),
  `reverse` (`Reversed`, and the in-place `CommandResultHolder.Reverse`)
  and `lines_len` (`LinesLen`); the lemmas that tie them together.

Modelling choices:

- `Report::from_lines` is passed to `New` as a function parameter,
  `fromLines`. It may return any report or any error, so every property
  below holds whatever the report grammar is.
- The error type is a type parameter `E`.
- Output lines are a type parameter `L`. A report's diagnostic lines are a
  separate type parameter `D`, because a report's lines need not be raw
  output lines.
- `reverse(&mut self)` is the method `Reverse` of a class whose one field
  holds the variant. Its postcondition ties the new value to the old one
  through `Reversed`.
- `Report::reverse` is not part of this model. `ReverseReport` states the
  ASSUMPTION made about it: it reverses the report's lines and leaves its
  statistics unchanged. Every property of `reverse` on the `Report`
  variant, including reversing twice giving back the original, rests on
  this assumption.

## Model

| member | source | states |
|---|---|---|
| `CommandResults.ErrorCode` | src/command_result.rs:19 | the derived code is present exactly when there is a status, it carries a code and the code is nonzero; it is then that code (an absent status, a status without a code and code 0 all give none) |
| `CommandResults.New` | src/command_result.rs:18-30 | a report-building error is returned unchanged as the error of the call, never as a value; a built report never yields `None`; the result is `Failure` exactly when the exit code is nonzero and the report counts zero errors; a `Failure` carries that code and the input lines unmodified and in order; otherwise the result is the built report, unchanged |
| `CommandResults.CleanOrUnknownExitIsTrusted` | src/command_result.rs:19-29 | with no status, no code or code 0, `new` returns the built report whatever its error count |
| `CommandResults.ReportWithErrorsIsTrusted` | src/command_result.rs:21-29 | a report counting at least one error is returned as `Report`, whatever the exit code |
| `CommandResults.CrashIsKeptAsFailure` | src/command_result.rs:21-25 | a run with exit code 134 whose single line the report does not count as an error gives `Failure { error_code: 134, lines }` with that line |
| `CommandResults.Reversed` | src/command_result.rs:31-41 | reversing never changes the variant; on `Report` it applies `Report::reverse`; on `Failure` the error code is kept and line `i` becomes line `n-1-i`; `None` stays `None` |
| `CommandResults.CommandResultHolder.Reverse` | src/command_result.rs:31-41 | the in-place update leaves `Reversed` of the old value in the holder, so it keeps the variant, keeps the failure's error code and leaves `None` alone; it keeps `lines_len` |
| `CommandResults.CommandResultHolder.constructor` | src/command_result.rs:13-14 | a fresh holder is in the "not yet computed" state, whose line count is 0 |
| `CommandResults.LinesLen` | src/command_result.rs:42-48 | the count is 0 for `None`, the failure's raw line count for `Failure`, and the report's own line count for `Report` |
| `CommandResults.ReversedTwice` | src/command_result.rs:31-41 | reversing twice restores the original value in all three variants (for `Report`, under the stated assumption about `Report::reverse`) |
| `CommandResults.ReversedKeepsLinesLen` | src/command_result.rs:31-48 | `lines_len` is the same before and after `reverse` |
| `CommandResults.LinesLenOfNew` | src/command_result.rs:42-48 | `lines_len` of what `new` returns is the number of input lines for a `Failure` and the report's own line count for a `Report` |
| `Externals.ReverseLines` | src/command_result.rs:37 | `Vec::reverse` on the failure lines, a two-ended swap loop, yields exactly the reference reversal of its input |
| `Externals.ReversedSeq` | src/command_result.rs:37 | the reference reversal keeps the length and puts element `n-1-i` at position `i` |
| `Externals.ReversedSeqTwice` | src/command_result.rs:37 | reversing a sequence twice gives back the sequence |
| `Externals.ReverseReport` | src/command_result.rs:34 | the assumed behaviour of `Report::reverse`: statistics unchanged, same number of lines, line `i` becomes line `n-1-i` |

## Left out

- The body of `Report::from_lines`, the grammar of diagnostic lines. It is a parameter of `New` that may return any report or error.
- The body of `Report::reverse` and every field of `Report` other than its lines and its error count. `ReverseReport` is the assumption made about that body.
- Platform details of `std::process::ExitStatus`, such as signals and OS-specific codes. A status is reduced to its optional `i32` code.
- The `anyhow` error type and its context chaining. The error is an opaque type parameter.
- The content and stream origin of an output line. They do not affect this logic.
- `Externals.ReverseLines`: `Vec::reverse` is modelled as a swap loop on a sequence value, not on a heap buffer. `Failure` owns its lines, so no aliasing is lost.
- `CommandResults.LinesLen`: `usize` is modelled as `nat`. Its overflow cannot happen for a line count held in memory.
