# The C compile strategy of npuboj_server, modelled in Dafny

This project models the compile-run-judge core of the online judge's C
compile strategy, `CCompilerStrategy` in `src/lib/c_compile_strategy.cpp`.
It covers both constructors and both `compile` overloads, and proves what
they do with what the compiler and the process-isolation executor
(sandbox2) report back.

- **Construction** (`CCompileStrategy.Construct`). A strategy is built only
  when the working directory is an existing directory and
  `<cc> --version` can be started and exits with 0. A rejected path or
  compiler yields the `invalid_argument` message the source throws. A path
  whose status cannot be read yields the `filesystem_error` that
  `boost::filesystem::exists` throws. A version command that cannot be
  started yields the `process_error` that `bp::child` throws.
- **Compile and run** (`CCompileStrategy.Compile`). If the compiler exits
  with a non-zero code, the diagnostic is assembled from its error stream
  with `getline` (`AssembleDiagnostic`). The batch is then one result with
  code -1, and no execution is attempted. Otherwise `RunInputs` attempts one
  execution per input, in input order, under the limits derived from the
  `Limitation` (`Sandbox.LimitsFor`), and classifies each report
  (`Classify`). An exception inside the loop replaces the whole batch with
  one result of code -2, and no later input is run.
- **Compile and judge** (`CCompileStrategy.CompileAndJudge`). `Judge` pushes
  -1 once if any result is a compile error, then every non-zero code in
  order. For a zero code it splits and right-trims the standard output
  (`NormalizeOutput`) and then drops what it computed.

The compiler, the executor and the host are not modelled. Each is passed in.
- The compiler is a function from the source text to its exit code and
  the text of its error stream.
- The executor is a `Sandbox.Runner` object. Its `launched` field records
  every execution attempted, in order. Each call of `Run` appends one
  `Sandbox.Launch` and returns a `Sandbox.Report`.
  - A launch holds the binary, the source text the compiler last wrote
    that binary from, its arguments, its limits and its standard input.
  - A report is the final status, the reason code and the drained output
    streams, or a C++ exception raised anywhere in that iteration. That
    includes an exception raised while the executor is built, before any
    process is started; such a fault is still charged to that iteration's
    launch, which is why the record holds attempted executions.
  - The report is a function of the launch and of every launch before it.
    So two executions of the same input may get different reports.
- The host that construction consults is a value of `Host`. It gives the
  status of a path, and the exit code of a command or the fact that it
  could not be started.

Integer widths are explicit where they matter.
- `Limitation`'s fields are 32-bit `int`s.
- The memory shift goes through `unsigned long long`, modulo 2^64.
- The CPU rlimit is an unsigned 64-bit value.
- `reason_code()` is an unsigned machine word that the source stores in an
  `int`, which keeps its low 32 bits (`Sandbox.ToInt32`).
- The numeric value of sandbox2's `FAILED_LIMITS` is defined in sandbox2's
  header, which is not part of this model. `Sandbox.FAILED_LIMITS` is
  declared without a value, and every property is stated in terms of
  the constant.

Where the code disagrees with its own comments, the model follows the code.
- The comment at src/include/utils.h:14 gives 4 as the timeout code. The
  classification at src/lib/c_compile_strategy.cpp:155-178 tests the
  status against OK first.
  - Every non-OK status gives code 0: a timeout, a violation, a signal and
    a sandbox failure all do.
  - The TIMEOUT test inside the OK branch can never succeed. Its code 1 is
    never produced, and neither is 4.
  - An OK run gives 2 when its reason code is FAILED_LIMITS, and 3
    otherwise.
- The comment at src/include/compile_strategy.h:19-20 promises one output
  per input. But an exception in any iteration of the run loop discards
  every result already recorded. The call then returns a single result
  with code -2, whatever the number of inputs.
- The comment at src/include/compile_strategy.h:28-29 says the judge
  returns one boolean per input, true for a correct output. The code never
  reads the expected outputs. Its list holds result codes, not pass/fail
  values, and a compile error gives `[-1, -1]`.
- A compiler error stream that is a lone newline gives an empty diagnostic.

How the output is split and trimmed:
- `std::views::split` gives no pieces for an empty output.
- It gives an empty last piece after a final newline, and no rule drops a
  trailing empty line.
- So a non-empty output made only of spaces, tabs and `\r`, with no
  newline, normalises to `[""]`. The empty output normalises to `[]`.
- Each newline starts a new piece, so an output of `k` newlines and blanks
  normalises to `k + 1` empty lines. For example, `"\n"` gives
  `["", ""]`.

## Model

| member | source | states |
|---|---|---|
| `Sandbox.ToUnsigned64` | src/lib/c_compile_strategy.cpp:99 | the cast of an `int` to `unsigned long long` agrees with it modulo 2^64 and keeps a non-negative value |
| `Sandbox.ToInt32` | src/lib/c_compile_strategy.cpp:168 | storing the reason code in an `int` keeps it modulo 2^32, and keeps a value below 2^31 exactly |
| `Sandbox.LimitsFor` | src/lib/c_compile_strategy.cpp:98-101 | address-space limit = memory × 2^20 bytes modulo 2^64: exactly that for memory ≥ 0, a whole number of MiB converting back to the memory given, at least 1 MiB for memory ≥ 1, and 2^64 more than the negative product for memory < 0; CPU limit = time for time ≥ 0; wall-clock limit = time |
| `Sandbox.ShiftedBytes` | src/lib/c_compile_strategy.cpp:99 | the 64-bit shift of a memory count is its exact product with 2^20 when non-negative, and that product plus 2^64 when negative |
| `Sandbox.Runner.Run` | src/lib/c_compile_strategy.cpp:94-153 | one attempted sandboxed execution appends its launch to the record of executions and returns the report for it given every earlier launch |
| `Sandbox.Responses` | src/lib/c_compile_strategy.cpp:92-136 | a series of executions gets exactly one report per launch |
| `Sandbox.ResponsesAt` | src/lib/c_compile_strategy.cpp:92-136 | the i-th report of a series answers the i-th launch, given every launch before it |
| `Text.DropFinalNewline` | src/lib/c_compile_strategy.cpp:78-85 | the result is the text, or the text minus one final newline, and it is the text itself exactly when the text does not end in a newline |
| `Text.GetLine` | src/lib/c_compile_strategy.cpp:79-81 | `getline` fails exactly when nothing is left, and otherwise advances within the text |
| `Text.GetLineReads` | src/lib/c_compile_strategy.cpp:79-81 | a successful `getline` returns a line without newline: the text up to a newline it consumes, or the rest of the text |
| `Text.Pieces` | src/lib/c_compile_strategy.cpp:218-219 | the pieces between newlines: at least one, none containing a newline |
| `Text.Split` | src/lib/c_compile_strategy.cpp:218-221 | the split is empty exactly when the output is empty |
| `Text.JoinPieces` | src/lib/c_compile_strategy.cpp:218-219 | joining the pieces with newlines rebuilds the text |
| `Text.SplitJoin` | src/lib/c_compile_strategy.cpp:218-221 | no piece of the split contains a newline, and joining the pieces with newlines rebuilds the standard output |
| `Text.PiecesCount` | src/lib/c_compile_strategy.cpp:218-219 | there is one piece more than there are newlines |
| `Text.SplitOfJoin` | src/lib/c_compile_strategy.cpp:218-221 | splitting undoes joining for newline-free pieces other than the single empty piece |
| `Text.RightTrimmed` | src/lib/c_compile_strategy.cpp:225-228 | the trimmed line is a prefix of the line, only `\r`, `\n`, space and tab are removed, and it does not end in one of them |
| `Text.TrimmedUnique` | src/lib/c_compile_strategy.cpp:225-228 | those three properties determine the trimmed line |
| `Text.TrimIdempotent` | src/lib/c_compile_strategy.cpp:225-228 | trimming twice equals trimming once |
| `Text.TrimBlankSuffix` | src/lib/c_compile_strategy.cpp:225-228 | blanks appended to a line are all trimmed away |
| `Text.TrimKeepsUpToLastKept` | src/lib/c_compile_strategy.cpp:225-228 | everything up to the last non-blank character survives, leading whitespace included |
| `CCompileStrategy.Construct` | src/lib/c_compile_strategy.cpp:21-55 | construction succeeds iff the path is an existing directory and `<cc> --version` starts and exits with 0 (cc defaulting to `/bin/gcc`); an unreadable path status gives `filesystem_error` and a missing path or a non-directory gives "The path is invalid.", before the compiler is tried; a version command that cannot start gives `process_error`, and a non-zero exit gives "The compiler is invalid." |
| `CCompileStrategy.AssembleDiagnostic` | src/lib/c_compile_strategy.cpp:78-85 | the `getline` loop joined with `'\n'` gives the error stream minus one trailing newline (an empty stream gives `""`, interior empty lines are kept) |
| `CCompileStrategy.ReadFirstLine` | src/lib/c_compile_strategy.cpp:79-80 | after the first `getline` the diagnostic is the text read, minus its final newline |
| `CCompileStrategy.ReadNextLine` | src/lib/c_compile_strategy.cpp:81-85 | each further newline-and-line keeps the diagnostic equal to the text read, minus its final newline |
| `CCompileStrategy.Classify` | src/lib/c_compile_strategy.cpp:155-178 | following the branch order of the code: code in {0, 2, 3}; 0 iff the status is not OK (a timeout included); 2 iff OK and the narrowed reason code is FAILED_LIMITS; so 3 iff OK and any other reason, and never 1 |
| `CCompileStrategy.FirstFault` | src/lib/c_compile_strategy.cpp:180-186 | the iteration whose exception ends the loop: a fault with no fault before it |
| `CCompileStrategy.Executed` | src/lib/c_compile_strategy.cpp:91-186 | the number of executions a batch attempts: all of them exactly when none faults, otherwise up to and including the first fault, with no fault before it |
| `CCompileStrategy.FaultAt` | src/lib/c_compile_strategy.cpp:180-186 | a fault after fault-free executions is the last execution attempted, and its detail is the batch's only result |
| `CCompileStrategy.RunSpecNoFault` | src/lib/c_compile_strategy.cpp:92-179 | without a fault there is exactly one result per input, the i-th carrying the i-th run's classified code (0, 2 or 3), its stdout and its stderr unchanged |
| `CCompileStrategy.RunSpecFault` | src/lib/c_compile_strategy.cpp:180-186 | a fault anywhere discards all results: the batch is one result with code -2 and empty stdout |
| `CCompileStrategy.RunSpecCodes` | src/lib/c_compile_strategy.cpp:155-186 | every code of a batch is -2, 0, 2 or 3: never 1 and never the compile-error code |
| `CCompileStrategy.RunInputs` | src/lib/c_compile_strategy.cpp:90-188 | the run loop attempts, in input order, one execution per input up to and including the first fault and none after it, each running `<path>/a.out`, compiled from the source, with itself as sole argument under `LimitsFor(limitation)` with the input on its standard input; its results are exactly RunSpec of the reports those executions get |
| `CCompileStrategy.Compile` | src/lib/c_compile_strategy.cpp:57-189 | a failed compilation gives exactly `[Result(-1, "", diagnostic)]` and attempts no execution; a successful one attempts the run loop's executions of the program compiled from `src` and gives its batch |
| `CCompileStrategy.TrimRight` | src/lib/c_compile_strategy.cpp:225-228 | the `pop_back` loop leaves the right-trimmed line |
| `CCompileStrategy.Normalized` | src/lib/c_compile_strategy.cpp:218-229 | one line per piece of the split; each line is newline-free, a prefix of its piece, leaves only `\r`, `\n`, space and tab of it behind, and does not end in one of them |
| `CCompileStrategy.NormalizeOutput` | src/lib/c_compile_strategy.cpp:218-229 | split then in-place trim of every piece computes the normalised lines |
| `CCompileStrategy.NormalizedIdempotent` | src/lib/c_compile_strategy.cpp:218-229 | normalised lines are fixed by trimming; re-joining and normalising again gives them back, except for the single empty line |
| `CCompileStrategy.BlankOutput` | src/lib/c_compile_strategy.cpp:218-229 | a non-empty output made only of `\r`, `\n`, spaces and tabs normalises to empty lines, one more than it has newlines |
| `CCompileStrategy.TrailingBlanksIgnored` | src/lib/c_compile_strategy.cpp:218-229 | appending spaces, tabs and `\r` to the end of any lines leaves the normalised output unchanged |
| `CCompileStrategy.TrailingWhitespaceIgnored` | src/lib/c_compile_strategy.cpp:218-229 | `"5 \n6\t\n"` and `"5\n6\n"` both normalise to `["5", "6", ""]` |
| `CCompileStrategy.NonZeroCodesAppend` | src/lib/c_compile_strategy.cpp:209-215 | the codes pushed for a concatenation are the concatenated codes, so input order is kept |
| `CCompileStrategy.NonZeroCodesSingle` | src/lib/c_compile_strategy.cpp:211-215 | one result pushes its code if that is non-zero and nothing if it is zero |
| `CCompileStrategy.NonZeroCodesMembers` | src/lib/c_compile_strategy.cpp:209-215 | the codes pushed are exactly the non-zero codes that occur |
| `CCompileStrategy.JudgeStartsWithCompileError` | src/lib/c_compile_strategy.cpp:200-215 | the verdicts start with -1 iff some result has code -1 |
| `CCompileStrategy.JudgeOfCompileError` | src/lib/c_compile_strategy.cpp:200-215 | a compile error yields `[-1, -1]` |
| `CCompileStrategy.JudgeOfFault` | src/lib/c_compile_strategy.cpp:200-215 | a faulted batch yields `[-2]` |
| `CCompileStrategy.JudgeOfRun` | src/lib/c_compile_strategy.cpp:200-215 | after a batch without a fault the verdicts are the non-zero codes in order, each 2 or 3, with no -1 flag |
| `CCompileStrategy.Judge` | src/lib/c_compile_strategy.cpp:197-231 | the two loops push -1 once if any result is a compile error, then every non-zero code in order |
| `CCompileStrategy.CompileAndJudge` | src/lib/c_compile_strategy.cpp:191-232 | compile failure gives `[-1, -1]` and attempts no execution; otherwise the run loop's executions are attempted, a fault gives `[-2]`, and a batch without a fault gives its non-zero codes in order, each 2 or 3 |

## Left out

- The compiler run (`bp::child`, `bp::ipstream`) and the command line it is given are foreign process I/O. The compiler is a function of the source text in the model.
- CCompileStrategy.Compile: the compiler is assumed to finish. In the source, `compileCommand.wait()` (src/lib/c_compile_strategy.cpp:74) comes before the error stream is read (lines 79-85). A diagnostic larger than the pipe buffer therefore blocks the compiler on its write, and `compile` never returns while still holding the mutex. The model always returns the compile-error result instead.
- CCompileStrategy.Compile: a compile command that cannot be started would throw `process_error` out of `compile`, since that `bp::child` is outside the `try`. The model assumes it starts, because construction has already started the same compiler with `--version`.
- Writing the source to a temporary file is filesystem I/O, and is left out.
- The pipe plumbing (`pipe`, `write`, `read`, `close`, `MapFd`), the sandbox2 policy and executor, and `Run()` are foreign I/O. They are replaced by `Sandbox.Runner.Run` and the report it returns. The model assumes that writing the input and draining the outputs complete; blocking on full pipes is not modelled.
- A failed `pipe` call constructs a `runtime_error` that is never thrown. It is therefore not a source of faults in the model.
- The `std_err` text of the -2 result is left unspecified. `e.what() + '\n'` adds an offset to a pointer; it does not concatenate. The model stores the `detail` carried by the fault report and states nothing about it. The `clog` logging is output and is left out.
- The mutex and `lock_guard` serialise concurrent calls. The model is single-threaded.
- `str.back()` on an empty string is undefined behaviour. `TrimRight` stops at the empty string instead.
- The judge overload has no `return` statement, which is undefined behaviour. `Judge` returns the list its loops built.
- The `output` parameter and the `status` variable of the judge overload are unused. `CompileAndJudge` takes `expected` and ignores it.
- The class hierarchy has no behaviour to verify: the `&&` return types, the non-const `input` of the base class, and the body-less `validate()`.
- CCompileStrategy.Construct: the file-system status of the path is one `Host.stat` value, so `exists` and `is_directory` always agree about it. Separate reads that could race with a change to the file system are not modelled.
- The executor's answers come from a `Sandbox.Responder`, a fixed function of the launch, including the source its binary was compiled from, and of every earlier launch. A report cannot depend on anything else: the time, the machine's load, or a change to the file system made outside this strategy.
