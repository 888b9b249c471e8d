/** The C compile strategy (src/lib/c_compile_strategy.cpp): construction,
    compile-and-run, and compile-and-judge.

    The compiler and the process-isolation executor are outside the model.
    The compiler is a function from the source text to its exit code and
    error stream; the executor is a Sandbox.Runner, which records every
    execution attempted and answers each one with a report that may depend
    on the executions before it. Everything the strategy does with what
    they return is modelled. */
module CCompileStrategy {
  import opened Utils
  import opened Sandbox
  import opened Text

  // ---------------------------------------------------------------------
  // Construction (src/lib/c_compile_strategy.cpp:21-55)
  // ---------------------------------------------------------------------

  /** A constructed strategy: its working directory and its compiler. */
  datatype Strategy = Strategy(path: string, cc: string)

  /** The compiler used when none is given (src/include/c_compile_strategy.h:11). */
  const DEFAULT_CC: string := "/bin/gcc"

  /** What the file system says about a path: nothing there, a directory,
      something other than a directory, or an error other than "not found"
      while reading its status. */
  datatype PathKind = Missing | Directory | OtherFile | Unreadable

  /** What construction consults: the status of a path, and the exit code of
      a shell command, or `None` when the command cannot be started. */
  datatype Host = Host(stat: string -> PathKind, exitCodeOf: string -> Option<int>)

  /** A constructor yields a strategy or throws: `std::invalid_argument` for
      a rejected path or compiler, `boost::filesystem::filesystem_error`
      when the path's status cannot be read, `boost::process::process_error`
      when the version command cannot be started. */
  datatype Construction =
    | Constructed(strategy: Strategy)
    | InvalidArgument(message: string)
    | FilesystemError(path: string)
    | ProcessError(command: string)

  /** The compiler a constructor keeps: the one given, or the default. */
  function CompilerOf(cc: Option<string>): string
  {
    if cc.Some? then cc.value else DEFAULT_CC
  }

  /** Both constructors: the working directory must exist and be a directory,
      and `<cc> --version` must start and exit with 0. `cc` is `None` for
      the constructor that keeps the default compiler. */
  function Construct(path: string, cc: Option<string>, host: Host): (c: Construction)
    ensures c.Constructed? <==>
              host.stat(path) == Directory && host.exitCodeOf(CompilerOf(cc) + " --version") == Some(0)
    ensures c.Constructed? ==> c.strategy == Strategy(path, CompilerOf(cc))
    ensures host.stat(path) == Unreadable <==> c.FilesystemError?
    ensures host.stat(path) == Unreadable ==> c.path == path
    ensures host.stat(path) in {Missing, OtherFile} <==> c == InvalidArgument("The path is invalid.")
    ensures c.ProcessError? <==>
              host.stat(path) == Directory && host.exitCodeOf(CompilerOf(cc) + " --version") == None
    ensures c.ProcessError? ==> c.command == CompilerOf(cc) + " --version"
    ensures c == InvalidArgument("The compiler is invalid.") <==>
              host.stat(path) == Directory && host.exitCodeOf(CompilerOf(cc) + " --version").Some?
              && host.exitCodeOf(CompilerOf(cc) + " --version").value != 0
  {
    var command := CompilerOf(cc) + " --version";
    match host.stat(path)
    case Unreadable => FilesystemError(path)
    case Missing => InvalidArgument("The path is invalid.")
    case OtherFile => InvalidArgument("The path is invalid.")
    case Directory =>
      match host.exitCodeOf(command)
      case None => ProcessError(command)
      case Some(code) =>
        if code != 0 then InvalidArgument("The compiler is invalid.") else Constructed(Strategy(path, CompilerOf(cc)))
  }

  // ---------------------------------------------------------------------
  // The compiler diagnostic (src/lib/c_compile_strategy.cpp:76-87)
  // ---------------------------------------------------------------------

  /** What running the compiler on a source text gives back: its exit code
      and the text of its error stream (its standard output is discarded). */
  datatype CompilerRun = CompilerRun(exitCode: int, stdErr: string)

  /** Reads the compiler's error stream with `getline` and joins the lines
      with `'\n'`: one `getline` whose line is appended as is, then a newline
      and the next line for every further `getline` that succeeds. The
      result is the stream's text minus one trailing newline; interior
      empty lines are kept, and an empty stream gives the empty text. */
  method AssembleDiagnostic(stream: string) returns (err: string)
    ensures err == DropFinalNewline(stream)
  {
    var pos: nat := 0;
    err := "";
    var tmp := "";
    var got := GetLine(stream, pos);
    if got.Some? {
      var next := got.value.1;
      tmp := got.value.0;
      ReadFirstLine(stream, tmp, next);
      pos := next;
    }
    err := err + tmp;
    got := GetLine(stream, pos);
    while got.Some?
      invariant pos <= |stream|
      invariant got == GetLine(stream, pos)
      invariant pos == 0 ==> stream == []
      invariant 0 < pos < |stream| ==> stream[pos - 1] == '\n'
      invariant err == DropFinalNewline(stream[..pos])
      decreases |stream| - pos
    {
      var next := got.value.1;
      tmp := got.value.0;
      ReadNextLine(stream, pos, tmp, next);
      err := err + "\n";
      err := err + tmp;
      pos := next;
      got := GetLine(stream, pos);
    }
    assert stream[..pos] == stream;
  }

  /** The first line read: the text read so far, minus its final newline. */
  lemma ReadFirstLine(stream: string, line: string, next: nat)
    requires 0 < |stream|
    requires GetLine(stream, 0) == Some((line, next))
    ensures 0 < next <= |stream|
    ensures next < |stream| ==> stream[next - 1] == '\n'
    ensures line == DropFinalNewline(stream[..next])
  {
    GetLineReads(stream, 0);
    assert stream[0..next] == stream[..next];
    if stream[..next] == line + "\n" {
      assert stream[next - 1] == stream[..next][next - 1];
    } else {
      assert line != [] && line[|line| - 1] != '\n';
    }
  }

  /** Every further line appended after a newline keeps the diagnostic
      equal to the text read so far, minus its final newline. */
  lemma ReadNextLine(stream: string, pos: nat, line: string, next: nat)
    requires 0 < pos < |stream| && stream[pos - 1] == '\n'
    requires GetLine(stream, pos) == Some((line, next))
    ensures next < |stream| ==> stream[next - 1] == '\n'
    ensures DropFinalNewline(stream[..pos]) + "\n" + line == DropFinalNewline(stream[..next])
  {
    GetLineReads(stream, pos);
    var read := stream[..pos];
    assert read[|read| - 1] == '\n';
    assert DropFinalNewline(read) + "\n" == read;
    assert stream[..next] == read + stream[pos..next];
    if stream[pos..next] == line + "\n" {
      assert stream[..next] == (read + line) + "\n";
      assert stream[next - 1] == stream[pos..next][next - 1 - pos];
    } else {
      assert line != [] && line[|line| - 1] != '\n';
      assert stream[..next] == read + line;
    }
  }

  // ---------------------------------------------------------------------
  // The run loop and the classification (src/lib/c_compile_strategy.cpp:90-188)
  // ---------------------------------------------------------------------

  /** Where the compiled program is written and run from. */
  function Binary(s: Strategy): string
  {
    s.path + "/a.out"
  }

  /** The execution of one input: the binary just compiled from `src`,
      with itself as its only argument, under the limits derived from the
      limitation, with the input on its standard input. */
  function LaunchFor(s: Strategy, src: string, input: string, limitation: Limitation): (launch: Launch)
    ensures launch.stdin == input && launch.limits == LimitsFor(limitation)
    ensures launch.args == [launch.binary] && launch.compiledFrom == src
  {
    Launch(Binary(s), src, [Binary(s)], LimitsFor(limitation), input)
  }

  /** The executions of every input, in input order. */
  function Launches(s: Strategy, src: string, inputs: seq<string>, limitation: Limitation): (ls: seq<Launch>)
    ensures |ls| == |inputs|
  {
    seq(|inputs|, i requires 0 <= i < |inputs| => LaunchFor(s, src, inputs[i], limitation))
  }

  /** The reports a run of every input would get, one after another, from
      a runner that has already seen the launches `before`. */
  function BatchReports(respond: Responder, before: seq<Launch>, s: Strategy, src: string,
                        inputs: seq<string>, limitation: Limitation): (rs: seq<Report>)
    ensures |rs| == |inputs|
  {
    Responses(respond, before, Launches(s, src, inputs, limitation))
  }

  /** The code the run loop gives a finished execution
      (src/lib/c_compile_strategy.cpp:155-178). The branches test the final
      status against OK first, so every status other than OK gives 0 and
      the TIMEOUT test inside the OK branch can never succeed: a timed-out
      execution gets 0, not the timeout code the comment at
      src/include/utils.h:14 describes, and code 1 is never produced. An OK
      execution gives 2 when its reason code, narrowed to `int`, is
      FAILED_LIMITS, and 3 otherwise (for an OK status the reason code is
      the program's exit code). */
  function Classify(status: FinalStatus, reasonCode: uint64): (code: int)
    ensures code == 0 || code == 2 || code == 3
    ensures code == 0 <==> status != Ok
    ensures code == 2 <==> status == Ok && ToInt32(reasonCode) == FAILED_LIMITS
  {
    if status != Ok then 0
    else if status == Timeout then 1
    else if ToInt32(reasonCode) == FAILED_LIMITS then 2
    else 3
  }

  /** The result recorded for a finished execution: its output and error
      streams unchanged, under the code 0, 2 or 3 its report classifies to. */
  function Outcome(r: Report): (result: Result)
    requires r.Finished?
    ensures result.stdOut == r.stdOut && result.stdErr == r.stdErr
    ensures result.code == Classify(r.status, r.reasonCode)
    ensures result.code in {0, 2, 3}
  {
    Result(Classify(r.status, r.reasonCode), r.stdOut, r.stdErr)
  }

  /** No iteration raised an exception. */
  predicate NoFault(rs: seq<Report>)
  {
    forall i :: 0 <= i < |rs| ==> rs[i].Finished?
  }

  /** The iteration whose exception ends the loop. */
  function FirstFault(rs: seq<Report>): (k: nat)
    requires !NoFault(rs)
    ensures k < |rs| && rs[k].Fault?
    ensures forall i :: 0 <= i < k ==> rs[i].Finished?
  {
    if rs[0].Fault? then 0
    else
      assert !NoFault(rs[1..]) by {
        var j :| 0 <= j < |rs| && rs[j].Fault?;
        assert rs[1..][j - 1] == rs[j];
      }
      var k := FirstFault(rs[1..]);
      assert forall i :: 1 <= i < k + 1 ==> rs[i] == rs[1..][i - 1];
      k + 1
  }

  /** How many executions a batch attempts: all of them without a fault,
      else every execution up to and including the first that faults. */
  function Executed(rs: seq<Report>): (n: nat)
    ensures n <= |rs|
    ensures forall i :: 0 <= i < n - 1 ==> rs[i].Finished?
    ensures NoFault(rs) <==> n == |rs| && (n == 0 || rs[n - 1].Finished?)
    ensures !NoFault(rs) ==> 0 < n && rs[n - 1].Fault?
  {
    if NoFault(rs) then |rs| else FirstFault(rs) + 1
  }

  /** The results of a batch, described input by input from the front: a
      faulting execution replaces everything with one fault result, and an
      execution before a fault leaves no trace. */
  function RunSpec(rs: seq<Report>): seq<Result>
  {
    if rs == [] then []
    else if rs[0].Fault? then [Result(SANDBOX_FAULT, "", rs[0].detail)]
    else if NoFault(rs[1..]) then [Outcome(rs[0])] + RunSpec(rs[1..])
    else RunSpec(rs[1..])
  }

  /** Without a fault there is exactly one result per execution, in order,
      carrying that execution's code, standard output and standard error. */
  lemma {:induction false} RunSpecNoFault(rs: seq<Report>)
    requires NoFault(rs)
    ensures |RunSpec(rs)| == |rs|
    ensures forall i :: 0 <= i < |rs| ==> RunSpec(rs)[i] == Outcome(rs[i])
  {
    if rs != [] {
      assert NoFault(rs[1..]) by {
        forall i | 0 <= i < |rs| - 1 ensures rs[1..][i].Finished? { assert rs[1..][i] == rs[i + 1]; }
      }
      RunSpecNoFault(rs[1..]);
      forall i | 1 <= i < |rs| ensures RunSpec(rs)[i] == Outcome(rs[i]) {
        assert rs[1..][i - 1] == rs[i];
      }
    }
  }

  /** A fault in any execution discards every other result: the batch is
      one fault result with empty standard output. */
  lemma {:induction false} RunSpecFault(rs: seq<Report>)
    requires !NoFault(rs)
    ensures RunSpec(rs) == [Result(SANDBOX_FAULT, "", rs[FirstFault(rs)].detail)]
  {
    if rs[0].Finished? {
      assert !NoFault(rs[1..]) && FirstFault(rs) == FirstFault(rs[1..]) + 1;
      assert rs[FirstFault(rs)] == rs[1..][FirstFault(rs[1..])];
      RunSpecFault(rs[1..]);
    }
  }

  /** Every code in a batch's results is a fault code or one the
      classification gives, never the compile-error code and never 1. */
  lemma RunSpecCodes(rs: seq<Report>)
    ensures forall r :: r in RunSpec(rs) ==> r.code in {SANDBOX_FAULT, 0, 2, 3}
  {
    if NoFault(rs) {
      RunSpecNoFault(rs);
      forall r | r in RunSpec(rs) ensures r.code in {SANDBOX_FAULT, 0, 2, 3} {
        var i :| 0 <= i < |RunSpec(rs)| && RunSpec(rs)[i] == r;
        assert r == Outcome(rs[i]);
      }
    } else {
      RunSpecFault(rs);
    }
  }

  /** The loop over the inputs: one sandboxed execution per input, in
      input order, each under the limits derived from `limitation`; an
      exception inside any iteration clears the results, leaves one fault
      result and attempts no further execution. */
  method RunInputs(s: Strategy, src: string, inputs: seq<string>, limitation: Limitation, runner: Runner)
    returns (results: seq<Result>)
    modifies runner
    ensures var rs := BatchReports(runner.respond, old(runner.launched), s, src, inputs, limitation);
            results == RunSpec(rs)
            && runner.launched == old(runner.launched) + Launches(s, src, inputs, limitation)[..Executed(rs)]
  {
    ghost var before := runner.launched;
    ghost var ls := Launches(s, src, inputs, limitation);
    ghost var rs := BatchReports(runner.respond, before, s, src, inputs, limitation);
    results := [];
    var i := 0;
    while i < |inputs|
      invariant 0 <= i <= |inputs|
      invariant runner.launched == before + ls[..i]
      invariant OutcomesOf(results, rs[..i])
    {
      ResponsesAt(runner.respond, before, ls, i);
      var report := runner.Run(LaunchFor(s, src, inputs[i], limitation));
      assert report == rs[i];
      LaunchedStep(before, ls, i);
      match report {
        case Fault(detail) =>
          // The exception leaves the loop for the handler, which clears the
          // results, records one fault result and returns.
          results := [];
          results := results + [Result(SANDBOX_FAULT, "", detail)];
          FaultAt(rs, i);
          return;
        case Finished(status, rawReason, stdOut, stdErr) =>
          // Each branch of the source appends a result with its own code.
          var code: int;
          if status != Ok {
            code := 0;
          } else {
            if status == Timeout {
              code := 1;
            } else {
              var reasonCode: int32 := ToInt32(rawReason);
              if reasonCode == FAILED_LIMITS {
                code := 2;
              } else {
                code := 3;
              }
            }
          }
          assert Result(code, stdOut, stdErr) == Outcome(rs[i]);
          OutcomesStep(results, rs, i);
          results := results + [Result(code, stdOut, stdErr)];
      }
      i := i + 1;
    }
    assert rs[..i] == rs && ls[..i] == ls;
    RunSpecNoFault(rs);
  }

  /** One more launch extends the record by that launch. */
  lemma LaunchedStep(before: seq<Launch>, ls: seq<Launch>, i: nat)
    requires i < |ls|
    ensures before + ls[..i] + [ls[i]] == before + ls[..i + 1]
  {
    assert ls[..i + 1] == ls[..i] + [ls[i]];
  }

  /** The results recorded for reports without a fault: one each, in order. */
  predicate OutcomesOf(results: seq<Result>, rs: seq<Report>)
  {
    NoFault(rs) && |results| == |rs| && forall j :: 0 <= j < |rs| ==> results[j] == Outcome(rs[j])
  }

  /** A finished execution adds its outcome to the results. */
  lemma OutcomesStep(results: seq<Result>, rs: seq<Report>, i: nat)
    requires i < |rs| && OutcomesOf(results, rs[..i]) && rs[i].Finished?
    ensures OutcomesOf(results + [Outcome(rs[i])], rs[..i + 1])
  {
    var next := rs[..i + 1];
    assert forall j :: 0 <= j < i ==> next[j] == rs[..i][j];
  }

  /** The first fault ends the batch: it is the last execution attempted and
      its detail is the batch's only result. */
  lemma FaultAt(rs: seq<Report>, i: nat)
    requires i < |rs| && NoFault(rs[..i]) && rs[i].Fault?
    ensures !NoFault(rs) && Executed(rs) == i + 1
    ensures RunSpec(rs) == [Result(SANDBOX_FAULT, "", rs[i].detail)]
  {
    assert forall j :: 0 <= j < i ==> rs[j] == rs[..i][j];
    assert FirstFault(rs) == i;
    RunSpecFault(rs);
  }

  // ---------------------------------------------------------------------
  // Compile and run (src/lib/c_compile_strategy.cpp:57-189)
  // ---------------------------------------------------------------------

  /** The first `compile` overload. A failed compilation gives one
      compile-error result carrying the assembled diagnostic and attempts no
      execution; a successful one gives the results of the run loop. */
  method Compile(s: Strategy, src: string, inputs: seq<string>, limitation: Limitation,
                 compiler: string -> CompilerRun, runner: Runner)
    returns (results: seq<Result>)
    modifies runner
    ensures compiler(src).exitCode != 0 ==>
              results == [Result(COMPILE_ERROR, "", DropFinalNewline(compiler(src).stdErr))]
              && runner.launched == old(runner.launched)
    ensures compiler(src).exitCode == 0 ==>
              var rs := BatchReports(runner.respond, old(runner.launched), s, src, inputs, limitation);
              results == RunSpec(rs)
              && runner.launched == old(runner.launched) + Launches(s, src, inputs, limitation)[..Executed(rs)]
  {
    var run := compiler(src);
    results := [];
    if run.exitCode != 0 {
      var err := AssembleDiagnostic(run.stdErr);
      results := results + [Result(COMPILE_ERROR, "", err)];
      return;
    }
    results := RunInputs(s, src, inputs, limitation, runner);
  }

  // ---------------------------------------------------------------------
  // Output normalisation (src/lib/c_compile_strategy.cpp:218-229)
  // ---------------------------------------------------------------------

  /** The `while (...) str.pop_back();` loop on one line. The source reads
      `str.back()` without checking for an empty string, which is undefined
      behaviour once every character has been removed; the model stops at
      the empty string. */
  method TrimRight(line: string) returns (str: string)
    ensures str == RightTrimmed(line)
  {
    str := line;
    while |str| > 0 && Trimmable(str[|str| - 1])
      invariant RightTrimmed(str) == RightTrimmed(line)
    {
      str := str[..|str| - 1];
    }
  }

  /** A program output normalised: one line per piece of its split, the
      piece up to its last character that is not trimmable. A line has no
      newline, is a prefix of its piece, leaves only trimmable characters of
      it behind and does not end in one (by TrimmedUnique these facts fix
      each line). */
  function Normalized(stdOut: string): (lines: seq<string>)
    ensures |lines| == |Split(stdOut)|
    ensures forall k :: 0 <= k < |lines| ==> '\n' !in lines[k]
    ensures forall k :: 0 <= k < |lines| ==>
              |lines[k]| <= |Split(stdOut)[k]| && lines[k] == Split(stdOut)[k][..|lines[k]|]
    ensures forall k, i :: 0 <= k < |lines| && |lines[k]| <= i < |Split(stdOut)[k]| ==>
              Trimmable(Split(stdOut)[k][i])
    ensures forall k :: 0 <= k < |lines| ==> lines[k] == [] || !Trimmable(lines[k][|lines[k]| - 1])
  {
    var ps := Split(stdOut);
    var lines := seq(|ps|, k requires 0 <= k < |ps| => RightTrimmed(ps[k]));
    assert forall k :: 0 <= k < |lines| ==> '\n' !in lines[k] by {
      SplitJoin(stdOut);
      forall k | 0 <= k < |lines| ensures '\n' !in lines[k] {
        TrimKeepsNoNewline(ps[k]);
      }
    }
    lines
  }

  /** The split of a standard output followed by the in-place trim of every piece. */
  method NormalizeOutput(stdOut: string) returns (lines: seq<string>)
    ensures lines == Normalized(stdOut)
  {
    lines := Split(stdOut);
    var k := 0;
    while k < |lines|
      invariant 0 <= k <= |lines| == |Split(stdOut)|
      invariant forall j :: 0 <= j < k ==> lines[j] == RightTrimmed(Split(stdOut)[j])
      invariant forall j :: k <= j < |lines| ==> lines[j] == Split(stdOut)[j]
    {
      var str := TrimRight(lines[k]);
      lines := lines[k := str];
      k := k + 1;
    }
  }

  /** Normalisation is idempotent: trimming a normalised line again changes
      nothing, and a normalised output other than the single empty line
      comes back unchanged from being joined with newlines and normalised
      again. */
  lemma NormalizedIdempotent(stdOut: string)
    ensures forall k :: 0 <= k < |Normalized(stdOut)| ==> RightTrimmed(Normalized(stdOut)[k]) == Normalized(stdOut)[k]
    ensures Normalized(stdOut) != [""] ==> Normalized(Join(Normalized(stdOut))) == Normalized(stdOut)
  {
    var lines := Normalized(stdOut);
    forall k | 0 <= k < |lines| ensures RightTrimmed(lines[k]) == lines[k] {
      TrimIdempotent(Split(stdOut)[k]);
    }
    if lines != [""] {
      SplitOfJoin(lines);
      var again := Normalized(Join(lines));
      assert |again| == |lines|;
      forall k | 0 <= k < |lines| ensures again[k] == lines[k] {
        assert again[k] == RightTrimmed(lines[k]);
      }
    }
  }

  /** An output made only of blanks and newlines normalises to empty lines,
      one more than it has newlines. */
  lemma BlankOutput(stdOut: string)
    requires stdOut != [] && forall i :: 0 <= i < |stdOut| ==> Trimmable(stdOut[i])
    ensures |Normalized(stdOut)| == multiset(stdOut)['\n'] + 1
    ensures forall k :: 0 <= k < |Normalized(stdOut)| ==> Normalized(stdOut)[k] == ""
  {
    PiecesCount(stdOut);
    var lines := Normalized(stdOut);
    forall k | 0 <= k < |lines| ensures lines[k] == "" {
      var piece := Split(stdOut)[k];
      if lines[k] != "" {
        var c := lines[k][|lines[k]| - 1];
        assert c == piece[|lines[k]| - 1];
        PiecesChars(stdOut, k, c);
      }
    }
  }

  /** Trailing blanks do not matter: giving every line of an output any
      run of spaces, tabs and carriage returns at its end leaves the
      normalised output as it was. */
  lemma TrailingBlanksIgnored(ps: seq<string>, blanks: seq<string>)
    requires |blanks| == |ps| && ps != [""]
    requires forall k :: 0 <= k < |ps| ==> '\n' !in ps[k]
    requires forall k, i :: 0 <= k < |blanks| && 0 <= i < |blanks[k]| ==>
               Trimmable(blanks[k][i]) && blanks[k][i] != '\n'
    ensures Normalized(Join(seq(|ps|, k requires 0 <= k < |ps| => ps[k] + blanks[k]))) == Normalized(Join(ps))
  {
    var qs := seq(|ps|, k requires 0 <= k < |ps| => ps[k] + blanks[k]);
    forall k | 0 <= k < |qs| ensures '\n' !in qs[k] {
      forall i | 0 <= i < |qs[k]| ensures qs[k][i] != '\n' {
        if i < |ps[k]| { assert qs[k][i] == ps[k][i]; } else { assert qs[k][i] == blanks[k][i - |ps[k]|]; }
      }
    }
    assert qs != [""] by {
      if |ps| == 1 {
        assert ps == [ps[0]];
        assert |qs[0]| == |ps[0]| + |blanks[0]|;
      }
    }
    SplitOfJoin(qs);
    SplitOfJoin(ps);
    var a, b := Normalized(Join(qs)), Normalized(Join(ps));
    forall k | 0 <= k < |ps| ensures a[k] == b[k] {
      TrimBlankSuffix(ps[k], blanks[k]);
      TrimmedUnique(qs[k], a[k]);
      TrimmedUnique(ps[k], b[k]);
    }
  }

  /** For example, the output `"5 \n6\t\n"` normalises like `"5\n6\n"`, to
      the lines "5", "6" and a final empty line. */
  lemma TrailingWhitespaceIgnored()
    ensures Normalized("5 \n6\t\n") == Normalized("5\n6\n") == ["5", "6", ""]
  {
    NormalizedOfPieces("5 \n6\t\n", ["5 ", "6\t", ""]);
    NormalizedOfPieces("5\n6\n", ["5", "6", ""]);
    TrimOneBlank("5", ' ');
    TrimOneBlank("6", '\t');
    assert "5" + [' '] == "5 ";
    assert "6" + ['\t'] == "6\t";
  }

  /** The normalisation of the text made of three given lines. */
  lemma NormalizedOfPieces(stdOut: string, ps: seq<string>)
    requires |ps| == 3 && '\n' !in ps[0] && '\n' !in ps[1] && '\n' !in ps[2]
    requires stdOut == ps[0] + "\n" + ps[1] + "\n" + ps[2]
    ensures Normalized(stdOut) == [RightTrimmed(ps[0]), RightTrimmed(ps[1]), RightTrimmed(ps[2])]
  {
    assert Join(ps) == stdOut by {
      JoinCons(ps[1], [ps[2]]);
      JoinCons(ps[0], [ps[1], ps[2]]);
      assert ps == [ps[0]] + [ps[1], ps[2]];
    }
    SplitOfJoin(ps);
  }

  // ---------------------------------------------------------------------
  // Compile and judge (src/lib/c_compile_strategy.cpp:191-232)
  // ---------------------------------------------------------------------

  /** Some result is a compile error. */
  predicate HasCompileError(res: seq<Result>)
  {
    exists i :: 0 <= i < |res| && res[i].code == COMPILE_ERROR
  }

  /** The non-zero codes of the results, in order. */
  function NonZeroCodes(res: seq<Result>): seq<int>
  {
    if res == [] then []
    else NonZeroCodes(res[..|res| - 1]) + (if res[|res| - 1].code != 0 then [res[|res| - 1].code] else [])
  }

  /** The verdict list the judge loops push: a compile-error code if any
      result is a compile error, then every non-zero code in order. */
  function JudgeSpec(res: seq<Result>): seq<int>
  {
    (if HasCompileError(res) then [COMPILE_ERROR] else []) + NonZeroCodes(res)
  }

  /** NonZeroCodes is determined by two facts: the codes of a concatenation
      are the concatenated codes, so order is kept (this lemma), and a
      single result contributes its code if that is non-zero and nothing
      otherwise (NonZeroCodesSingle). */
  lemma {:induction false} NonZeroCodesAppend(a: seq<Result>, b: seq<Result>)
    ensures NonZeroCodes(a + b) == NonZeroCodes(a) + NonZeroCodes(b)
    decreases |b|
  {
    if b == [] {
      assert a + b == a;
    } else {
      NonZeroCodesAppend(a, b[..|b| - 1]);
      assert (a + b)[..|a + b| - 1] == a + b[..|b| - 1];
    }
  }

  lemma NonZeroCodesSingle(r: Result)
    ensures NonZeroCodes([r]) == if r.code != 0 then [r.code] else []
  {
    assert [r][..0] == [];
  }

  /** The codes pushed are exactly the non-zero codes that occur. */
  lemma {:induction false} NonZeroCodesMembers(res: seq<Result>, x: int)
    ensures x in NonZeroCodes(res) <==> x != 0 && exists i :: 0 <= i < |res| && res[i].code == x
    decreases |res|
  {
    if res != [] {
      var init := res[..|res| - 1];
      NonZeroCodesMembers(init, x);
      if x != 0 && exists i :: 0 <= i < |res| && res[i].code == x {
        var i :| 0 <= i < |res| && res[i].code == x;
        if i < |res| - 1 { assert init[i] == res[i]; }
      }
      if exists i :: 0 <= i < |init| && init[i].code == x {
        var i :| 0 <= i < |init| && init[i].code == x;
        assert res[i] == init[i];
      }
    }
  }

  /** The verdicts start with the compile-error code exactly when some
      result is a compile error. */
  lemma JudgeStartsWithCompileError(res: seq<Result>)
    ensures (|JudgeSpec(res)| > 0 && JudgeSpec(res)[0] == COMPILE_ERROR) <==> HasCompileError(res)
  {
    if !HasCompileError(res) && |NonZeroCodes(res)| > 0 {
      NonZeroCodesMembers(res, NonZeroCodes(res)[0]);
    }
  }

  /** A compile error is reported twice: once for the flag, once as the
      result's non-zero code. */
  lemma JudgeOfCompileError(err: string)
    ensures JudgeSpec([Result(COMPILE_ERROR, "", err)]) == [COMPILE_ERROR, COMPILE_ERROR]
  {
    var res := [Result(COMPILE_ERROR, "", err)];
    assert res[0].code == COMPILE_ERROR;
    NonZeroCodesSingle(res[0]);
  }

  /** After a fault the verdicts are the single fault code. */
  lemma JudgeOfFault(detail: string)
    ensures JudgeSpec([Result(SANDBOX_FAULT, "", detail)]) == [SANDBOX_FAULT]
  {
    NonZeroCodesSingle(Result(SANDBOX_FAULT, "", detail));
  }

  /** After a batch without a fault the verdicts are the codes of the OK
      executions, in order, each 2 or 3; the other executions push nothing. */
  lemma JudgeOfRun(rs: seq<Report>)
    requires NoFault(rs)
    ensures JudgeSpec(RunSpec(rs)) == NonZeroCodes(RunSpec(rs))
    ensures forall v :: v in JudgeSpec(RunSpec(rs)) ==> v == 2 || v == 3
  {
    var res := RunSpec(rs);
    RunSpecNoFault(rs);
    assert !HasCompileError(res) by {
      forall i | 0 <= i < |res| ensures res[i].code != COMPILE_ERROR {
        assert res[i] == Outcome(rs[i]);
      }
    }
    forall v | v in NonZeroCodes(res) ensures v == 2 || v == 3 {
      NonZeroCodesMembers(res, v);
      var i :| 0 <= i < |res| && res[i].code == v;
      assert res[i] == Outcome(rs[i]);
    }
  }

  /** The two loops of the second `compile` overload over the results of
      the first. The first loop pushes the compile-error code once and
      stops at the first compile error; the second pushes every non-zero
      code and, for a zero code, splits and trims the standard output and
      then drops what it computed. The source falls off the end of the
      function without returning (undefined behaviour); the model returns
      the list the loops built. */
  method Judge(res: seq<Result>) returns (verdicts: seq<int>)
    ensures verdicts == JudgeSpec(res)
  {
    verdicts := [];
    var j := 0;
    while j < |res|
      invariant 0 <= j <= |res|
      invariant forall k :: 0 <= k < j ==> res[k].code != COMPILE_ERROR
      invariant verdicts == []
    {
      if res[j].code == COMPILE_ERROR {
        verdicts := verdicts + [COMPILE_ERROR];
        break;
      }
      j := j + 1;
    }
    assert verdicts == if HasCompileError(res) then [COMPILE_ERROR] else [];
    ghost var flag := verdicts;
    var i := 0;
    while i < |res|
      invariant 0 <= i <= |res|
      invariant verdicts == flag + NonZeroCodes(res[..i])
    {
      assert res[..i + 1][..i] == res[..i];
      if res[i].code != 0 {
        verdicts := verdicts + [res[i].code];
      } else {
        var lines := NormalizeOutput(res[i].stdOut);
      }
      i := i + 1;
    }
    assert res[..i] == res;
  }

  /** The second `compile` overload: compile and run, then build the
      verdict list. The expected outputs are never read. */
  method CompileAndJudge(s: Strategy, src: string, inputs: seq<string>, expected: seq<string>,
                         limitation: Limitation, compiler: string -> CompilerRun, runner: Runner)
    returns (verdicts: seq<int>)
    modifies runner
    ensures compiler(src).exitCode != 0 ==>
              verdicts == [COMPILE_ERROR, COMPILE_ERROR] && runner.launched == old(runner.launched)
    ensures compiler(src).exitCode == 0 ==>
              var rs := BatchReports(runner.respond, old(runner.launched), s, src, inputs, limitation);
              runner.launched == old(runner.launched) + Launches(s, src, inputs, limitation)[..Executed(rs)]
              && (!NoFault(rs) ==> verdicts == [SANDBOX_FAULT])
              && (NoFault(rs) ==> verdicts == NonZeroCodes(RunSpec(rs)) && forall v :: v in verdicts ==> v == 2 || v == 3)
  {
    ghost var rs := BatchReports(runner.respond, runner.launched, s, src, inputs, limitation);
    var res := Compile(s, src, inputs, limitation, compiler, runner);
    verdicts := Judge(res);
    if compiler(src).exitCode != 0 {
      JudgeOfCompileError(DropFinalNewline(compiler(src).stdErr));
    } else if !NoFault(rs) {
      RunSpecFault(rs);
      JudgeOfFault(rs[FirstFault(rs)].detail);
    } else {
      JudgeOfRun(rs);
    }
  }
}
