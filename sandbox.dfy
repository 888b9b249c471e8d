/** The part of the process-isolation executor that the C compile strategy
    configures and reads back: the limits it sets on each execution and the
    report it gets for each one. The executor itself is not modelled: its
    answers come from a responder that sees every earlier launch. */
module Sandbox {
  import opened Utils

  const TWO_TO_32: int := 0x1_0000_0000
  const TWO_TO_64: int := 0x1_0000_0000_0000_0000

  /** One mebibyte: `x << 20` multiplies by this. */
  const MEBIBYTE: int := 0x10_0000

  /** `unsigned long long` / `uint64_t`. */
  type uint64 = x: int | 0 <= x < 0x1_0000_0000_0000_0000

  /** The C++ conversion of an `int` to a 64-bit unsigned value: the value
      modulo 2^64. */
  function ToUnsigned64(x: int32): (r: uint64)
    ensures (r - x as int) % TWO_TO_64 == 0
    ensures 0 <= x ==> r == x as int
  {
    if 0 <= x then x as int else x as int + TWO_TO_64
  }

  /** The narrowing of a 64-bit unsigned value into an `int`, which keeps the
      low 32 bits (two's complement). */
  function ToInt32(x: uint64): (r: int32)
    ensures (x - r as int) % TWO_TO_32 == 0
    ensures x < 0x8000_0000 ==> r as int == x
  {
    var low := x % TWO_TO_32;
    if low < 0x8000_0000 then low as int32 else (low - TWO_TO_32) as int32
  }

  /** The limits set on the executor of one execution: the address-space
      rlimit in bytes, the CPU-time rlimit in seconds and the wall-clock
      limit in seconds. */
  datatype Limits = Limits(addressSpace: uint64, cpuSeconds: uint64, wallSeconds: int)

  /** The limits derived from a `Limitation` (src/lib/c_compile_strategy.cpp:98-101):
      memory megabytes shifted left by 20 as `unsigned long long`, the time
      both as the CPU rlimit (an unsigned 64-bit value) and as a wall-clock
      duration. */
  function LimitsFor(l: Limitation): (r: Limits)
    ensures 0 <= l.memory ==> r.addressSpace == l.memory as int * MEBIBYTE
    ensures 0 <= l.memory ==> r.addressSpace % MEBIBYTE == 0 && r.addressSpace / MEBIBYTE == l.memory as int
    ensures 1 <= l.memory ==> MEBIBYTE <= r.addressSpace
    ensures l.memory < 0 ==> r.addressSpace == l.memory as int * MEBIBYTE + TWO_TO_64
    ensures (r.addressSpace - l.memory as int * MEBIBYTE) % TWO_TO_64 == 0
    ensures 0 <= l.time ==> r.cpuSeconds == l.time as int
    ensures r.wallSeconds == l.time as int
  {
    var asBytes := ToUnsigned64(l.memory) * MEBIBYTE % TWO_TO_64;
    assert (0 <= l.memory ==> asBytes == l.memory as int * MEBIBYTE)
           && (l.memory < 0 ==> asBytes == l.memory as int * MEBIBYTE + TWO_TO_64) by {
      ShiftedBytes(l.memory);
    }
    Limits(asBytes, ToUnsigned64(l.time), l.time as int)
  }

  /** The shift as `unsigned long long`: exact for a non-negative count,
      and 2^64 more than the negative product for a negative one. */
  lemma ShiftedBytes(m: int32)
    ensures 0 <= m ==> ToUnsigned64(m) * MEBIBYTE % TWO_TO_64 == m as int * MEBIBYTE
    ensures m < 0 ==> ToUnsigned64(m) * MEBIBYTE % TWO_TO_64 == m as int * MEBIBYTE + TWO_TO_64
  {
    if 0 <= m {
      MebibytesExact(m as int);
    } else {
      var b := m as int * MEBIBYTE;
      assert -TWO_TO_64 < b < 0;
      assert ToUnsigned64(m) * MEBIBYTE == (MEBIBYTE - 1) * TWO_TO_64 + (b + TWO_TO_64);
    }
  }

  /** A count of mebibytes below 2^31 fits in 64 bits once shifted, and the
      shift loses nothing. */
  lemma MebibytesExact(m: int)
    requires 0 <= m < 0x8000_0000
    ensures m * MEBIBYTE < TWO_TO_64
    ensures (m * MEBIBYTE) % TWO_TO_64 == m * MEBIBYTE
    ensures (m * MEBIBYTE) % MEBIBYTE == 0 && (m * MEBIBYTE) / MEBIBYTE == m
    ensures 1 <= m ==> MEBIBYTE <= m * MEBIBYTE
  {
  }

  /** What one iteration of the run loop is asked to do: the binary, the
      source text the compiler last wrote that binary from, its argument
      vector, its limits, and the bytes written to its standard input. */
  datatype Launch = Launch(binary: string, compiledFrom: string, args: seq<string>, limits: Limits, stdin: string)

  /** `sandbox2::Result::StatusEnum`. */
  datatype FinalStatus =
    | Unset | Ok | SetupError | Violation | Signaled | Timeout | ExternalKill | InternalError

  /** `sandbox2::Result::FAILED_LIMITS`, the reason code for a failure to
      apply the limits. Its value is sandbox2's own; this model does not fix
      it, and every property is stated in terms of the constant. */
  const FAILED_LIMITS: int32

  /** What one iteration of the run loop gets back: either a finished
      execution (final status, raw reason code, and the drained standard
      output and standard error), or a C++ exception raised inside the
      iteration, whose `detail` stands for the text the handler stores. */
  datatype Report =
    | Finished(status: FinalStatus, reasonCode: uint64, stdOut: string, stdErr: string)
    | Fault(detail: string)

  /** How the isolation facility answers: the report for a launch, given
      every launch attempted before it. Runs share one machine and one file
      system, so the same launch need not get the same report twice; the
      launch names the source its binary was compiled from, so the report
      can depend on the program run. */
  type Responder = (seq<Launch>, Launch) -> Report

  /** The process-isolation facility as the strategy uses it: each call of
      Run is one iteration's work on the executor, from building it to the
      drained output, and blocks until its report is available. `launched`
      records every launch attempted, in order. An exception anywhere in
      that iteration, even one raised before the sandboxed process exists,
      is the Fault report of that iteration's launch. */
  class Runner {
    var launched: seq<Launch>
    const respond: Responder

    constructor (respond: Responder)
      ensures this.respond == respond && launched == []
    {
      this.respond := respond;
      launched := [];
    }

    /** One attempted sandboxed execution (src/lib/c_compile_strategy.cpp:94-153). */
    method Run(launch: Launch) returns (report: Report)
      modifies this
      ensures launched == old(launched) + [launch]
      ensures report == respond(old(launched), launch)
    {
      report := respond(launched, launch);
      launched := launched + [launch];
    }
  }

  /** The reports a responder gives to the launches `ls` made one after
      another, after the launches `before`. */
  function Responses(respond: Responder, before: seq<Launch>, ls: seq<Launch>): (rs: seq<Report>)
    ensures |rs| == |ls|
    decreases |ls|
  {
    if ls == [] then [] else [respond(before, ls[0])] + Responses(respond, before + [ls[0]], ls[1..])
  }

  /** The i-th report is the answer to the i-th launch, given everything
      launched before it. */
  lemma {:induction false} ResponsesAt(respond: Responder, before: seq<Launch>, ls: seq<Launch>, i: nat)
    requires i < |ls|
    ensures Responses(respond, before, ls)[i] == respond(before + ls[..i], ls[i])
    decreases i
  {
    if 0 < i {
      var after := before + [ls[0]];
      ResponsesAt(respond, after, ls[1..], i - 1);
      assert Responses(respond, before, ls)[i] == Responses(respond, after, ls[1..])[i - 1];
      assert after + ls[1..][..i - 1] == before + ls[..i];
      assert ls[1..][i - 1] == ls[i];
    } else {
      assert before + ls[..0] == before;
    }
  }
}
