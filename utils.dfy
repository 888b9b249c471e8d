/** Value types shared by every compile strategy (src/include/utils.h). */
module Utils {

  datatype Option<T> = None | Some(value: T)

  /** A C++ `int`: 32-bit two's complement. */
  newtype int32 = x: int | -0x8000_0000 <= x < 0x8000_0000

  /** Resource ceilings of one execution: `time` in seconds, `memory` in megabytes. */
  datatype Limitation = Limitation(time: int32, memory: int32)

  /** The outcome of one execution.
      Codes the C compile strategy produces: -1 compile error, -2 sandbox fault,
      0, 2 and 3 from the classification of the executor's report (see
      CCompileStrategy.Classify for how that differs from the documented meaning). */
  datatype Result = Result(code: int, stdOut: string, stdErr: string)

  /** The C compile strategy's code for a failed compilation. */
  const COMPILE_ERROR: int := -1

  /** The C compile strategy's code for a fault raised inside the run loop. */
  const SANDBOX_FAULT: int := -2
}
