/** Values shared by every component: options, bytes, exit statuses, outputs and errors. */
module Types {
  datatype Option<+T> = None | Some(value: T)

  type Byte = b: int | 0 <= b < 256

  /** A raw Unix wait status; zero is the only success. */
  datatype ExitStatus = ExitStatus(raw: int) {
    predicate Success() { raw == 0 }
  }

  datatype RunOutput = RunOutput(stdout: seq<Byte>, stderr: seq<Byte>)

  /** `RunError` without its `CmdDisplay`, which every variant carries unchanged. Only `Spawn`
      has no attempt count. */
  datatype RunError =
    | Spawn
    | NonZeroExit(status: ExitStatus, stdout: seq<Byte>, stderr: seq<Byte>, attempts: nat)
    | Timeout(elapsed: nat, stdout: seq<Byte>, stderr: seq<Byte>, attempts: nat)
    | Cancelled(stdout: seq<Byte>, stderr: seq<Byte>, attempts: nat)
  {
    function WithAttempts(n: nat): RunError {
      if Spawn? then this else this.(attempts := n)
    }

    function Attempts(): nat {
      if Spawn? then 1 else attempts
    }
  }

  datatype RunResult = Ok(output: RunOutput) | Err(error: RunError)

  /** What an attempt is held to: its timeout, and the grace period if it can be cancelled. */
  datatype Limits = Limits(timeout: Option<nat>, cancel: Option<nat>)

  /** A wait or an attempt so far: from `entry` to `now`, `overhead` of it spent in the calls themselves. */
  datatype Span = Span(entry: nat, now: nat, overhead: int)

  function Min(a: nat, b: nat): nat { if a <= b then a else b }

  /** Subtraction that stops at zero, as `saturating_sub` does. */
  function Monus(a: int, b: int): nat { if a <= b then 0 else a - b }
}
