/** The errors the command interpreter returns, one constructor per distinct
    `errors.New` / `fmt.Errorf` in the interpreter, and the ways one run of the
    motor adapter process can end. */
module Errors {
  import Decimal

  /** How `cmd.Run()` on the adapter process ended. `Exited(0)` is the only
      success; `Killed` is what the per-call 5 second deadline produces. */
  datatype RunOutcome = Exited(code: int) | NotStarted | Killed

  datatype Error =
    | EmptyCommand                     // "empty command"
    | UnknownCommand                   // "unknown command"
    | InvalidArguments                 // "invalid arguments"
    | BadNumber(numError: Decimal.NumError)  // "failed to parse duration: %w"
    | AdapterNotConfigured             // "motor adapter not configured"
    | AdapterFailed(run: RunOutcome) // "failed running motor adapter: %w"

  /** A Go `error` result: nil or an error. */
  datatype Status = Ok | Err(error: Error)

  /** What a call of Accept does: return (nil or an error) or panic. */
  datatype Outcome = Returned(status: Status) | Panicked
}
