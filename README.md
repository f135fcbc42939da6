# yakapi motor command interpreter, modelled in Dafny

This project models the motor command interpreter of yakapi
(`internal/ci/ci.go`). A robot takes short text commands. `ping` answers.
`fwd`, `ffwd` and `bck` take a count of 10 ms units. `lt` and `rt` take an
angle. A motion command becomes one run of the motor adapter program with
two `motorN:<throttle>` arguments. Then the interpreter sleeps for the
command's duration. Then it runs the adapter again with stop arguments.

The model has two halves:

- **Decision logic, as functions.** `Commands.Interpret` models `Accept` up to
  the point where it would move the motors. It splits the command into fields
  (`Strings.Fields`, Go's `strings.Fields`) and dispatches on the verb.
  `Commands.Prepare` models the five `do*` functions up to their
  `motorAndStop` call: it checks the argument count, parses the argument
  (`Decimal.ParseInt64`, Go's `strconv.ParseInt(s, 10, 64)`) and picks the
  throttle pair and the duration.
- **The drive/stop sequence, as a class.** `Sequencer.MotorDriver` holds the
  adapter name, an oracle that says how each adapter run ends, and a trace of
  events. Each adapter run is an `AdapterCall` event that records the program,
  its arguments, its 5 second deadline and its outcome. Each pause is a
  `Sleep` event. `ExecMotorAdapter`, `MotorAndStop` and `Accept` append to the
  trace. Each is proved against a specification function (`Exec`,
  `DriveStop`, `Interpret`). The class invariant says two things.
  `StopFollowsStart` says that every adapter run that started the motors is
  followed by a sleep and a stop run, however that stop run ends. `calls`,
  the index of the next oracle answer, equals the number of adapter runs in
  the trace (`Runs`).

Numbers are integers throughout:

- Throttles are whole hundredths: `-75` is `-0.75`. `Decimal.FormatCents` is
  `%.2f` on such values.
- Durations are Go `time.Duration` values, in int64 nanoseconds. `Millisecond`
  and `Second` are the Go constants. Go's int64 multiplication wraps modulo
  2^64, and the model writes that wrap out (`Int64.Wrap`, `Int64.Mul`).
- The turning time `time.Duration(2.0*(float64(n)/90.0)) * time.Second`
  truncates to whole seconds before it multiplies by a second.
  `Commands.SpinTime` is that truncation toward zero, in integer arithmetic.

The code behaves as follows in cases where one might expect otherwise, and
the model follows the code:

- The stop run's arguments are the literal `motor1:0.0` and `motor2:0.0`, not
  the two-decimal `0.00` form (`Sequencer.StopArgsNotTwoDecimal`).
- A failed stop run returns the same wrapped error as a failed drive run. There
  is no separate "partial actuation" error
  (`Sequencer.StopFailureLooksLikeDriveFailure`).
- Negative arguments parse and are used. There is no non-negativity check.
- A non-numeric argument gives the parse error "failed to parse duration",
  not "invalid arguments". This holds for angles too.
- A command of white space only is not rejected. It indexes an empty field
  list, which panics in Go (`Decision.IndexPanic`, `Outcome.Panicked`).
- A run killed at its deadline is an ordinary adapter failure. There is no
  separate timeout error.
- Angles are truncated to whole seconds: 30 degrees give 0 s and 60 degrees
  give 1 s.
- The sleep cannot be interrupted, and nothing runs the stop call on
  cancellation.

## Model

| member | source | states |
|---|---|---|
| `Int64.Wrap` | internal/ci/ci.go:44 | the int64 kept of any integer is in range, and is the integer itself when that is in range |
| `Int64.Mul` | internal/ci/ci.go:44 | Go's int64 product is in range and exact whenever the true product fits |
| `Int64.WrapShift` | internal/ci/ci.go:44 | adding any multiple of 2^64 does not change the int64 that is kept |
| `Int64.MulThenWrap` | internal/ci/ci.go:44 | wrapping `n * Millisecond` and then multiplying by 10 gives the same result as wrapping `n * 10 * Millisecond` once |
| `Decimal.FormatNat` | internal/ci/ci.go:39 | decimal text is non-empty, all digits, has no leading zero, and denotes the number |
| `Decimal.ParseInt64` | internal/ci/ci.go:39 | a successful parse is an int64; a failure names the whole input text |
| `Decimal.ParseInt64Meaning` | internal/ci/ci.go:39 | ParseInt succeeds exactly on an optional sign followed by digits whose value is an int64, and it returns that value; a well-formed literal outside int64 is a range error |
| `Decimal.ParseFormatInt` | internal/ci/ci.go:39 | parsing the decimal text of any int64 gives that int64 back |
| `Decimal.FormatCents` | internal/ci/ci.go:175-176 | `%.2f` text ends in a point and two digits, and starts with `-` exactly when the value is negative |
| `Decimal.ParseFormatCents` | internal/ci/ci.go:175-176 | reading `%.2f` text back gives the same number of hundredths, so no throttle loses information |
| `Strings.Fields` | internal/ci/ci.go:19 | every field is non-empty and contains no white space |
| `Strings.FieldsEmptyIffBlank` | internal/ci/ci.go:15-20 | a command has no fields exactly when it is all white space |
| `Strings.FieldsSkipsBlank` | internal/ci/ci.go:19 | white space in front of a text adds no field |
| `Strings.FieldsWordThenSpace` | internal/ci/ci.go:19 | a word that ends the text or is followed by white space is the next field, followed by the fields of the rest; with `FieldsSkipsBlank` this fixes the fields of every text |
| `Strings.FieldsOfJoined` | internal/ci/ci.go:19 | splitting words joined by single spaces gives the same words back |
| `Commands.Name` | internal/ci/ci.go:20-32 | each verb's name is one field, is not `ping`, and dispatches back to that verb |
| `Commands.VerbOf` | internal/ci/ci.go:20-35 | a first field selects a motion verb exactly when it is one of `fwd`, `ffwd`, `bck`, `lt`, `rt` |
| `Commands.SpinTime` | internal/ci/ci.go:55 | the turning time in seconds is 2·n/90 truncated toward zero, as bounds above and below for each sign of n |
| `Commands.Duration` | internal/ci/ci.go:44-55 | a duration is an int64; it is exactly n × 10 ms for fwd, ffwd and bck, and exactly SpinTime(n) seconds for lt and rt, whenever that fits |
| `Commands.ParseDurationArg` | internal/ci/ci.go:38-47 | it succeeds exactly when ParseInt does, wraps a parse failure, and gives n × 10 ms with int64 wrap-around |
| `Commands.ParseAngleArg` | internal/ci/ci.go:49-57 | it succeeds exactly when ParseInt does, wraps a parse failure with the same message, and gives the truncated turning time in seconds |
| `Commands.Throttles` | internal/ci/ci.go:69-143 | every throttle is non-zero and within [-1.00, 1.00]; lt and rt drive the two channels with opposite throttles, and fwd, ffwd and bck drive both with the same throttle |
| `Commands.Prepare` | internal/ci/ci.go:59-149 | an argument count other than one is "invalid arguments" before any parsing; otherwise the command succeeds exactly when its argument parses, and yields the verb's throttles and the argument's duration |
| `Commands.Interpret` | internal/ci/ci.go:14-36 | "" is the empty-command error; white space only panics; `ping` answers; an unknown first field is "unknown command"; a motion verb without exactly one argument is "invalid arguments"; a motion verb with exactly one argument drives exactly when that argument parses, with the verb's throttles and the argument's duration, and otherwise returns that parse error; no decision is an adapter error |
| `CommandFacts.CommandLine` | internal/ci/ci.go:19-32 | `<verb> <n>` for any int64 n drives with the verb's throttles for the duration n means |
| `CommandFacts.PingIgnoresRest` | internal/ci/ci.go:21-22 | `ping` followed by any fields succeeds |
| `CommandFacts.WrongArity` | internal/ci/ci.go:60-62 | a motion verb followed by zero or two or more fields is "invalid arguments" |
| `CommandFacts.UnknownVerb` | internal/ci/ci.go:33-34 | a first field that is neither `ping` nor a motion verb is "unknown command", whatever follows |
| `CommandFacts.BadArgument` | internal/ci/ci.go:64-67 | a single argument that is not base-10 int64 text is a parse error naming that argument |
| `CommandFacts.MirroredVerbs` | internal/ci/ci.go:69-143 | bck is fwd negated on both channels, lt is rt negated, and ffwd goes the same way as fwd at full throttle |
| `CommandFacts.SpinScales` | internal/ci/ci.go:55 | k quarter turns take k × 2 s |
| `CommandFacts.SpinExamples` | internal/ci/ci.go:55 | 90 gives 2 s, 180 gives 4 s, 45 gives 1 s, 30 gives 0 s, -90 gives -2 s |
| `CommandFacts.LongDurationWraps` | internal/ci/ci.go:44 | `fwd 1000000000000` wraps to a negative duration |
| `CommandFacts.FieldsOfTwoWords` | internal/ci/ci.go:19 | two words joined by one space split back into those two words |
| `CommandFacts.VerbWithArgument` | internal/ci/ci.go:19-32 | `<verb> <a>` for any argument text that parses drives with the verb's throttles for the duration that text means |
| `CommandFacts.FieldsOfPaddedWords` | internal/ci/ci.go:19 | two words with any white space before, between and after them split into exactly those two words |
| `CommandFacts.PaddingIgnored` | internal/ci/ci.go:19-32 | tabs, repeated spaces and leading or trailing white space around a motion verb and its argument do not change the decision |
| `CommandFacts.ForwardFifty` | internal/ci/ci.go:59-75 | `fwd 50` drives at (-0.75, -0.75) for 500 ms |
| `CommandFacts.RightHalfTurn` | internal/ci/ci.go:115-131 | `rt 180` drives at (-0.75, 0.75) for 4 s |
| `CommandFacts.SpinIsUnknown` | internal/ci/ci.go:33-34 | `spin 1` is "unknown command" |
| `CommandFacts.ForwardWithoutArgument` | internal/ci/ci.go:59-62 | `fwd` alone is "invalid arguments" |
| `CommandFacts.BlankCommandPanics` | internal/ci/ci.go:15-20 | a command of spaces and a tab passes the empty check and panics on the empty field list |
| `Sequencer.DriveArgs` | internal/ci/ci.go:173-176 | the drive arguments are `motor1:` and `motor2:` followed by each throttle's `%.2f` text, and never equal the stop arguments |
| `Sequencer.Exec` | internal/ci/ci.go:151-170 | with no adapter configured, nothing runs and the error is "motor adapter not configured"; otherwise exactly one run happens with the 5 s deadline, and it succeeds exactly when the process exits with status 0 |
| `Sequencer.DriveStop` | internal/ci/ci.go:172-190 | success means both runs exited 0; a failed drive run returns its error with no sleep and no stop run; after a successful drive run the trace is exactly drive run, sleep, stop run, and a failed stop run returns its own error; 0, 1 or 2 adapter runs happen (unconfigured, failed drive, otherwise); every run that started the motors is followed by a sleep and a stop run |
| `Sequencer.RunsAppend` | internal/ci/ci.go:151-190 | the adapter runs of a joined trace are the runs of its two parts |
| `Sequencer.StopFollowsStartAppend` | internal/ci/ci.go:172-190 | joining two traces in which a stop run follows every start gives a trace in which one does too |
| `Sequencer.VerbArguments` | internal/ci/ci.go:69-143 | the adapter arguments of fwd, ffwd, bck, rt and lt are `-0.75`/`-0.75`, `-1.00`/`-1.00`, `0.75`/`0.75`, `-0.75`/`0.75` and `0.75`/`-0.75` |
| `Sequencer.StopArgsNotTwoDecimal` | internal/ci/ci.go:184 | the stop argument `0.0` is not in the two-decimal throttle form |
| `Sequencer.StopFailureLooksLikeDriveFailure` | internal/ci/ci.go:177-187 | a failed stop run and a failed drive run that end the same way return the same error |
| `Sequencer.MotorDriver.constructor` | internal/ci/ci.go:152 | a new interpreter has the given adapter name and oracle and an empty trace |
| `Sequencer.MotorDriver.ExecMotorAdapter` | internal/ci/ci.go:151-170 | the trace grows by exactly the events of `Exec` for the next oracle answer, and the result is its status |
| `Sequencer.MotorDriver.MotorAndStop` | internal/ci/ci.go:172-190 | the trace grows by exactly the events of `DriveStop`, the result is its status, the run count grows by its adapter runs, and every run that started the motors is still followed by a sleep and a stop run |
| `Sequencer.MotorDriver.Accept` | internal/ci/ci.go:14-36 | ping, a rejected command and a panic leave the trace and the run count unchanged; a motion command runs `DriveStop` for its plan, returns its status and advances the run count by its adapter runs |

## Left out

- The HTTP server, JSON replies, metrics, logging, identity lookup and asset
  serving (`main.go`, `internal/mw/mw.go`): these are transport and plumbing
  around the interpreter.
- The script-running adapter protocol. `main.go:129` calls `ci.Accept` with
  an adapter name and a request body, but `internal/ci/ci.go` has no such
  function. Its implementation is not part of this model.
- Running processes: the oracle answers how each run ends (`Exited(code)`,
  `NotStarted`, `Killed`). The adapter's standard output and standard error
  are not modelled.
- The 5 second deadline: each run records it as its `timeout`, and a run that
  exceeds it is the oracle answer `Killed`. Time is not modelled, and the
  sleep has no deadline.
- Reading `YAKAPI_ADAPTER_MOTOR`: the value is fixed when a `MotorDriver` is
  constructed. A change to the environment between two runs is not modelled.
- The caller's context: cancellation is not modelled, because the code never
  checks it except through the per-run deadline.
- The `fmt.Printf` of the sleep length at `internal/ci/ci.go:181`: it is
  output only.
- A Go panic unwinds the stack. Here it is the value `Panicked`.
- Go strings are bytes. Here commands are sequences of Unicode scalar values,
  so invalid UTF-8 is not modelled.
- Commands.ParseAngleArg: the angle arithmetic uses exact integers, while Go
  uses float64. The two agree for |n| ≤ 2^53. For larger angles the rounding
  of `float64(n)` is not modelled.
