/** The pure part of the motor command interpreter: splitting a command into
    fields, dispatching on the verb, checking the argument count, parsing the
    argument and choosing the throttle pair and the duration. Durations are
    Go `time.Duration` values: int64 nanoseconds. Throttles are whole
    hundredths (-75 is -0.75). */
module Commands {
  import opened Results
  import opened Int64
  import opened Errors
  import Decimal
  import Strings

  const Millisecond: int := 1_000_000
  const Second: int := 1_000_000_000

  /** spinDurationSecs: seconds of turning per QuarterTurn degrees. */
  const SpinSeconds: int := 2
  const QuarterTurn: int := 90

  /** The five verbs that move the motors. */
  datatype Verb = Fwd | Ffwd | Bck | Lt | Rt {
    /** lt and rt take an angle; the others take a count of 10 ms units. */
    predicate IsTurn() {
      Lt? || Rt?
    }
  }

  /** Throttles for motor1 and motor2, in hundredths. */
  datatype Throttle = Throttle(motor1: int, motor2: int)

  /** What a well-formed motion command asks the sequencer to do. */
  datatype Plan = Plan(throttle: Throttle, duration: int)

  /** What Accept decides before any adapter call: answer ping, reject the
      command, drive the motors by a plan, or index an empty field list. */
  datatype Decision = Pong | Reject(error: Error) | Drive(plan: Plan) | IndexPanic

  function Name(v: Verb): (s: string)
    ensures Strings.IsWord(s) && s != "ping"
    ensures VerbOf(s) == Some(v)
  {
    match v
    case Fwd => "fwd"
    case Ffwd => "ffwd"
    case Bck => "bck"
    case Lt => "lt"
    case Rt => "rt"
  }

  /** The verb a first field names, if any. */
  function VerbOf(tok: string): (r: Option<Verb>)
    ensures r.Some? <==> tok in {"fwd", "ffwd", "bck", "lt", "rt"}
  {
    if tok == "fwd" then Some(Fwd)
    else if tok == "ffwd" then Some(Ffwd)
    else if tok == "bck" then Some(Bck)
    else if tok == "lt" then Some(Lt)
    else if tok == "rt" then Some(Rt)
    else None
  }

  /** The turning time of an angle in whole seconds: SpinSeconds per
      QuarterTurn degrees, truncated toward zero as Go's float-to-Duration
      conversion truncates. */
  function SpinTime(n: int): (secs: int)
    ensures n >= 0 ==> 0 <= secs && QuarterTurn * secs <= SpinSeconds * n < QuarterTurn * (secs + 1)
    ensures n < 0 ==> secs <= 0 && QuarterTurn * (secs - 1) < SpinSeconds * n <= QuarterTurn * secs
  {
    var a := SpinSeconds * n;
    if a >= 0 then a / QuarterTurn else -((-a) / QuarterTurn)
  }

  /** The reference meaning of a motion command's argument `n`: `n` units of
      10 ms for fwd, ffwd and bck; for lt and rt, SpinSeconds per QuarterTurn
      degrees of angle, truncated toward zero to whole seconds. Either is
      kept modulo 2^64, as an int64 Duration keeps it. */
  function Duration(v: Verb, n: int): (d: int)
    ensures InRange(d)
    ensures !v.IsTurn() && InRange(n * 10 * Millisecond) ==> d == n * 10 * Millisecond
    ensures v.IsTurn() && InRange(SpinTime(n) * Second) ==> d == SpinTime(n) * Second
  {
    if v.IsTurn() then Wrap(SpinTime(n) * Second)
    else Wrap(n * 10 * Millisecond)
  }

  /** parseDurationArg: ParseInt in base 10, then
      `time.Duration(n) * time.Millisecond * 10` in int64 arithmetic. */
  function ParseDurationArg(arg: string): (r: Result<int, Error>)
    ensures r.Success? <==> Decimal.ParseInt64(arg).Success?
    ensures r.Failure? ==> r.error == BadNumber(Decimal.ParseInt64(arg).error)
    ensures r.Success? ==> r.value == Duration(Fwd, Decimal.ParseInt64(arg).value)
  {
    match Decimal.ParseInt64(arg)
    case Failure(e) => Failure(BadNumber(e))
    case Success(n) =>
      MulThenWrap(n * Millisecond, 10);
      Success(Mul(Mul(n, Millisecond), 10))
  }

  /** parseAngleArg: ParseInt in base 10, then the spin time in whole
      seconds times `time.Second` in int64 arithmetic. */
  function ParseAngleArg(arg: string): (r: Result<int, Error>)
    ensures r.Success? <==> Decimal.ParseInt64(arg).Success?
    ensures r.Failure? ==> r.error == BadNumber(Decimal.ParseInt64(arg).error)
    ensures r.Success? ==> r.value == Duration(Lt, Decimal.ParseInt64(arg).value)
  {
    match Decimal.ParseInt64(arg)
    case Failure(e) => Failure(BadNumber(e))
    case Success(n) =>
      Success(Mul(SpinTime(n), Second))
  }

  /** The fixed throttle pair of each verb. */
  function Throttles(v: Verb): (t: Throttle)
    ensures -100 <= t.motor1 <= 100 && -100 <= t.motor2 <= 100
    ensures t.motor1 != 0 && t.motor2 != 0
    ensures v.IsTurn() <==> t.motor1 == -t.motor2
    ensures !v.IsTurn() <==> t.motor1 == t.motor2
  {
    match v
    case Fwd => Throttle(-75, -75)
    case Ffwd => Throttle(-100, -100)
    case Bck => Throttle(75, 75)
    case Rt => Throttle(-75, 75)
    case Lt => Throttle(75, -75)
  }

  /** doFwd, doFfwd, doBck, doRT, doLT up to the motorAndStop call: exactly
      one argument, which must parse, then the verb's throttle pair and the
      duration of its argument. */
  function Prepare(v: Verb, args: seq<string>): (r: Result<Plan, Error>)
    ensures |args| != 1 ==> r == Failure(InvalidArguments)
    ensures |args| == 1 ==> (r.Success? <==> Decimal.ParseInt64(args[0]).Success?)
    ensures |args| == 1 && r.Failure? ==> r.error == BadNumber(Decimal.ParseInt64(args[0]).error)
    ensures r.Success? ==> r.value == Plan(Throttles(v), Duration(v, Decimal.ParseInt64(args[0]).value))
  {
    if |args| != 1 then Failure(InvalidArguments)
    else
      var d := if v.IsTurn() then ParseAngleArg(args[0]) else ParseDurationArg(args[0]);
      match d
      case Failure(e) => Failure(e)
      case Success(dur) => Success(Plan(Throttles(v), dur))
  }

  /** Accept up to the motorAndStop call: "" is rejected, a command of white
      space only indexes an empty field list, "ping" answers whatever
      follows it, one of the five verbs is prepared from the remaining
      fields, and anything else is unknown. */
  function Interpret(cmd: string): (r: Decision)
    ensures r == Reject(EmptyCommand) <==> cmd == ""
    ensures r == IndexPanic <==> cmd != "" && Strings.Blank(cmd)
    ensures r == Pong <==> cmd != "" && Strings.Fields(cmd) != [] && Strings.Fields(cmd)[0] == "ping"
    ensures r == Reject(UnknownCommand) <==>
              cmd != "" && Strings.Fields(cmd) != [] && Strings.Fields(cmd)[0] != "ping"
              && VerbOf(Strings.Fields(cmd)[0]).None?
    ensures r == Reject(InvalidArguments) <==>
              cmd != "" && Strings.Fields(cmd) != [] && VerbOf(Strings.Fields(cmd)[0]).Some?
              && |Strings.Fields(cmd)| != 2
    ensures r.Drive? ==>
              |Strings.Fields(cmd)| == 2 && VerbOf(Strings.Fields(cmd)[0]).Some?
              && r.plan.throttle == Throttles(VerbOf(Strings.Fields(cmd)[0]).value)
    ensures cmd != "" && |Strings.Fields(cmd)| == 2 && VerbOf(Strings.Fields(cmd)[0]).Some? ==>
              var v, n := VerbOf(Strings.Fields(cmd)[0]).value, Decimal.ParseInt64(Strings.Fields(cmd)[1]);
              (r.Drive? <==> n.Success?)
              && (n.Success? ==> r == Drive(Plan(Throttles(v), Duration(v, n.value))))
              && (n.Failure? ==> r == Reject(BadNumber(n.error)))
    ensures r.Reject? ==> !r.error.AdapterNotConfigured? && !r.error.AdapterFailed?
  {
    if cmd == "" then Reject(EmptyCommand)
    else
      var f := Strings.Fields(cmd);
      Strings.FieldsEmptyIffBlank(cmd);
      if f == [] then IndexPanic
      else if f[0] == "ping" then Pong
      else
        match VerbOf(f[0])
        case None => Reject(UnknownCommand)
        case Some(v) =>
          match Prepare(v, f[1..])
          case Failure(e) => Reject(e)
          case Success(p) => Drive(p)
  }
}
