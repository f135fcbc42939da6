/** The drive/stop sequencer: execMotorAdapter, motorAndStop and the effect
    of Accept. Each run of the adapter process is an event in a trace; what
    the process does is answered by an oracle, indexed by how many adapter
    runs came before. */
module Sequencer {
  import opened Errors
  import opened Commands
  import Decimal

  /** The deadline each adapter run gets (`context.WithTimeout(ctx, 5s)`). */
  const AdapterTimeout: int := 5 * Second

  datatype Event =
    | AdapterCall(program: string, args: seq<string>, timeout: int, outcome: RunOutcome)
    | Sleep(duration: int)

  /** The events one step appends, and what it returns. */
  datatype Run = Run(events: seq<Event>, status: Status)

  /** The stop call's arguments, written literally rather than with `%.2f`. */
  const StopArgs: seq<string> := ["motor1:0.0", "motor2:0.0"]

  /** The drive call's arguments: each channel's throttle with `%.2f`. */
  function DriveArgs(t: Throttle): (args: seq<string>)
    ensures |args| == 2
    ensures args[0] == "motor1:" + Decimal.FormatCents(t.motor1)
    ensures args[1] == "motor2:" + Decimal.FormatCents(t.motor2)
    ensures args != StopArgs
  {
    var a := ["motor1:" + Decimal.FormatCents(t.motor1), "motor2:" + Decimal.FormatCents(t.motor2)];
    assert |a[0]| >= 11 > |StopArgs[0]|;
    a
  }

  /** An adapter run that set the motors moving: it succeeded and did not
      carry the stop arguments. */
  predicate StartsMotors(e: Event) {
    e.AdapterCall? && e.outcome == Exited(0) && e.args != StopArgs
  }

  /** The ordering property of the sequencer: every run that started the
      motors is followed by a sleep and then by a run with the stop
      arguments. It says nothing about how that stop run ended. */
  predicate StopFollowsStart(t: seq<Event>) {
    forall i :: 0 <= i < |t| && StartsMotors(t[i]) ==>
      i + 2 < |t| && t[i + 1].Sleep? && t[i + 2].AdapterCall? && t[i + 2].args == StopArgs
  }

  /** Two traces in which a stop run follows every start still have that
      property when joined. */
  lemma StopFollowsStartAppend(a: seq<Event>, b: seq<Event>)
    requires StopFollowsStart(a) && StopFollowsStart(b)
    ensures StopFollowsStart(a + b)
  {
    var t := a + b;
    forall i | 0 <= i < |t| && StartsMotors(t[i])
      ensures i + 2 < |t| && t[i + 1].Sleep? && t[i + 2].AdapterCall? && t[i + 2].args == StopArgs
    {
      if i < |a| {
        assert t[i] == a[i];
        assert t[i + 1] == a[i + 1] && t[i + 2] == a[i + 2];
      } else {
        assert t[i] == b[i - |a|];
        assert t[i + 1] == b[i - |a| + 1] && t[i + 2] == b[i - |a| + 2];
      }
    }
  }

  /** How many adapter runs a trace records. */
  function Runs(t: seq<Event>): (k: nat)
    ensures k <= |t|
  {
    if t == [] then 0 else (if t[0].AdapterCall? then 1 else 0) + Runs(t[1..])
  }

  /** The runs of a joined trace are the runs of its parts. */
  lemma {:induction false} RunsAppend(a: seq<Event>, b: seq<Event>)
    ensures Runs(a + b) == Runs(a) + Runs(b)
    decreases |a|
  {
    if a != [] {
      assert (a + b)[0] == a[0];
      assert (a + b)[1..] == a[1..] + b;
      RunsAppend(a[1..], b);
    } else {
      assert a + b == b;
    }
  }

  /** execMotorAdapter: with no adapter configured, fail without running
      anything; otherwise run the adapter once, under the per-run deadline,
      and fail, wrapping how it ended, unless it exited with status 0. */
  function Exec(adapter: string, outcome: RunOutcome, args: seq<string>): (r: Run)
    ensures adapter == "" <==> r.events == []
    ensures adapter == "" ==> r.status == Err(AdapterNotConfigured)
    ensures adapter != "" ==> r.events == [AdapterCall(adapter, args, AdapterTimeout, outcome)]
    ensures r.status == Ok <==> adapter != "" && outcome == Exited(0)
    ensures r.status.Err? && adapter != "" ==> r.status.error == AdapterFailed(outcome)
    ensures Runs(r.events) == |r.events|
  {
    if adapter == "" then Run([], Err(AdapterNotConfigured))
    else
      var call := AdapterCall(adapter, args, AdapterTimeout, outcome);
      if outcome == Exited(0) then Run([call], Ok) else Run([call], Err(AdapterFailed(outcome)))
  }

  /** motorAndStop, starting after `n` earlier adapter runs: the drive run,
      then (only if it succeeded) the sleep and the stop run. */
  function DriveStop(adapter: string, oracle: nat -> RunOutcome, n: nat, t: Throttle, d: int): (r: Run)
    ensures r.status == Ok <==> adapter != "" && oracle(n) == Exited(0) && oracle(n + 1) == Exited(0)
    ensures adapter == "" ==> r == Run([], Err(AdapterNotConfigured))
    ensures adapter != "" && oracle(n) != Exited(0) ==>
              r == Run([AdapterCall(adapter, DriveArgs(t), AdapterTimeout, oracle(n))], Err(AdapterFailed(oracle(n))))
    ensures adapter != "" && oracle(n) == Exited(0) ==> r.events == [
              AdapterCall(adapter, DriveArgs(t), AdapterTimeout, Exited(0)),
              Sleep(d),
              AdapterCall(adapter, StopArgs, AdapterTimeout, oracle(n + 1))]
    ensures adapter != "" && oracle(n) == Exited(0) && oracle(n + 1) != Exited(0) ==>
              r.status == Err(AdapterFailed(oracle(n + 1)))
    ensures Sleep(d) in r.events <==> adapter != "" && oracle(n) == Exited(0)
    ensures Runs(r.events) == if adapter == "" then 0 else if oracle(n) != Exited(0) then 1 else 2
    ensures StopFollowsStart(r.events)
  {
    var drive := Exec(adapter, oracle(n), DriveArgs(t));
    if drive.status.Err? then
      assert adapter != "" ==> !StartsMotors(drive.events[0]);
      drive
    else
      var stop := Exec(adapter, oracle(n + 1), StopArgs);
      var events := drive.events + [Sleep(d)] + stop.events;
      assert events[0] == drive.events[0] && events[1] == Sleep(d) && events[2] == stop.events[0];
      assert events[1..] == [Sleep(d)] + stop.events && events[2..] == stop.events;
      Run(events, stop.status)
  }

  /** The `%.2f` texts of the throttles the verbs use. */
  lemma ThrottleTexts()
    ensures Decimal.FormatCents(-75) == "-0.75"
    ensures Decimal.FormatCents(75) == "0.75"
    ensures Decimal.FormatCents(-100) == "-1.00"
  {
    assert Decimal.FormatNat(0) == "0";
    assert Decimal.FormatNat(1) == "1";
  }

  /** The adapter arguments each motion verb drives with. */
  lemma VerbArguments()
    ensures DriveArgs(Throttles(Fwd)) == ["motor1:-0.75", "motor2:-0.75"]
    ensures DriveArgs(Throttles(Ffwd)) == ["motor1:-1.00", "motor2:-1.00"]
    ensures DriveArgs(Throttles(Bck)) == ["motor1:0.75", "motor2:0.75"]
    ensures DriveArgs(Throttles(Rt)) == ["motor1:-0.75", "motor2:0.75"]
    ensures DriveArgs(Throttles(Lt)) == ["motor1:0.75", "motor2:-0.75"]
  {
    ThrottleTexts();
    assert "motor1:" + "-0.75" == "motor1:-0.75" && "motor2:" + "-0.75" == "motor2:-0.75";
    assert "motor1:" + "0.75" == "motor1:0.75" && "motor2:" + "0.75" == "motor2:0.75";
    assert "motor1:" + "-1.00" == "motor1:-1.00" && "motor2:" + "-1.00" == "motor2:-1.00";
  }

  /** The stop arguments are not in the two-decimal form of the drive
      arguments: "0.0" does not read back as a `%.2f` throttle. */
  lemma StopArgsNotTwoDecimal()
    ensures Decimal.ParseCents(StopArgs[0][7..]).None?
    ensures Decimal.ParseCents(StopArgs[1][7..]).None?
  {
    assert StopArgs[0][7..] == "0.0";
    assert StopArgs[1][7..] == "0.0";
  }

  /** A failed stop run and a failed drive run that ended the same way
      return equal errors, so the status alone does not say whether the
      motors were started. */
  lemma StopFailureLooksLikeDriveFailure(adapter: string, t: Throttle, d: int, o: RunOutcome)
    requires adapter != "" && o != Exited(0)
    ensures DriveStop(adapter, _ => o, 0, t, d).status
         == DriveStop(adapter, k => if k == 0 then Exited(0) else o, 0, t, d).status
         == Err(AdapterFailed(o))
  {
  }

  /** The interpreter with its adapter configuration, its outcome oracle and
      the trace of what it has done. */
  class MotorDriver {
    /** The value of YAKAPI_ADAPTER_MOTOR ("" when unset). */
    const adapter: string
    /** How the adapter's k-th run (from 0) ends. */
    const oracle: nat -> RunOutcome
    /** Adapter runs so far: the index of the next oracle answer. */
    var calls: nat
    var trace: seq<Event>

    /** Between commands, a stop run follows every start of the motors, and
        `calls` is the number of adapter runs in the trace. */
    ghost predicate Valid()
      reads this
    {
      StopFollowsStart(trace) && calls == Runs(trace)
    }

    constructor (adapter: string, oracle: nat -> RunOutcome)
      ensures Valid()
      ensures this.adapter == adapter && this.oracle == oracle
      ensures trace == [] && calls == 0
    {
      this.adapter := adapter;
      this.oracle := oracle;
      calls := 0;
      trace := [];
    }

    /** execMotorAdapter(ctx, args): one adapter run. It is a step of
        MotorAndStop, not an operation a command performs on its own: a
        successful drive run by itself leaves the motors running, so it
        neither needs nor keeps Valid(). */
    method ExecMotorAdapter(args: seq<string>) returns (st: Status)
      modifies this
      ensures var r := Exec(adapter, oracle(old(calls)), args);
              trace == old(trace) + r.events && st == r.status && calls == old(calls) + |r.events|
    {
      if adapter == "" {
        return Err(AdapterNotConfigured);
      }
      var outcome := oracle(calls);
      var call := AdapterCall(adapter, args, AdapterTimeout, outcome);
      trace := trace + [call];
      calls := calls + 1;
      if outcome != Exited(0) {
        return Err(AdapterFailed(outcome));
      }
      return Ok;
    }

    /** motorAndStop(ctx, throttle1, throttle2, d). */
    method MotorAndStop(t: Throttle, d: int) returns (st: Status)
      requires Valid()
      modifies this
      ensures Valid()
      ensures var r := DriveStop(adapter, oracle, old(calls), t, d);
              trace == old(trace) + r.events && st == r.status && calls == old(calls) + Runs(r.events)
    {
      ghost var before := trace;
      ghost var drive := Exec(adapter, oracle(calls), DriveArgs(t));
      st := ExecMotorAdapter(DriveArgs(t));
      if st.Err? {
        assert StopFollowsStart(trace) by {
          StopFollowsStartAppend(before, drive.events);
        }
        RunsAppend(before, drive.events);
        return;
      }
      assert calls == old(calls) + 1;
      trace := trace + [Sleep(d)];
      ghost var mid := trace;
      ghost var stop := Exec(adapter, oracle(calls), StopArgs);
      st := ExecMotorAdapter(StopArgs);
      ghost var r := DriveStop(adapter, oracle, old(calls), t, d);
      assert trace == before + r.events by {
        assert r.events == drive.events + [Sleep(d)] + stop.events;
      }
      assert StopFollowsStart(trace) by {
        StopFollowsStartAppend(before, r.events);
      }
      RunsAppend(before, r.events);
    }

    /** Accept(ctx, cmd): decide, then run the drive/stop sequence for a
        motion command. Nothing else touches the adapter. */
    method Accept(cmd: string) returns (o: Outcome)
      requires Valid()
      modifies this
      ensures Valid()
      ensures match Interpret(cmd)
              case Pong => o == Returned(Ok) && trace == old(trace) && calls == old(calls)
              case Reject(e) => o == Returned(Err(e)) && trace == old(trace) && calls == old(calls)
              case IndexPanic => o == Panicked && trace == old(trace) && calls == old(calls)
              case Drive(p) =>
                var r := DriveStop(adapter, oracle, old(calls), p.throttle, p.duration);
                o == Returned(r.status) && trace == old(trace) + r.events
                && calls == old(calls) + Runs(r.events)
    {
      match Interpret(cmd)
      case Pong => o := Returned(Ok);
      case Reject(e) => o := Returned(Err(e));
      case IndexPanic => o := Panicked;
      case Drive(p) =>
        var st := MotorAndStop(p.throttle, p.duration);
        o := Returned(st);
    }
  }
}
