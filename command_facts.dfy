/** What Accept's decision logic promises, stated over whole command lines. */
module CommandFacts {
  import opened Results
  import opened Int64
  import opened Errors
  import opened Commands
  import Decimal
  import Strings

  /** The text of an integer is one field: it holds no white space. */
  lemma FormatIntIsWord(n: int)
    ensures Strings.IsWord(Decimal.FormatInt(n))
  {
    var s := Decimal.FormatInt(n);
    var m := Decimal.FormatNat(if n < 0 then -n else n);
    forall i | 0 <= i < |s| ensures !Strings.IsSpace(s[i]) {
      if n < 0 && i > 0 {
        assert s[i] == m[i - 1];
      }
    }
  }

  /** `<verb> <n>` for any int64 `n` drives with the verb's throttle pair for
      the duration its argument means. */
  lemma CommandLine(v: Verb, n: int)
    requires InRange(n)
    ensures Interpret(Strings.JoinSpaced([Name(v), Decimal.FormatInt(n)]))
         == Drive(Plan(Throttles(v), Duration(v, n)))
  {
    var ws := [Name(v), Decimal.FormatInt(n)];
    FormatIntIsWord(n);
    Strings.FieldsOfJoined(ws);
    assert ws[1..] == [Decimal.FormatInt(n)];
    Decimal.ParseFormatInt(n);
  }

  /** `ping` succeeds whatever fields follow it. */
  lemma PingIgnoresRest(rest: seq<string>)
    requires forall i :: 0 <= i < |rest| ==> Strings.IsWord(rest[i])
    ensures Interpret(Strings.JoinSpaced(["ping"] + rest)) == Pong
  {
    var ws := ["ping"] + rest;
    assert forall i :: 0 <= i < |ws| ==> Strings.IsWord(ws[i]);
    Strings.FieldsOfJoined(ws);
  }

  /** A motion verb followed by any number of fields other than one is
      rejected as invalid arguments, before anything is parsed. */
  lemma WrongArity(v: Verb, args: seq<string>)
    requires forall i :: 0 <= i < |args| ==> Strings.IsWord(args[i])
    requires |args| != 1
    ensures Interpret(Strings.JoinSpaced([Name(v)] + args)) == Reject(InvalidArguments)
  {
    var ws := [Name(v)] + args;
    assert forall i :: 0 <= i < |ws| ==> Strings.IsWord(ws[i]);
    var cmd := Strings.JoinSpaced(ws);
    Strings.FieldsOfJoined(ws);
    assert Strings.Fields(cmd)[0] == Name(v) && |Strings.Fields(cmd)| != 2;
    assert cmd != "";
  }

  /** A first field that is neither ping nor one of the five verbs is an
      unknown command, whatever follows it. */
  lemma UnknownVerb(w: string, rest: seq<string>)
    requires Strings.IsWord(w) && w != "ping" && VerbOf(w).None?
    requires forall i :: 0 <= i < |rest| ==> Strings.IsWord(rest[i])
    ensures Interpret(Strings.JoinSpaced([w] + rest)) == Reject(UnknownCommand)
  {
    var ws := [w] + rest;
    assert forall i :: 0 <= i < |ws| ==> Strings.IsWord(ws[i]);
    var cmd := Strings.JoinSpaced(ws);
    Strings.FieldsOfJoined(ws);
    assert Strings.Fields(cmd)[0] == w;
    assert cmd != "";
  }

  /** A single argument that is not base-10 int64 text is a parse error
      naming that argument, for every motion verb. */
  lemma BadArgument(v: Verb, a: string)
    requires Strings.IsWord(a)
    requires !(Decimal.IsLiteral(a) && InRange(Decimal.LiteralValue(a)))
    ensures Interpret(Strings.JoinSpaced([Name(v), a])).Reject?
    ensures var e := Interpret(Strings.JoinSpaced([Name(v), a])).error;
            e.BadNumber? && e.numError.num == a
  {
    var ws := [Name(v), a];
    Strings.FieldsOfJoined(ws);
    assert ws[1..] == [a];
    Decimal.ParseInt64Meaning(a);
  }

  /** fwd and bck drive both channels with opposite throttles, as do rt
      and lt; ffwd goes the way fwd goes, at full throttle. */
  lemma MirroredVerbs()
    ensures Throttles(Bck) == Throttle(-Throttles(Fwd).motor1, -Throttles(Fwd).motor2)
    ensures Throttles(Lt) == Throttle(-Throttles(Rt).motor1, -Throttles(Rt).motor2)
    ensures Throttles(Ffwd).motor1 < Throttles(Fwd).motor1 < 0 && Throttles(Ffwd).motor1 == -100
  {
  }

  /** Turning is linear in whole multiples of a quarter turn: k quarter
      turns last k times SpinSeconds. */
  lemma SpinScales(v: Verb, k: int)
    requires v.IsTurn()
    requires InRange(SpinSeconds * k * Second)
    ensures Duration(v, QuarterTurn * k) == SpinSeconds * k * Second
  {
    assert SpinTime(QuarterTurn * k) == SpinSeconds * k;
  }

  /** The angle is truncated to whole seconds: 90 gives 2 s, 180 gives 4 s,
      45 gives 1 s, 30 gives 0 s, and a negative angle mirrors a positive one. */
  lemma SpinExamples()
    ensures Duration(Rt, 90) == 2 * Second
    ensures Duration(Rt, 180) == 4 * Second
    ensures Duration(Lt, 45) == 1 * Second
    ensures Duration(Lt, 30) == 0
    ensures Duration(Lt, -90) == -2 * Second
  {
  }

  /** An argument whose 10 ms units do not fit an int64 wraps around: one
      trillion units (10^19 ns) come out as a negative duration. */
  lemma LongDurationWraps()
    ensures Duration(Fwd, 1_000_000_000_000) == 10_000_000_000_000_000_000 - Modulus
    ensures Duration(Fwd, 1_000_000_000_000) < 0
  {
  }

  /** The digits of 50 and 180 parse to those numbers. */
  lemma ParseExampleArguments()
    ensures Decimal.ParseInt64("50") == Success(50)
    ensures Decimal.ParseInt64("180") == Success(180)
  {
    assert Decimal.FormatNat(5) == "5";
    assert Decimal.FormatInt(50) == "50";
    Decimal.ParseFormatInt(50);
    assert Decimal.FormatNat(18) == "18";
    assert Decimal.FormatInt(180) == "180";
    Decimal.ParseFormatInt(180);
  }

  /** Two words joined by one space split back into those two words. */
  lemma FieldsOfTwoWords(a: string, b: string)
    requires Strings.IsWord(a) && Strings.IsWord(b)
    ensures Strings.Fields(a + " " + b) == [a, b]
  {
    assert Strings.JoinSpaced([a, b]) == a + " " + b;
    Strings.FieldsOfJoined([a, b]);
  }

  /** `<verb> <a>` drives by the verb's throttles for the duration the
      argument text means, whenever that text parses. */
  lemma VerbWithArgument(v: Verb, a: string)
    requires Strings.IsWord(a) && Decimal.ParseInt64(a).Success?
    ensures Interpret(Name(v) + " " + a)
         == Drive(Plan(Throttles(v), Duration(v, Decimal.ParseInt64(a).value)))
  {
    FieldsOfTwoWords(Name(v), a);
  }

  /** "fwd 50" drives forward for 500 ms. */
  lemma ForwardFifty()
    ensures Interpret("fwd 50") == Drive(Plan(Throttle(-75, -75), 500 * Millisecond))
  {
    ParseExampleArguments();
    VerbWithArgument(Fwd, "50");
    assert Name(Fwd) + " " + "50" == "fwd 50";
  }

  /** "rt 180" turns right for twice the quarter-turn time. The command is
      a parameter fixed by the precondition so that the solver does not
      unfold Interpret on the literal text. */
  lemma RightHalfTurn(cmd: string)
    requires cmd == "rt 180"
    ensures Interpret(cmd) == Drive(Plan(Throttle(-75, 75), 2 * SpinSeconds * Second))
  {
    assert Decimal.ParseInt64("180") == Success(180) by {
      ParseExampleArguments();
    }
    assert Duration(Rt, 180) == 2 * SpinSeconds * Second by {
      SpinScales(Rt, 2);
    }
    assert Name(Rt) + " " + "180" == cmd;
    VerbWithArgument(Rt, "180");
  }

  /** Two words with any white space before, between (at least one
      character) and after them split into those two words. */
  lemma FieldsOfPaddedWords(p: string, a: string, q: string, b: string, e: string)
    requires Strings.Blank(p) && Strings.Blank(q) && Strings.Blank(e) && q != []
    requires Strings.IsWord(a) && Strings.IsWord(b)
    ensures Strings.Fields(p + a + q + b + e) == [a, b]
  {
    var tail := b + e;
    var mid := q + tail;
    var rest := a + mid;
    assert p + a + q + b + e == p + rest;
    assert Strings.Fields(e) == [] by {
      Strings.FieldsEmptyIffBlank(e);
    }
    Strings.FieldsWordThenSpace(b, e);
    Strings.FieldsSkipsBlank(q, tail);
    assert mid[0] == q[0];
    Strings.FieldsWordThenSpace(a, mid);
    Strings.FieldsSkipsBlank(p, rest);
  }

  /** Tabs, repeated spaces and white space at either end do not change
      what a motion command means. */
  lemma PaddingIgnored(v: Verb, a: string, p: string, q: string, e: string)
    requires Strings.Blank(p) && Strings.Blank(q) && Strings.Blank(e) && q != []
    requires Strings.IsWord(a)
    ensures Interpret(p + Name(v) + q + a + e) == Interpret(Name(v) + " " + a)
  {
    FieldsOfPaddedWords(p, Name(v), q, a, e);
    FieldsOfTwoWords(Name(v), a);
    assert p + Name(v) + q + a + e != [];
  }

  /** "spin 1" names no verb. */
  lemma SpinIsUnknown()
    ensures Interpret("spin 1") == Reject(UnknownCommand)
  {
    UnknownVerb("spin", ["1"]);
    assert Strings.JoinSpaced(["spin", "1"]) == "spin 1";
  }

  /** "fwd" alone lacks its argument. */
  lemma ForwardWithoutArgument()
    ensures Interpret("fwd") == Reject(InvalidArguments)
  {
    WrongArity(Fwd, []);
    assert Strings.JoinSpaced(["fwd"]) == "fwd";
  }

  /** A command of spaces and tabs only is not empty, so it reaches the
      indexing of its (empty) field list. */
  lemma BlankCommandPanics()
    ensures Interpret(" \t ") == IndexPanic
  {
    assert Strings.Blank(" \t ");
  }
}
