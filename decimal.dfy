/** Base-10 text for integers: Go's `strconv.ParseInt(s, 10, 64)`, the digit
    formatting it inverts, and `fmt`'s `%.2f` for values held in hundredths. */
module Decimal {
  import opened Results
  import opened Int64

  /** strconv.ErrSyntax and strconv.ErrRange. */
  datatype NumErrorKind = ErrSyntax | ErrRange

  /** strconv.NumError: the whole text that failed to parse and why. */
  datatype NumError = NumError(num: string, kind: NumErrorKind)

  predicate IsDigit(c: char) {
    '0' <= c <= '9'
  }

  function DigitValue(c: char): (d: nat)
    requires IsDigit(c)
    ensures d < 10
  {
    c as int - '0' as int
  }

  function DigitChar(d: nat): (c: char)
    requires d < 10
    ensures IsDigit(c) && DigitValue(c) == d
  {
    ('0' as int + d) as char
  }

  predicate AllDigits(s: string) {
    forall i :: 0 <= i < |s| ==> IsDigit(s[i])
  }

  /** The number a digit string denotes, most significant digit first. */
  function Value(s: string): nat
    requires AllDigits(s)
    decreases |s|
  {
    if s == [] then 0 else Value(s[..|s| - 1]) * 10 + DigitValue(s[|s| - 1])
  }

  /** The shortest digit string of `n` (no leading zeros). */
  function FormatNat(n: nat): (s: string)
    ensures s != [] && AllDigits(s) && Value(s) == n
    ensures s[0] == '0' ==> n == 0
    decreases n
  {
    if n < 10 then [DigitChar(n)]
    else
      var s := FormatNat(n / 10) + [DigitChar(n % 10)];
      assert s[..|s| - 1] == FormatNat(n / 10);
      s
  }

  /** strconv.FormatInt(n, 10). */
  function FormatInt(n: int): (s: string)
    ensures s != []
  {
    if n < 0 then "-" + FormatNat(-n) else FormatNat(n)
  }

  /** The digit loop of strconv.ParseUint in base 10 with bit size 64, from
      accumulated value `acc`: the first character that is not a digit is a
      syntax error, and as soon as the value read so far exceeds 2^64 - 1 it
      is a range error, whatever follows. */
  function ScanDigits(s: string, acc: nat): Result<nat, NumErrorKind>
    requires acc <= MaxUint64
    decreases |s|
  {
    if s == [] then Success(acc)
    else if !IsDigit(s[0]) then Failure(ErrSyntax)
    else
      var n := acc * 10 + DigitValue(s[0]);
      if n > MaxUint64 then Failure(ErrRange) else ScanDigits(s[1..], n)
  }

  /** strconv.ParseUint(s, 10, 64) (an empty string is a syntax error). */
  function ParseUint64(s: string): Result<nat, NumErrorKind> {
    if s == [] then Failure(ErrSyntax) else ScanDigits(s, 0)
  }

  /** `s` without its leading `+` or `-`, if it has one. */
  function Unsigned(s: string): (b: string)
    ensures |b| <= |s|
  {
    if |s| > 0 && (s[0] == '+' || s[0] == '-') then s[1..] else s
  }

  /** strconv.ParseInt(s, 10, 64): an optional sign, then the unsigned
      parse, then the signed range check against the int64 bounds. */
  function ParseInt64(s: string): (r: Result<int, NumError>)
    ensures r.Success? ==> InRange(r.value)
    ensures r.Failure? ==> r.error.num == s
  {
    if s == [] then Failure(NumError(s, ErrSyntax))
    else
      var neg := s[0] == '-';
      match ParseUint64(Unsigned(s))
      case Failure(kind) => Failure(NumError(s, kind))
      case Success(u) =>
        if !neg && u > MaxInt64 then Failure(NumError(s, ErrRange))
        else if neg && u > -MinInt64 then Failure(NumError(s, ErrRange))
        else Success(if neg then 0 - u else u as int)
  }

  /** Reference reading of base-10 integer text: an optional sign followed by
      at least one digit, and the signed number it denotes. */
  predicate IsLiteral(s: string) {
    Unsigned(s) != [] && AllDigits(Unsigned(s))
  }

  function LiteralValue(s: string): int
    requires IsLiteral(s)
  {
    var v: int := Value(Unsigned(s));
    if s[0] == '-' then -v else v
  }

  /** Reading one more digit never makes the value smaller. */
  lemma {:induction false} ValueOfPrefix(s: string, k: nat)
    requires AllDigits(s) && k <= |s|
    ensures AllDigits(s[..k]) && Value(s[..k]) <= Value(s)
    decreases |s| - k
  {
    if k < |s| {
      ValueOfPrefix(s, k + 1);
      assert s[..k + 1][..k] == s[..k];
    } else {
      assert s[..k] == s;
    }
  }

  /** On a digit string the scan succeeds exactly when the whole value fits
      in 64 unsigned bits, and then yields that value. */
  lemma {:induction false} ScanAllDigits(s: string, k: nat)
    requires AllDigits(s) && k <= |s|
    requires AllDigits(s[..k]) && Value(s[..k]) <= MaxUint64
    ensures ScanDigits(s[k..], Value(s[..k]))
         == if Value(s) <= MaxUint64 then Success(Value(s)) else Failure(ErrRange)
    decreases |s| - k
  {
    if k == |s| {
      assert s[..k] == s;
    } else {
      assert s[k..][0] == s[k];
      assert s[k..][1..] == s[k + 1..];
      assert s[..k + 1][..k] == s[..k];
      var n := Value(s[..k]) * 10 + DigitValue(s[k]);
      assert AllDigits(s[..k + 1]) && n == Value(s[..k + 1]);
      if n > MaxUint64 {
        ValueOfPrefix(s, k + 1);
      } else {
        ScanAllDigits(s, k + 1);
      }
    }
  }

  /** A string with a character that is not a digit never scans. */
  lemma {:induction false} ScanNonDigits(s: string, acc: nat)
    requires acc <= MaxUint64 && !AllDigits(s)
    ensures ScanDigits(s, acc).Failure?
    decreases |s|
  {
    if IsDigit(s[0]) {
      var n := acc * 10 + DigitValue(s[0]);
      if n <= MaxUint64 {
        assert !AllDigits(s[1..]) by {
          var i :| 0 <= i < |s| && !IsDigit(s[i]);
          assert s[1..][i - 1] == s[i];
        }
        ScanNonDigits(s[1..], n);
      }
    }
  }

  /** strconv.ParseInt accepts exactly the literals whose value is an int64,
      returns that value, and rejects an in-form literal that is too large
      with a range error. */
  lemma ParseInt64Meaning(s: string)
    ensures ParseInt64(s).Success? <==> IsLiteral(s) && InRange(LiteralValue(s))
    ensures ParseInt64(s).Success? ==> ParseInt64(s).value == LiteralValue(s)
    ensures IsLiteral(s) && !InRange(LiteralValue(s)) ==> ParseInt64(s) == Failure(NumError(s, ErrRange))
  {
    var b := Unsigned(s);
    if s != [] && b != [] {
      if AllDigits(b) {
        assert b[..0] == [];
        ScanAllDigits(b, 0);
        assert b[0..] == b;
      } else {
        ScanNonDigits(b, 0);
      }
    }
  }

  /** strconv.ParseInt(strconv.FormatInt(n, 10), 10, 64) gives back `n`. */
  lemma ParseFormatInt(n: int)
    requires InRange(n)
    ensures ParseInt64(FormatInt(n)) == Success(n)
  {
    var s := FormatInt(n);
    if n < 0 {
      assert Unsigned(s) == FormatNat(-n);
    } else {
      assert Unsigned(s) == FormatNat(n);
    }
    ParseInt64Meaning(s);
  }

  function Abs(x: int): nat {
    if x < 0 then -x else x
  }

  /** fmt.Sprintf("%.2f", h / 100.0) for a value held as whole hundredths:
      a minus sign when negative, the integral digits, a point, two digits. */
  function FormatCents(h: int): (s: string)
    ensures |s| >= 4 && s[|s| - 3] == '.'
    ensures (h < 0) <==> s[0] == '-'
  {
    var a := Abs(h);
    (if h < 0 then "-" else "") + FormatNat(a / 100) + "." + [DigitChar(a % 100 / 10), DigitChar(a % 10)]
  }

  /** Reads the `%.2f` form back: an optional minus sign, at least one digit,
      a point and exactly two digits. */
  function ParseCents(s: string): Option<int> {
    if |s| < 4 || s[|s| - 3] != '.' || !IsDigit(s[|s| - 2]) || !IsDigit(s[|s| - 1]) then None
    else
      var neg := s[0] == '-';
      var whole := if neg then s[1..|s| - 3] else s[..|s| - 3];
      if whole == [] || !AllDigits(whole) then None
      else
        var m := Value(whole) * 100 + DigitValue(s[|s| - 2]) * 10 + DigitValue(s[|s| - 1]);
        Some(if neg then -m else m)
  }

  /** The `%.2f` text of a throttle loses nothing: reading it back gives the
      same number of hundredths. */
  lemma ParseFormatCents(h: int)
    ensures ParseCents(FormatCents(h)) == Some(h)
  {
    var a := Abs(h);
    var w := FormatNat(a / 100);
    var s := FormatCents(h);
    if h < 0 {
      assert s == "-" + w + "." + [DigitChar(a % 100 / 10), DigitChar(a % 10)];
      assert s[1..|s| - 3] == w;
    } else {
      assert s == w + "." + [DigitChar(a % 100 / 10), DigitChar(a % 10)];
      assert s[..|s| - 3] == w;
      assert s[0] == w[0];
    }
  }
}
