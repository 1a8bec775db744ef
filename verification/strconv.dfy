/**
 * strconv.Atoi on a 64-bit platform, as the Go standard library implements
 * it: a fast path for strings shorter than 19 bytes, which can only fail on
 * syntax, and otherwise ParseInt(s, 10, 0), whose ParseUint scans the
 * digits left to right and stops at the first byte that is not a digit or
 * the first digit that takes the value past 2^64 - 1; and strconv.Itoa,
 * which writes an int back in decimal.
 */
module Strconv {
  import opened Wrappers
  import opened GoBytes

  const MinInt: int := -0x8000_0000_0000_0000
  const MaxInt: int := 0x7fff_ffff_ffff_ffff
  const MaxUint64: int := 0xffff_ffff_ffff_ffff

  /** Atoi takes its fast path for inputs of 1 to 18 bytes. */
  const FastPathLength: nat := 19

  datatype NumErrorKind = ErrSyntax | ErrRange

  /** strconv.NumError: the function, the input and the reason. */
  datatype NumError = NumError(Func: Bytes, Num: Bytes, Err: NumErrorKind)

  const FnAtoi: Bytes := "Atoi"

  predicate IsDigit(c: Byte)
  {
    '0' <= c <= '9'
  }

  predicate AllDigits(s: Bytes)
  {
    forall i :: 0 <= i < |s| ==> IsDigit(s[i])
  }

  function DigitValue(c: Byte): (d: nat)
    requires IsDigit(c)
    ensures d < 10
  {
    c as int - '0' as int
  }

  /** The value of a digit string, most significant digit first. */
  function DigitsValue(s: Bytes): nat
    requires AllDigits(s)
  {
    if s == [] then 0 else DigitsValue(s[..|s| - 1]) * 10 + DigitValue(s[|s| - 1])
  }

  function Pow10(k: nat): (p: nat)
    ensures p >= 1
  {
    if k == 0 then 1 else 10 * Pow10(k - 1)
  }

  lemma Pow10Bounds()
    ensures Pow10(FastPathLength - 1) == 1_000_000_000_000_000_000
    ensures Pow10(19) == 10_000_000_000_000_000_000
    ensures Pow10(20) == 100_000_000_000_000_000_000
  {
    assert Pow10(6) == 1_000_000;
    assert Pow10(12) == 1_000_000_000_000;
    assert Pow10(18) == 1_000_000_000_000_000_000;
  }

  /** A string of at most `k` digits is worth less than 10^k. */
  lemma {:induction false} DigitsValueBelow(s: Bytes, k: nat)
    requires AllDigits(s) && |s| <= k
    ensures DigitsValue(s) < Pow10(k)
  {
    if s != [] {
      DigitsValueBelow(s[..|s| - 1], k - 1);
    }
  }

  lemma {:induction false} Pow10Monotone(i: nat, j: nat)
    requires i <= j
    ensures Pow10(i) <= Pow10(j)
    decreases j
  {
    if i < j {
      Pow10Monotone(i, j - 1);
    }
  }

  /** A digit string that does not start with 0 is worth at least 10^(length - 1). */
  lemma {:induction false} DigitsValueAtLeast(s: Bytes)
    requires AllDigits(s) && |s| >= 1 && s[0] != '0'
    ensures DigitsValue(s) >= Pow10(|s| - 1)
    decreases |s|
  {
    if |s| > 1 {
      DigitsValueAtLeast(s[..|s| - 1]);
    }
  }

  predicate HasSign(s: Bytes)
  {
    |s| >= 1 && (s[0] == '+' || s[0] == '-')
  }

  /** `s` without its sign. */
  function Magnitude(s: Bytes): (m: Bytes)
    ensures |m| <= |s| && (HasSign(s) ==> |m| == |s| - 1)
  {
    if HasSign(s) then s[1..] else s
  }

  /** An optional sign and one or more digits. */
  predicate IsDecimal(s: Bytes)
  {
    |Magnitude(s)| >= 1 && AllDigits(Magnitude(s))
  }

  /** The integer a decimal string denotes. */
  function DecimalValue(s: Bytes): int
    requires IsDecimal(s)
  {
    var m: int := DigitsValue(Magnitude(s));
    if HasSign(s) && s[0] == '-' then -m else m
  }

  /** The longest prefix of `s` made of digits. */
  function LeadingDigits(s: Bytes): (p: Bytes)
    ensures |p| <= |s| && p == s[..|p|] && AllDigits(p)
    ensures p == s <==> AllDigits(s)
  {
    if s == [] || !IsDigit(s[0]) then [] else [s[0]] + LeadingDigits(s[1..])
  }

  /** The value of the digits before the first non-digit of the magnitude. */
  function LeadingValue(s: Bytes): nat
  {
    DigitsValue(LeadingDigits(Magnitude(s)))
  }

  /** The loop of Atoi's fast path: `n = n*10 + digit` for each digit in turn. */
  function Accumulate(digits: Bytes, n: int): int
    requires AllDigits(digits)
  {
    if digits == [] then n else Accumulate(digits[1..], n * 10 + DigitValue(digits[0]))
  }

  lemma {:induction false} AccumulateSnoc(digits: Bytes, c: Byte, n: int)
    requires AllDigits(digits) && IsDigit(c)
    ensures AllDigits(digits + [c])
    ensures Accumulate(digits + [c], n) == Accumulate(digits, n) * 10 + DigitValue(c)
  {
    if digits != [] {
      assert (digits + [c])[1..] == digits[1..] + [c];
      AccumulateSnoc(digits[1..], c, n * 10 + DigitValue(digits[0]));
    }
  }

  /** Reading left to right gives the value of the digit string. */
  lemma {:induction false} AccumulateValue(digits: Bytes)
    requires AllDigits(digits)
    ensures Accumulate(digits, 0) == DigitsValue(digits)
    decreases |digits|
  {
    if digits != [] {
      var init := digits[..|digits| - 1];
      AccumulateValue(init);
      AccumulateSnoc(init, digits[|digits| - 1], 0);
      assert init + [digits[|digits| - 1]] == digits;
    }
  }

  /** More digits never make the value smaller. */
  lemma {:induction false} AccumulateGrows(digits: Bytes, n: int)
    requires AllDigits(digits) && n >= 0
    ensures Accumulate(digits, n) >= n
  {
    if digits != [] {
      AccumulateGrows(digits[1..], n * 10 + DigitValue(digits[0]));
    }
  }

  /**
   * The digit loop of ParseUint(s, 10, 64) from the partial value `n`: a
   * byte that is not a digit is a syntax error; a digit that takes the value
   * past 2^64 - 1 is a range error at once.
   */
  function ScanDigits(s: Bytes, n: nat): Result<nat, NumErrorKind>
  {
    if s == [] then Success(n)
    else if !IsDigit(s[0]) then Failure(ErrSyntax)
    else if n * 10 + DigitValue(s[0]) > MaxUint64 then Failure(ErrRange)
    else ScanDigits(s[1..], n * 10 + DigitValue(s[0]))
  }

  /** The scan overflows exactly when the run of leading digits does; otherwise it fails exactly on a non-digit. */
  lemma {:induction false} ScanDigitsOutcome(s: Bytes, n: nat)
    requires n <= MaxUint64
    ensures var lead := Accumulate(LeadingDigits(s), n);
      ScanDigits(s, n) ==
        if lead > MaxUint64 then Failure(ErrRange)
        else if !AllDigits(s) then Failure(ErrSyntax)
        else Success(lead)
  {
    if s != [] && IsDigit(s[0]) {
      var next := n * 10 + DigitValue(s[0]);
      assert LeadingDigits(s)[1..] == LeadingDigits(s[1..]);
      assert AllDigits(s) <==> AllDigits(s[1..]) by {
        if AllDigits(s[1..]) {
          forall i | 0 <= i < |s|
            ensures IsDigit(s[i])
          {
            if i > 0 {
              assert s[i] == s[1..][i - 1];
            }
          }
        }
      }
      if next > MaxUint64 {
        AccumulateGrows(LeadingDigits(s[1..]), next);
      } else {
        ScanDigitsOutcome(s[1..], next);
      }
    }
  }

  /** ParseUint(s, 10, 64): the empty string is a syntax error. */
  function ParseUint(s: Bytes): Result<nat, NumErrorKind>
  {
    if s == [] then Failure(ErrSyntax) else ScanDigits(s, 0)
  }

  /**
   * ParseInt(s, 10, 64): strip one sign, parse the rest as unsigned; a
   * range error of ParseUint stays a range error, as does a magnitude above
   * 2^63 - 1 (2^63 when negative).
   */
  function ParseInt(s: Bytes): Result<int, NumErrorKind>
  {
    if s == [] then Failure(ErrSyntax)
    else
      var neg := s[0] == '-';
      var un := ParseUint(Magnitude(s));
      if un.Failure? then Failure(un.error)
      else if !neg && un.value > MaxInt then Failure(ErrRange)
      else if neg && un.value > -MinInt then Failure(ErrRange)
      else
        var u: int := un.value;
        Success(if neg then -u else u)
  }

  /** Atoi's fast path: every short decimal fits, so only syntax can fail. */
  function AtoiFast(s: Bytes): Result<int, NumError>
    requires 0 < |s| < FastPathLength
  {
    var digits := Magnitude(s);
    if digits == [] || !AllDigits(digits) then Failure(NumError(FnAtoi, s, ErrSyntax))
    else
      var n := Accumulate(digits, 0);
      Success(if s[0] == '-' then -n else n)
  }

  lemma AtoiFastOutcome(s: Bytes)
    requires 0 < |s| < FastPathLength
    ensures AtoiFast(s).Success? <==> IsDecimal(s)
    ensures AtoiFast(s).Success? ==> MinInt <= DecimalValue(s) <= MaxInt && AtoiFast(s).value == DecimalValue(s)
    ensures AtoiFast(s).Failure? ==> AtoiFast(s).error == NumError(FnAtoi, s, ErrSyntax) && LeadingValue(s) <= MaxUint64
  {
    var m := Magnitude(s);
    DigitsValueBelow(LeadingDigits(m), FastPathLength - 1);
    Pow10Bounds();
    if IsDecimal(s) {
      AccumulateValue(m);
      DigitsValueBelow(m, FastPathLength - 1);
    }
  }

  lemma ParseIntOutcome(s: Bytes)
    ensures ParseInt(s).Success? <==> IsDecimal(s) && MinInt <= DecimalValue(s) <= MaxInt
    ensures ParseInt(s).Success? ==> ParseInt(s).value == DecimalValue(s)
    ensures ParseInt(s).Failure? ==>
      ParseInt(s).error == if IsDecimal(s) || LeadingValue(s) > MaxUint64 then ErrRange else ErrSyntax
  {
    var m := Magnitude(s);
    if m != [] {
      ScanDigitsOutcome(m, 0);
      AccumulateValue(LeadingDigits(m));
    }
  }

  /**
   * strconv.Atoi. Succeeds exactly on a signed decimal within int range, with
   * its value. Otherwise the error names Atoi and the whole input, and is
   * ErrRange when the input is a decimal out of range or when its leading
   * digits already pass 2^64 - 1 before the first bad byte; ErrSyntax in
   * every other case.
   */
  function Atoi(s: Bytes): (r: Result<int, NumError>)
    ensures r.Success? <==> IsDecimal(s) && MinInt <= DecimalValue(s) <= MaxInt
    ensures r.Success? ==> r.value == DecimalValue(s)
    ensures r.Failure? ==>
      r.error == NumError(FnAtoi, s, if IsDecimal(s) || LeadingValue(s) > MaxUint64 then ErrRange else ErrSyntax)
  {
    if 0 < |s| < FastPathLength then
      AtoiFastOutcome(s);
      AtoiFast(s)
    else
      ParseIntOutcome(s);
      match ParseInt(s)
      case Success(v) => Success(v)
      case Failure(kind) => Failure(NumError(FnAtoi, s, kind))
  }

  function DigitChar(d: nat): (c: Byte)
    requires d < 10
    ensures IsDigit(c) && DigitValue(c) == d
  {
    ('0' as int + d) as char
  }

  /** The shortest digit string of a natural number. */
  function FormatNat(n: nat): (s: Bytes)
    ensures |s| >= 1 && AllDigits(s)
  {
    if n < 10 then [DigitChar(n)] else FormatNat(n / 10) + [DigitChar(n % 10)]
  }

  const Minus: Bytes := "-"

  /** strconv.Itoa. */
  function Itoa(n: int): Bytes
  {
    if n < 0 then Minus + FormatNat(-n) else FormatNat(n)
  }

  lemma {:induction false} FormatNatValue(n: nat)
    ensures DigitsValue(FormatNat(n)) == n
  {
    if n >= 10 {
      FormatNatValue(n / 10);
      var s := FormatNat(n);
      assert s[..|s| - 1] == FormatNat(n / 10);
    }
  }

  /** Atoi reads back every int that Itoa writes. */
  lemma AtoiItoa(n: int)
    requires MinInt <= n <= MaxInt
    ensures Atoi(Itoa(n)) == Success(n)
  {
    var s := Itoa(n);
    if n < 0 {
      FormatNatValue(-n);
      assert Magnitude(s) == FormatNat(-n);
    } else {
      FormatNatValue(n);
      assert Magnitude(s) == FormatNat(n);
    }
  }

  /** A string that is not a signed decimal, with at most 19 leading digits, is refused as bad syntax. */
  lemma AtoiRejectsNonDecimal(s: Bytes)
    requires !IsDecimal(s)
    requires |LeadingDigits(Magnitude(s))| <= 19
    ensures Atoi(s) == Failure(NumError(FnAtoi, s, ErrSyntax))
  {
    DigitsValueBelow(LeadingDigits(Magnitude(s)), 19);
    Pow10Bounds();
  }

  /**
   * Twenty-one or more leading digits, the first not zero, pass 2^64 - 1
   * before the scan reaches whatever follows them, so a malformed string
   * such as "100000000000000000000x" is a range error.
   */
  lemma AtoiOverflowBeforeBadByte(s: Bytes)
    requires |LeadingDigits(Magnitude(s))| >= 21 && Magnitude(s)[0] != '0'
    ensures Atoi(s) == Failure(NumError(FnAtoi, s, ErrRange))
  {
    var lead := LeadingDigits(Magnitude(s));
    assert lead[0] == Magnitude(s)[0];
    assert LeadingValue(s) > MaxUint64 by {
      DigitsValueAtLeast(lead);
      Pow10Monotone(20, |lead| - 1);
      Pow10Bounds();
    }
  }
}
