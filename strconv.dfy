/**
 * Decimal conversions from Go's `strconv` package as the handlers and the
 * configuration loader use them, on a 64-bit platform: `ParseUint(s, 10, 64)`,
 * `ParseInt(s, 10, 64)`, `Atoi` and `FormatInt(n, 10)` (which is also what
 * `fmt.Sprintf("%d", n)` prints).
 *
 * Go's parsers return a value AND an error; the value on error is part of the
 * observable behaviour (`page, _ := strconv.Atoi(...)` keeps it), so both are
 * modelled.
 */
module Strconv {
  import opened Wrappers

  const MaxUint64: int := 0xFFFF_FFFF_FFFF_FFFF
  const MaxInt64: int := 0x7FFF_FFFF_FFFF_FFFF
  const MinInt64: int := -0x8000_0000_0000_0000

  /** ErrSyntax and ErrRange of a `*strconv.NumError`. */
  datatype NumError = Syntax | Range

  /** What a Go parser returns: a value and an optional error. */
  datatype Parsed = Parsed(value: int, err: Option<NumError>)

  predicate IsDigit(c: char) { '0' <= c <= '9' }

  predicate AllDigits(s: string) { forall k :: 0 <= k < |s| ==> IsDigit(s[k]) }

  function DigitValue(c: char): (d: nat)
    requires IsDigit(c)
    ensures d <= 9
  {
    c as int - '0' as int
  }

  /** The number a string of decimal digits denotes. */
  function DigitsValue(s: string): nat
    requires AllDigits(s)
  {
    if s == [] then 0 else DigitsValue(s[..|s| - 1]) * 10 + DigitValue(s[|s| - 1])
  }

  /** Go's `cutoff` for base 10: the smallest n for which n*10 overflows uint64. */
  const Cutoff: int := MaxUint64 / 10 + 1

  /**
   * The digit loop of `ParseUint`: having read `s[..i]` into `n`, read the
   * rest. A non-digit is a syntax error (value 0); an overflow is a range
   * error (value MaxUint64) and stops the scan at once, before any later
   * character is looked at.
   */
  function ScanUint(s: string, i: nat, n: int): Parsed
    requires i <= |s|
    decreases |s| - i
  {
    if i == |s| then Parsed(n, None)
    else if !IsDigit(s[i]) then Parsed(0, Some(Syntax))
    else if n >= Cutoff then Parsed(MaxUint64, Some(Range))
    else if n * 10 + DigitValue(s[i]) > MaxUint64 then Parsed(MaxUint64, Some(Range))
    else ScanUint(s, i + 1, n * 10 + DigitValue(s[i]))
  }

  /** `strconv.ParseUint(s, 10, 64)`. */
  function ParseUint(s: string): Parsed {
    if s == "" then Parsed(0, Some(Syntax)) else ScanUint(s, 0, 0)
  }

  /** `strconv.ParseInt(s, 10, 64)`: an optional sign, then `ParseUint`, then clamping. */
  function ParseInt(s: string): Parsed {
    if s == "" then Parsed(0, Some(Syntax))
    else
      var neg := s[0] == '-';
      var body := if s[0] == '+' || s[0] == '-' then s[1..] else s;
      var u := ParseUint(body);
      if u.err == Some(Syntax) then Parsed(0, Some(Syntax))
      else if !neg && u.value > MaxInt64 then Parsed(MaxInt64, Some(Range))
      else if neg && u.value > -MinInt64 then Parsed(MinInt64, Some(Range))
      else Parsed(if neg then -u.value else u.value, None)
  }

  /**
   * `strconv.Atoi` with 64-bit `int`. Go's short-string fast path computes the
   * same value and error as `ParseInt` for every input, so it is not modelled
   * separately.
   */
  function Atoi(s: string): Parsed {
    ParseInt(s)
  }

  function DigitChar(d: nat): (c: char)
    requires d <= 9
    ensures IsDigit(c) && DigitValue(c) == d
  {
    ('0' as int + d) as char
  }

  /** Decimal digits of a natural number, without leading zeros. */
  function FormatNat(n: nat): (s: string)
    ensures s != [] && AllDigits(s)
  {
    if n < 10 then [DigitChar(n)] else FormatNat(n / 10) + [DigitChar(n % 10)]
  }

  /** `strconv.FormatInt(n, 10)`: a '-' before the digits of a negative number. */
  function FormatInt(n: int): (s: string)
    ensures s != []
  {
    if n < 0 then "-" + FormatNat(-n) else FormatNat(n)
  }

  lemma {:induction false} FormatNatValue(n: nat)
    ensures DigitsValue(FormatNat(n)) == n
  {
    var s := FormatNat(n);
    if n >= 10 {
      FormatNatValue(n / 10);
      assert s[..|s| - 1] == FormatNat(n / 10);
    }
  }

  /** Appending a digit never makes the denoted number smaller. */
  lemma {:induction false} DigitsValueMonotone(s: string, j: nat, k: nat)
    requires AllDigits(s) && j <= k <= |s|
    ensures DigitsValue(s[..j]) <= DigitsValue(s[..k])
    decreases k - j
  {
    if j < k {
      DigitsValueMonotone(s, j, k - 1);
      assert s[..k][..k - 1] == s[..k - 1];
    }
  }

  /**
   * Invariant of the digit loop: if `n` is the value of the digits read so
   * far, the scan succeeds exactly when the whole string is digits denoting
   * a number that fits in 64 bits, and then yields that number.
   */
  lemma {:induction false} ScanUintCorrect(s: string, i: nat, n: int)
    requires i <= |s| && AllDigits(s[..i]) && n == DigitsValue(s[..i]) && n <= MaxUint64
    ensures ScanUint(s, i, n).err == None <==> AllDigits(s) && DigitsValue(s) <= MaxUint64
    ensures ScanUint(s, i, n).err == None ==> ScanUint(s, i, n).value == DigitsValue(s)
    decreases |s| - i
  {
    if i == |s| {
      assert s[..i] == s;
    } else if !IsDigit(s[i]) {
      assert !AllDigits(s);
    } else {
      var m := n * 10 + DigitValue(s[i]);
      assert AllDigits(s[..i + 1]);
      assert s[..i + 1][..i] == s[..i];
      assert m == DigitsValue(s[..i + 1]);
      if m > MaxUint64 {
        if AllDigits(s) {
          DigitsValueMonotone(s, i + 1, |s|);
          assert s[..|s|] == s;
        }
      } else {
        ScanUintCorrect(s, i + 1, m);
      }
    }
  }

  /** `ParseUint(s, 10, 64)` succeeds exactly on non-empty digit strings that fit in 64 bits. */
  lemma ParseUintCorrect(s: string)
    ensures ParseUint(s).err == None <==> s != "" && AllDigits(s) && DigitsValue(s) <= MaxUint64
    ensures ParseUint(s).err == None ==> ParseUint(s).value == DigitsValue(s)
  {
    if s != "" {
      assert s[..0] == [];
      ScanUintCorrect(s, 0, 0);
    }
  }

  lemma {:induction false} ScanUintBounds(s: string, i: nat, n: int)
    requires i <= |s| && 0 <= n <= MaxUint64
    ensures 0 <= ScanUint(s, i, n).value <= MaxUint64
    decreases |s| - i
  {
    if i < |s| && IsDigit(s[i]) && n < Cutoff && n * 10 + DigitValue(s[i]) <= MaxUint64 {
      ScanUintBounds(s, i + 1, n * 10 + DigitValue(s[i]));
    }
  }

  /** Whatever it returns, `ParseUint`'s value lies in the unsigned 64-bit range. */
  lemma ParseUintBounds(s: string)
    ensures 0 <= ParseUint(s).value <= MaxUint64
  {
    if s != "" {
      ScanUintBounds(s, 0, 0);
    }
  }

  /** Printing an unsigned 64-bit number and parsing it back gives the number. */
  lemma ParseUintFormat(n: nat)
    requires n <= MaxUint64
    ensures ParseUint(FormatNat(n)) == Parsed(n, None)
  {
    FormatNatValue(n);
    ParseUintCorrect(FormatNat(n));
  }

  /** `Atoi` always yields a value within the 64-bit signed range, error or not. */
  lemma AtoiBounds(s: string)
    ensures MinInt64 <= Atoi(s).value <= MaxInt64
  {
    if s != "" {
      var body := if s[0] == '+' || s[0] == '-' then s[1..] else s;
      ParseUintBounds(body);
    }
  }

  /** Printing a 64-bit signed number and reading it back with `Atoi` gives the number. */
  lemma AtoiFormat(n: int)
    requires MinInt64 <= n <= MaxInt64
    ensures Atoi(FormatInt(n)) == Parsed(n, None)
  {
    var s := FormatInt(n);
    if n < 0 {
      assert s[1..] == FormatNat(-n);
      ParseUintFormat(-n);
    } else {
      ParseUintFormat(n);
    }
  }
}
