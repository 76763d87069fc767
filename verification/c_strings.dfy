/**
 This module models the C library string routines the option parser relies on:
 `strchr`, `isdigit`, `strtol` (base 10) and the `memset` + `strncpy` idiom used
 to store a value into a fixed-capacity, NUL-terminated character array.
 */
module CStrings {
  import opened Maybe

  /** `isdigit` in the C locale. */
  predicate IsDigit(c: char) {
    '0' <= c <= '9'
  }

  /** True when every character is a decimal digit; the empty string qualifies. */
  predicate AllDigits(s: string) {
    forall i :: 0 <= i < |s| ==> IsDigit(s[i])
  }

  /** `q[0]` of a C string: the terminating NUL when the string is empty. */
  function FirstChar(s: string): (c: char)
    ensures |s| > 0 ==> c == s[0]
    ensures |s| == 0 ==> c == '\0'
  {
    if |s| == 0 then '\0' else s[0]
  }

  function DigitValue(c: char): (d: nat)
    requires IsDigit(c)
    ensures d < 10
  {
    c as int - '0' as int
  }

  function DigitChar(d: nat): (c: char)
    requires d < 10
    ensures IsDigit(c) && DigitValue(c) == d
  {
    ('0' as int + d) as char
  }

  /** The number an all-digit string denotes in base 10 (the empty string denotes 0). */
  function DecimalValue(s: string): (n: nat)
    requires AllDigits(s)
    decreases |s|
  {
    if |s| == 0 then 0 else 10 * DecimalValue(s[..|s| - 1]) + DigitValue(s[|s| - 1])
  }

  /** The decimal rendering of `n`, without leading zeros. */
  function Decimal(n: nat): (s: string)
    ensures |s| > 0
    ensures AllDigits(s)
    decreases n
  {
    if n < 10 then [DigitChar(n)] else Decimal(n / 10) + [DigitChar(n % 10)]
  }

  /** Rendering a number in decimal and reading it back gives the number. */
  lemma {:induction false} DecimalRoundTrip(n: nat)
    ensures DecimalValue(Decimal(n)) == n
    decreases n
  {
    if n >= 10 {
      DecimalRoundTrip(n / 10);
      var s := Decimal(n);
      assert s[..|s| - 1] == Decimal(n / 10);
    }
  }

  /** Length of the longest prefix of `s` made of decimal digits. */
  function LeadingDigits(s: string): (n: nat)
    ensures n <= |s|
    ensures AllDigits(s[..n])
    ensures n < |s| ==> !IsDigit(s[n])
    decreases |s|
  {
    if |s| == 0 || !IsDigit(s[0]) then 0
    else
      var m := LeadingDigits(s[1..]);
      assert s[..1 + m] == [s[0]] + s[1..][..m];
      1 + m
  }

  /** `isspace` in the C locale: space, tab, newline, vertical tab, form feed, carriage return. */
  predicate IsSpace(c: char) {
    c == ' ' || c == '\t' || c == '\n' || c == '\U{000B}' || c == '\U{000C}' || c == '\r'
  }

  /** Length of the longest prefix of `s` made of white space. */
  function LeadingSpaces(s: string): (n: nat)
    ensures n <= |s|
    ensures forall i :: 0 <= i < n ==> IsSpace(s[i])
    ensures n < |s| ==> !IsSpace(s[n])
    decreases |s|
  {
    if |s| == 0 || !IsSpace(s[0]) then 0 else 1 + LeadingSpaces(s[1..])
  }

  /** `LONG_MIN` and `LONG_MAX` of a 64-bit `long`. */
  const LongMin: int := -0x8000_0000_0000_0000
  const LongMax: int := 0x7FFF_FFFF_FFFF_FFFF

  /** `INT_MIN` of a 32-bit `int`, and the number of `int` values. */
  const IntMin: int := -0x8000_0000
  const IntRange: nat := 0x1_0000_0000

  /**
   `strtol(s, NULL, 10)`: leading white space is skipped, one optional `+` or `-` is
   read, then the longest run of decimal digits; no digits gives 0, and a magnitude
   beyond the range of `long` saturates to `LONG_MAX` or `LONG_MIN`.
   */
  function StrToL(s: string): (r: int)
    ensures LongMin <= r <= LongMax
  {
    var t := s[LeadingSpaces(s)..];
    var negative := |t| > 0 && t[0] == '-';
    var u := if |t| > 0 && (t[0] == '-' || t[0] == '+') then t[1..] else t;
    var m: int := DecimalValue(u[..LeadingDigits(u)]);
    if negative then (if -m < LongMin then LongMin else -m)
    else (if m > LongMax then LongMax else m)
  }

  /**
   The conversion `(int) x` of a `long` to a 32-bit `int`: reduction modulo 2^32 into
   [INT_MIN, INT_MAX], as GCC defines it for values out of range.
   */
  function ToInt(x: int): (r: int)
    ensures IntMin <= r < IntMin + IntRange
    ensures (r - x) % IntRange == 0
  {
    (x - IntMin) % IntRange + IntMin
  }

  /** A value that fits an `int` is unchanged by the conversion. */
  lemma ToIntFits(x: int)
    requires IntMin <= x < IntMin + IntRange
    ensures ToInt(x) == x
  {
  }

  /** A non-negative magnitude as `strtol` returns it: values beyond `LONG_MAX` saturate. */
  function Saturate(m: nat): (r: nat)
    ensures r <= LongMax
    ensures m <= LongMax ==> r == m
  {
    if m > LongMax then LongMax else m
  }

  /** The conversion to `int` only sees its argument modulo 2^32. */
  lemma ToIntPeriodic(x: int)
    ensures ToInt(x + IntRange) == ToInt(x)
  {
    var a := x - IntMin;
    assert (a + IntRange) % IntRange == a % IntRange;
  }

  /** `(unsigned int) LONG_MAX` is 2^32 - 1. */
  lemma LongMaxAsUnsigned()
    ensures LongMax % IntRange == IntRange - 1
  {
    assert LongMax == 0x7FFF_FFFF * IntRange + (IntRange - 1);
  }

  /** On an all-digit string `strtol` reads the whole string, saturating at `LONG_MAX`. */
  lemma StrToLAllDigits(s: string)
    requires AllDigits(s)
    ensures StrToL(s) == Saturate(DecimalValue(s))
  {
    if |s| > 0 {
      assert !IsSpace(s[0]);
    }
    assert LeadingSpaces(s) == 0;
    assert s[0..] == s;
    assert LeadingDigits(s) == |s|;
    assert s[..|s|] == s;
  }

  /** `strtol` applied to the decimal rendering of a `long` value gives it back. */
  lemma {:induction false} StrToLDecimal(n: nat)
    requires n <= LongMax
    ensures StrToL(Decimal(n)) == n
  {
    StrToLAllDigits(Decimal(n));
    DecimalRoundTrip(n);
  }

  /** White space before a string that does not itself start with white space is skipped as a whole. */
  lemma {:induction false} LeadingSpacesAppend(ws: string, t: string)
    requires forall i :: 0 <= i < |ws| ==> IsSpace(ws[i])
    requires |t| == 0 || !IsSpace(t[0])
    ensures LeadingSpaces(ws + t) == |ws|
    decreases |ws|
  {
    if |ws| == 0 {
      assert ws + t == t;
    } else {
      assert (ws + t)[0] == ws[0];
      assert (ws + t)[1..] == ws[1..] + t;
      LeadingSpacesAppend(ws[1..], t);
    }
  }

  /** A digit run followed by a non-digit (or nothing) is read up to its end. */
  lemma {:induction false} LeadingDigitsAppend(d: string, rest: string)
    requires AllDigits(d)
    requires |rest| == 0 || !IsDigit(rest[0])
    ensures LeadingDigits(d + rest) == |d|
    decreases |d|
  {
    if |d| == 0 {
      assert d + rest == rest;
    } else {
      assert (d + rest)[0] == d[0];
      assert (d + rest)[1..] == d[1..] + rest;
      LeadingDigitsAppend(d[1..], rest);
    }
  }

  /** `strtol` skips white space in front of the number. */
  lemma StrToLSkipsSpaces(ws: string, t: string)
    requires forall i :: 0 <= i < |ws| ==> IsSpace(ws[i])
    requires |t| == 0 || !IsSpace(t[0])
    ensures StrToL(ws + t) == StrToL(t)
  {
    LeadingSpacesAppend(ws, t);
    assert (ws + t)[|ws|..] == t;
    assert t[0..] == t;
  }

  /** The sign in front of a digit run is recognised and dropped. */
  lemma DropSign(sign: string, d: string, rest: string)
    requires sign == "" || sign == "+" || sign == "-"
    requires |d| > 0 && IsDigit(d[0])
    ensures var t := sign + d + rest;
      && !IsSpace(t[0])
      && (t[0] == '-' <==> sign == "-")
      && (if t[0] == '-' || t[0] == '+' then t[1..] else t) == d + rest
  {
    if |sign| == 0 {
      assert sign + d + rest == d + rest;
    } else {
      assert (sign + d + rest)[1..] == d + rest;
    }
  }

  /**
   `strtol` reads an optional sign and a digit run, and ignores what follows the digits;
   a magnitude beyond the range of `long` saturates to `LONG_MAX`, or to `LONG_MIN` after `-`.
   */
  lemma StrToLSignedDigits(sign: string, d: string, rest: string)
    requires sign == "" || sign == "+" || sign == "-"
    requires |d| > 0 && AllDigits(d)
    requires |rest| == 0 || !IsDigit(rest[0])
    ensures StrToL(sign + d + rest) ==
      if sign != "-" then Saturate(DecimalValue(d))
      else if DecimalValue(d) > LongMax + 1 then LongMin
      else -(DecimalValue(d) as int)
  {
    var t := sign + d + rest;
    DropSign(sign, d, rest);
    assert t[0..] == t;
    LeadingDigitsAppend(d, rest);
    assert (d + rest)[..|d|] == d;
  }

  /** Regrouping a concatenation of four strings. */
  lemma ConcatAssociates(a: string, b: string, c: string, e: string)
    ensures a + b + c + e == a + (b + c + e)
  {
  }

  /**
   `strtol` accepts leading white space, one optional sign and trailing characters that
   are not digits, and reads any digit run, leading zeros included, with saturation:
   `"  +007x"` reads as 7, and `"-9223372036854775809"` as `LONG_MIN`.
   */
  lemma StrToLReadsDigits(ws: string, sign: string, d: string, rest: string)
    requires forall i :: 0 <= i < |ws| ==> IsSpace(ws[i])
    requires sign == "" || sign == "+" || sign == "-"
    requires |d| > 0 && AllDigits(d)
    requires |rest| == 0 || !IsDigit(rest[0])
    ensures StrToL(ws + sign + d + rest) ==
      if sign != "-" then Saturate(DecimalValue(d))
      else if DecimalValue(d) > LongMax + 1 then LongMin
      else -(DecimalValue(d) as int)
  {
    var t := sign + d + rest;
    ConcatAssociates(ws, sign, d, rest);
    DropSign(sign, d, rest);
    StrToLSkipsSpaces(ws, t);
    StrToLSignedDigits(sign, d, rest);
  }

  /**
   For a magnitude within the range of `long`, written without leading zeros, `strtol`
   returns the number itself: `"  +80x"` reads as 80 and `"-7"` as -7.
   */
  lemma StrToLReadsNumber(ws: string, sign: string, n: nat, rest: string)
    requires forall i :: 0 <= i < |ws| ==> IsSpace(ws[i])
    requires sign == "" || sign == "+" || sign == "-"
    requires |rest| == 0 || !IsDigit(rest[0])
    requires n <= LongMax
    ensures StrToL(ws + sign + Decimal(n) + rest) == if sign == "-" then -(n as int) else n
  {
    DecimalRoundTrip(n);
    StrToLReadsDigits(ws, sign, Decimal(n), rest);
  }

  /** `strchr(s, c)`: the index of the first occurrence of `c` in `s`. */
  function IndexOf(s: string, c: char): (r: Option<nat>)
    ensures r.None? <==> (forall i :: 0 <= i < |s| ==> s[i] != c)
    ensures r.Some? ==> r.value < |s| && s[r.value] == c
    ensures r.Some? ==> forall i :: 0 <= i < r.value ==> s[i] != c
    decreases |s|
  {
    if |s| == 0 then None
    else if s[0] == c then Some(0)
    else match IndexOf(s[1..], c)
      case None => None
      case Some(k) => Some(k + 1)
  }

  /**
   `memset(dst, 0, cap); strncpy(dst, src, cap - 1)` read back as a C string: the
   longest prefix of `src` that leaves room for the terminating NUL.
   */
  function StoreBounded(src: string, cap: nat): (dst: string)
    requires cap >= 1
    ensures |dst| < cap
    ensures dst <= src
    ensures |src| < cap ==> dst == src
    ensures |src| >= cap ==> |dst| == cap - 1
  {
    if |src| < cap then src else src[..cap - 1]
  }
}
