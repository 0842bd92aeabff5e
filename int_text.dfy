/** Integer text as the CSV codec writes and reads it: the decimal text of an
    integer (`${store.id}`) and `parseInt(text)` without a radix argument. */
module IntText {
  import opened Wrappers
  import opened Strings

  predicate IsDigit(c: char) {
    '0' <= c <= '9'
  }

  function DigitChar(d: nat): (c: char)
    requires d < 10
    ensures IsDigit(c)
  {
    ('0' as int + d) as char
  }

  /** The decimal text of a natural number, most significant digit first. */
  function NatToString(n: nat): (s: string)
    ensures |s| >= 1 && forall i :: 0 <= i < |s| ==> IsDigit(s[i])
    decreases n
  {
    if n < 10 then [DigitChar(n)] else NatToString(n / 10) + [DigitChar(n % 10)]
  }

  /** The text JavaScript writes for an integer-valued number. */
  function IntToString(n: int): (s: string)
    ensures |s| >= 1 && forall i :: 0 <= i < |s| ==> IsDigit(s[i]) || s[i] == '-'
  {
    if n < 0 then "-" + NatToString(-n) else NatToString(n)
  }

  /** The value of `c` as a digit of the given radix (10 or 16), letters in
      either case standing for 10 to 35. */
  function DigitValue(c: char, radix: nat): (v: Option<nat>)
    ensures v.Some? ==> v.value < radix
  {
    var d :=
      if '0' <= c <= '9' then c as int - '0' as int
      else if 'a' <= c <= 'z' then c as int - 'a' as int + 10
      else if 'A' <= c <= 'Z' then c as int - 'A' as int + 10
      else radix;
    if d < radix then Some(d) else None
  }

  predicate AllDigits(s: string, radix: nat) {
    forall i :: 0 <= i < |s| ==> DigitValue(s[i], radix).Some?
  }

  /** The longest prefix of `s` made of digits of the radix. */
  function DigitRun(s: string, radix: nat): (d: string)
    ensures d <= s && AllDigits(d, radix)
    ensures |d| < |s| ==> DigitValue(s[|d|], radix).None?
    decreases |s|
  {
    if s != [] && DigitValue(s[0], radix).Some? then [s[0]] + DigitRun(s[1..], radix) else []
  }

  /** The number a digit string denotes in the radix. */
  function DigitsValue(d: string, radix: nat): nat
    requires AllDigits(d, radix)
    decreases |d|
  {
    if d == [] then 0
    else DigitsValue(d[..|d| - 1], radix) * radix + DigitValue(d[|d| - 1], radix).value
  }

  /** The value of the longest run of digits of the radix at the start of
      `s`; `None` when that run is empty. */
  function RunValue(s: string, radix: nat): Option<nat> {
    var d := DigitRun(s, radix);
    if d == [] then None else Some(DigitsValue(d, radix))
  }

  /** The unsigned part of `parseInt`: a `0x`/`0X` prefix selects radix 16,
      otherwise radix 10, and the longest run of digits that follows is read;
      `None` when that run is empty. */
  function Magnitude(u: string): Option<nat> {
    if |u| >= 2 && u[0] == '0' && (u[1] == 'x' || u[1] == 'X') then RunValue(u[2..], 16)
    else RunValue(u, 10)
  }

  /** `parseInt(s)`: skip leading whitespace, read an optional sign, then the
      magnitude; `None` is `NaN`. */
  function ParseInt(s: string): Option<int> {
    var t := TrimStart(s);
    if |t| > 0 && t[0] == '-' then
      (match Magnitude(t[1..]) case None => None case Some(v) => Some(-(v as int)))
    else if |t| > 0 && t[0] == '+' then
      (match Magnitude(t[1..]) case None => None case Some(v) => Some(v as int))
    else
      (match Magnitude(t) case None => None case Some(v) => Some(v as int))
  }

  /** `parseInt(s) || 0`: `NaN` (and zero) give 0. */
  function ParseIntOrZero(s: string): int {
    ParseInt(s).GetOr(0)
  }

  lemma {:induction false} NatToStringValue(n: nat)
    ensures AllDigits(NatToString(n), 10) && DigitsValue(NatToString(n), 10) == n
    decreases n
  {
    var s := NatToString(n);
    if n >= 10 {
      NatToStringValue(n / 10);
      assert s[..|s| - 1] == NatToString(n / 10);
    }
  }

  lemma {:induction false} DigitRunAll(s: string, radix: nat)
    requires AllDigits(s, radix)
    ensures DigitRun(s, radix) == s
    decreases |s|
  {
    if s != [] {
      DigitRunAll(s[1..], radix);
      assert s == [s[0]] + s[1..];
    }
  }

  /** A digit is neither whitespace nor a sign. */
  lemma DigitNotBlank(c: char)
    requires IsDigit(c)
    ensures !IsWhitespace(c) && c != '-' && c != '+' && c != 'x' && c != 'X'
  {
  }

  /** A decimal digit is a digit of radix 10. */
  lemma DigitOfDecimal(c: char)
    requires IsDigit(c)
    ensures DigitValue(c, 10) == Some(c as int - '0' as int)
  {
  }

  /** A decimal numeral's magnitude is its value. */
  lemma MagnitudeDecimal(u: string)
    requires |u| >= 1 && forall i :: 0 <= i < |u| ==> IsDigit(u[i])
    ensures AllDigits(u, 10) && Magnitude(u) == Some(DigitsValue(u, 10))
  {
    forall i | 0 <= i < |u| ensures DigitValue(u[i], 10).Some? {
      DigitOfDecimal(u[i]);
    }
    assert !(|u| >= 2 && u[0] == '0' && (u[1] == 'x' || u[1] == 'X')) by {
      if |u| >= 2 {
        DigitNotBlank(u[1]);
      }
    }
    DigitRunAll(u, 10);
  }

  /** The decimal text of a natural number has that number as its magnitude. */
  lemma MagnitudeOfNat(n: nat)
    ensures Magnitude(NatToString(n)) == Some(n)
  {
    NatToStringValue(n);
    MagnitudeDecimal(NatToString(n));
  }

  /** Text that starts with a non-whitespace character is its own TrimStart. */
  lemma TrimStartNoop(s: string)
    requires |s| > 0 && !IsWhitespace(s[0])
    ensures TrimStart(s) == s
  {
  }

  /** Text that starts with a minus sign reads as the negated magnitude of
      the rest, when the rest has one. */
  lemma ParseMinus(s: string, m: nat)
    requires |s| > 0 && s[0] == '-' && Magnitude(s[1..]) == Some(m)
    ensures ParseInt(s) == Some(-(m as int))
  {
    TrimStartNoop(s);
  }

  /** Text that starts with a digit reads as its magnitude. */
  lemma ParseUnsigned(s: string, m: nat)
    requires |s| > 0 && IsDigit(s[0]) && Magnitude(s) == Some(m)
    ensures ParseInt(s) == Some(m as int)
  {
    DigitNotBlank(s[0]);
    TrimStartNoop(s);
  }

  /** `parseInt` reads back the decimal text of every integer. */
  lemma ParseIntToString(n: int)
    ensures ParseInt(IntToString(n)) == Some(n)
    ensures ParseIntOrZero(IntToString(n)) == n
  {
    if n < 0 {
      var m: nat := -n;
      var u := NatToString(m);
      var s := "-" + u;
      assert IntToString(n) == s;
      assert s[0] == '-' && s[1..] == u;
      MagnitudeOfNat(m);
      ParseMinus(s, m);
    } else {
      var u := NatToString(n);
      MagnitudeOfNat(n);
      ParseUnsigned(u, n);
    }
  }
}
