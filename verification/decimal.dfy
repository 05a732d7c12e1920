/** Fixed-width integers and their decimal text form: C#'s `int`/`long`
    ranges, the unchecked narrowing `(int)x` and `x + 1` overflow, `Int32.ToString()`
    and `int.TryParse`, all with the invariant culture (sign '-', ASCII digits). */
module Decimal {
  import opened Wrappers

  const Int32Min: int := -0x8000_0000
  const Int32Max: int := 0x7FFF_FFFF
  const Int64Min: int := -0x8000_0000_0000_0000
  const Int64Max: int := 0x7FFF_FFFF_FFFF_FFFF

  type Int32 = x: int | Int32Min <= x <= Int32Max
  type Int64 = x: int | Int64Min <= x <= Int64Max

  /** Unchecked narrowing to a 32-bit `int` (`(int)x`, or the result of an
      overflowing `int` addition): the value in range congruent to `x`
      modulo 2^32. */
  function Wrap32(x: int): (r: Int32)
    ensures (r - x) % 0x1_0000_0000 == 0
    ensures Int32Min <= x <= Int32Max ==> r == x
  {
    var m := x % 0x1_0000_0000;
    if m > Int32Max then m - 0x1_0000_0000 else m
  }

  predicate IsDigit(c: char) {
    '0' <= c <= '9'
  }

  function DigitChar(d: nat): (c: char)
    requires d < 10
    ensures IsDigit(c)
  {
    ('0' as int + d) as char
  }

  function DigitValue(c: char): (d: nat)
    requires IsDigit(c)
    ensures d < 10 && DigitChar(d) == c
  {
    c as int - '0' as int
  }

  predicate AllDigits(s: string) {
    forall i :: 0 <= i < |s| ==> IsDigit(s[i])
  }

  /** The shortest decimal rendering of a natural number. */
  function NatToString(n: nat): (s: string)
    ensures |s| >= 1 && AllDigits(s)
    ensures s[0] == '0' ==> n == 0
  {
    if n < 10 then [DigitChar(n)] else NatToString(n / 10) + [DigitChar(n % 10)]
  }

  /** `Int32.ToString()` / `Int64.ToString()`: an optional '-' and the digits. */
  function IntToString(x: int): (s: string)
    ensures |s| >= 1
    ensures forall i :: 0 <= i < |s| ==> IsDigit(s[i]) || (i == 0 && s[i] == '-')
    ensures s[0] == '-' <==> x < 0
  {
    if x < 0 then "-" + NatToString(-x) else NatToString(x)
  }

  /** The value of a string of digits. */
  function DigitsValue(s: string): nat
    requires AllDigits(s)
  {
    if |s| == 0 then 0 else 10 * DigitsValue(s[..|s| - 1]) + DigitValue(s[|s| - 1])
  }

  lemma {:induction false} DigitsValueOfNatToString(n: nat)
    ensures DigitsValue(NatToString(n)) == n
  {
    if n >= 10 {
      var s := NatToString(n);
      assert s[..|s| - 1] == NatToString(n / 10);
      DigitsValueOfNatToString(n / 10);
    }
  }

  /** The white space `NumberStyles.Integer` lets through around a number:
      U+0009..U+000D and U+0020. */
  predicate IsNumberWhite(c: char) {
    c == ' ' || ('\t' <= c <= '\r')
  }

  /** The number of leading ASCII digits. */
  function DigitRun(s: string): (n: nat)
    ensures n <= |s| && AllDigits(s[..n])
    ensures n == |s| || !IsDigit(s[n])
  {
    if |s| == 0 || !IsDigit(s[0]) then 0
    else
      var k := DigitRun(s[1..]);
      assert s[..1 + k] == [s[0]] + s[1..][..k];
      1 + k
  }

  /** The number of leading `IsNumberWhite` characters. */
  function NumberWhiteRun(s: string): (n: nat)
    ensures n <= |s|
    ensures n == |s| || !IsNumberWhite(s[n])
  {
    if |s| == 0 || !IsNumberWhite(s[0]) then 0 else 1 + NumberWhiteRun(s[1..])
  }

  function SkipNumberWhite(s: string): string {
    s[NumberWhiteRun(s)..]
  }

  predicate AllNul(s: string) {
    forall i :: 0 <= i < |s| ==> s[i] == '\0'
  }

  /** The value of a digits-and-trailer string once the sign is gone. */
  function ParseMagnitude(b: string): Option<nat> {
    var n := DigitRun(b);
    if n == 0 || !AllNul(SkipNumberWhite(b[n..])) then None else Some(DigitsValue(b[..n]))
  }

  /** `int.TryParse(s, out v)` with `NumberStyles.Integer` and the invariant
      culture: optional white space, an optional '+' or '-', at least one
      ASCII digit, optional white space, then only trailing NUL characters,
      and the value must fit in 32 bits. */
  function TryParseInt32(s: string): Option<Int32> {
    var a := SkipNumberWhite(s);
    var negative := |a| > 0 && a[0] == '-';
    var b := if |a| > 0 && (a[0] == '-' || a[0] == '+') then a[1..] else a;
    match ParseMagnitude(b)
    case None => None
    case Some(m) =>
      var v: int := if negative then -(m as int) else m;
      if Int32Min <= v <= Int32Max then Some(v) else None
  }

  lemma {:induction false} DigitRunOfDigits(s: string)
    requires AllDigits(s)
    ensures DigitRun(s) == |s|
  {
    if |s| > 0 {
      DigitRunOfDigits(s[1..]);
    }
  }

  lemma ParseMagnitudeOfDigits(b: string)
    requires |b| > 0 && AllDigits(b)
    ensures ParseMagnitude(b) == Some(DigitsValue(b))
  {
    DigitRunOfDigits(b);
    assert b[..|b|] == b;
    assert b[|b|..] == [];
  }

  /** A string that starts with a digit has no leading white space to skip. */
  lemma SkipNothingBeforeDigit(s: string)
    requires |s| > 0 && IsDigit(s[0])
    ensures SkipNumberWhite(s) == s
  {
    assert NumberWhiteRun(s) == 0;
  }

  /** The digits of a natural number parse back to it. */
  lemma ParseNatRendering(n: nat)
    ensures ParseMagnitude(NatToString(n)) == Some(n)
  {
    ParseMagnitudeOfDigits(NatToString(n));
    DigitsValueOfNatToString(n);
  }

  /** Parsing the rendering of a 32-bit integer gives the integer back. */
  lemma ParseRendering(x: Int32)
    ensures TryParseInt32(IntToString(x)) == Some(x)
  {
    var s := IntToString(x);
    if x < 0 {
      var digits := NatToString(-(x as int));
      assert s == "-" + digits;
      assert NumberWhiteRun(s) == 0;
      assert SkipNumberWhite(s) == s;
      assert s[1..] == digits;
      ParseNatRendering(-(x as int));
    } else {
      SkipNothingBeforeDigit(s);
      ParseNatRendering(x);
    }
  }
}
