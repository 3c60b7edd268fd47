/**
 * The few .NET library behaviours the configuration codec and the palette rely on:
 * `string.IsNullOrEmpty`, `string.StartsWith`, `string.ToLower`, `char.IsUpper`,
 * `bool.ToString().ToLower()`, and `int.ToString()` / `int.TryParse` for 32-bit integers.
 * Characters are treated as ASCII: lower-casing and upper-case tests only know 'A'..'Z'.
 */
module DotNet {
  import opened Wrappers

  /** A C# `int`. */
  type Int32 = x: int | -0x8000_0000 <= x < 0x8000_0000

  predicate IsNullOrEmpty(s: Option<string>) {
    s.None? || s.value == ""
  }

  predicate StartsWith(s: string, prefix: string) {
    |prefix| <= |s| && s[..|prefix|] == prefix
  }

  predicate IsUpper(c: char) {
    'A' <= c <= 'Z'
  }

  function ToLowerChar(c: char): char {
    if IsUpper(c) then (c as int + 32) as char else c
  }

  function ToLower(s: string): string {
    seq(|s|, i requires 0 <= i < |s| => ToLowerChar(s[i]))
  }

  /** `b.ToString().ToLower()` */
  function BoolLiteral(b: bool): string {
    if b then "true" else "false"
  }

  // ---------------------------------------------------------------------------
  // int.ToString()

  predicate IsDigit(c: char) {
    '0' <= c <= '9'
  }

  function DigitChar(d: int): (c: char)
    requires 0 <= d < 10
    ensures IsDigit(c)
  {
    (d + '0' as int) as char
  }

  function DigitValue(c: char): int {
    c as int - '0' as int
  }

  /** Decimal digits of `n`, most significant first, without leading zeros. */
  function NatToString(n: nat): string {
    if n < 10 then [DigitChar(n)] else NatToString(n / 10) + [DigitChar(n % 10)]
  }

  /** `n.ToString()` in the invariant culture. */
  function IntToString(n: int): string {
    if n < 0 then "-" + NatToString(-n) else NatToString(n)
  }

  // ---------------------------------------------------------------------------
  // int.TryParse(s, out n), default NumberStyles.Integer: leading and trailing
  // white space, one optional leading sign, then at least one decimal digit.

  predicate IsWhite(c: char) {
    c == ' ' || '\t' <= c <= '\r'
  }

  function TrimStart(s: string): string {
    if s != [] && IsWhite(s[0]) then TrimStart(s[1..]) else s
  }

  function TrimEnd(s: string): string {
    if s != [] && IsWhite(s[|s| - 1]) then TrimEnd(s[..|s| - 1]) else s
  }

  predicate AllDigits(s: string) {
    forall i :: 0 <= i < |s| ==> IsDigit(s[i])
  }

  /** The value of a string of decimal digits, read left to right. */
  function DigitsValue(s: string): nat
    requires AllDigits(s)
  {
    if s == [] then 0 else DigitsValue(s[..|s| - 1]) * 10 + DigitValue(s[|s| - 1])
  }

  function TryParseInt(s: string): Option<Int32> {
    var t := TrimStart(TrimEnd(s));
    var negative := t != [] && t[0] == '-';
    var digits := if t != [] && (t[0] == '-' || t[0] == '+') then t[1..] else t;
    if digits == [] || !AllDigits(digits) then None
    else
      var v: int := if negative then -(DigitsValue(digits) as int) else DigitsValue(digits);
      if -0x8000_0000 <= v < 0x8000_0000 then Some(v) else None
  }

  lemma {:induction false} NatToStringDigits(n: nat)
    ensures NatToString(n) != [] && AllDigits(NatToString(n))
    ensures DigitsValue(NatToString(n)) == n
  {
    if n >= 10 {
      NatToStringDigits(n / 10);
      var s := NatToString(n);
      assert s[..|s| - 1] == NatToString(n / 10);
    }
  }

  /** Formatting an `int` and parsing it back gives the same `int`. */
  lemma ParseFormatInt(n: Int32)
    ensures IntToString(n) != ""
    ensures TryParseInt(IntToString(n)) == Some(n)
  {
    var m: nat := if n < 0 then -(n as int) else n;
    NatToStringDigits(m);
    var s := IntToString(n);
    assert s[|s| - 1] == NatToString(m)[|NatToString(m)| - 1];
    assert TrimEnd(s) == s;
    assert TrimStart(s) == s;
    if n < 0 {
      assert s[1..] == NatToString(m);
    }
  }

  /** A string without upper-case letters is its own lower-case form. */
  lemma ToLowerNoUpper(s: string)
    requires forall i :: 0 <= i < |s| ==> !IsUpper(s[i])
    ensures ToLower(s) == s
  {
  }

  /** The boolean literals are already lower-case, and only "true" lower-cases to "true". */
  lemma BoolLiteralLower(b: bool)
    ensures ToLower(BoolLiteral(b)) == BoolLiteral(b)
    ensures (ToLower(BoolLiteral(b)) == "true") == b
  {
    ToLowerNoUpper(BoolLiteral(b));
    if !b {
      assert BoolLiteral(b)[0] == 'f';
    }
  }

  lemma StartsWithConcat(prefix: string, rest: string)
    ensures StartsWith(prefix + rest, prefix)
  {
    assert (prefix + rest)[..|prefix|] == prefix;
  }
}
