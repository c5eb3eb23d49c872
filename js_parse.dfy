/** JavaScript's global `parseInt(string)` with no radix argument, which the
    controllers apply to path ids and the estimate query applies to `year`
    and `mileage`, and `parseFloat`, which the estimate query applies to
    `lng` and `lat`. NaN is `None`. */
module JsParse {
  import opened Common

  /** The white space and line terminators both parsers skip first: tab,
      vertical tab, form feed, line feed, carriage return, the byte order
      mark, and every space separator of Unicode category Zs. */
  predicate IsSpace(c: char) {
    || c == '\t' || c == '\n' || c == '\U{000B}' || c == '\U{000C}' || c == '\r'
    || c == ' ' || c == '\U{00A0}' || c == '\U{1680}' || '\U{2000}' <= c <= '\U{200A}'
    || c == '\U{2028}' || c == '\U{2029}' || c == '\U{202F}' || c == '\U{205F}'
    || c == '\U{3000}' || c == '\U{FEFF}'
  }

  predicate IsDecimalDigit(c: char) {
    '0' <= c <= '9'
  }

  predicate IsHexDigit(c: char) {
    IsDecimalDigit(c) || 'a' <= c <= 'f' || 'A' <= c <= 'F'
  }

  function DigitValue(c: char): (d: nat)
    requires IsHexDigit(c)
    ensures d < 16
    ensures IsDecimalDigit(c) <==> d < 10
  {
    if IsDecimalDigit(c) then c as nat - '0' as nat
    else if 'a' <= c <= 'f' then c as nat - 'a' as nat + 10
    else c as nat - 'A' as nat + 10
  }

  /** The input with its leading white space removed. */
  function TrimStart(s: string): (t: string)
    ensures |t| <= |s| && t == s[|s| - |t|..]
    ensures t == [] || !IsSpace(t[0])
    ensures s == [] || !IsSpace(s[0]) ==> t == s
  {
    if s != [] && IsSpace(s[0]) then TrimStart(s[1..]) else s
  }

  /** The longest prefix of `s` made of digits of the given radix. */
  function DigitPrefix(s: string, hex: bool): (d: string)
    ensures |d| <= |s| && d == s[..|d|]
    ensures forall i :: 0 <= i < |d| ==> IsHexDigit(d[i]) && (hex || IsDecimalDigit(d[i]))
    ensures |d| < |s| ==> !(if hex then IsHexDigit(s[|d|]) else IsDecimalDigit(s[|d|]))
  {
    if s != [] && (if hex then IsHexDigit(s[0]) else IsDecimalDigit(s[0]))
    then [s[0]] + DigitPrefix(s[1..], hex)
    else []
  }

  /** The value of a digit string, most significant digit first. */
  function DigitsValue(d: string, radix: nat): nat
    requires radix == 10 || radix == 16
    requires forall i :: 0 <= i < |d| ==> IsHexDigit(d[i]) && DigitValue(d[i]) < radix
  {
    if d == [] then 0
    else DigitsValue(d[..|d| - 1], radix) * radix + DigitValue(d[|d| - 1])
  }

  /** The value of the longest digit prefix of `u`, or NaN when there is none. */
  function LeadingDigits(u: string, radix: nat): (r: Option<nat>)
    requires radix == 10 || radix == 16
  {
    var d := DigitPrefix(u, radix == 16);
    if d == [] then None else Some(DigitsValue(d, radix))
  }

  /** The unsigned part of `parseInt`: a `0x`/`0X` prefix selects radix 16. */
  function ParseMagnitude(u: string): Option<nat> {
    if |u| >= 2 && u[0] == '0' && (u[1] == 'x' || u[1] == 'X') then LeadingDigits(u[2..], 16)
    else LeadingDigits(u, 10)
  }

  /** The text after an optional leading sign. */
  function Unsigned(t: string): string {
    if t != [] && (t[0] == '-' || t[0] == '+') then t[1..] else t
  }

  predicate IsNegative(t: string) {
    t != [] && t[0] == '-'
  }

  /** Text that starts with a digit has no white space and no sign to skip. */
  lemma DigitTextUnsigned(u: string)
    requires u != [] && IsDecimalDigit(u[0])
    ensures TrimStart(u) == u && Unsigned(u) == u && !IsNegative(u)
  {
    assert !IsSpace(u[0]);
  }

  /** Text that starts with `-` has no white space to skip and is negative. */
  lemma MinusTextNegative(u: string)
    ensures TrimStart("-" + u) == "-" + u && Unsigned("-" + u) == u && IsNegative("-" + u)
  {
    assert ("-" + u)[1..] == u;
  }

  /** `parseInt(s)`: skip leading white space, read an optional sign, then
      the longest run of digits; anything after it is ignored. No digit at
      all gives NaN. */
  function ParseInt(s: string): Option<int> {
    var t := TrimStart(s);
    match ParseMagnitude(Unsigned(t))
    case None => None
    case Some(m) =>
      var value: int := if IsNegative(t) then -(m as int) else m;
      Some(value)
  }

  /** JavaScript truthiness of a number produced by `parseInt`: 0 and NaN are falsy. */
  predicate Truthy(n: Option<int>) {
    n.Some? && n.value != 0
  }

  /** Decimal text of a natural number, as `String(n)` writes it. */
  function NatToString(n: nat): (s: string)
    ensures s != [] && forall i :: 0 <= i < |s| ==> IsDecimalDigit(s[i])
    ensures s[0] == '0' ==> n == 0
  {
    var last := ['0' + (n % 10) as char];
    if n < 10 then last else NatToString(n / 10) + last
  }

  /** Decimal text of an integer, as `String(n)` writes it. */
  function IntToString(n: int): string {
    if n < 0 then "-" + NatToString(-n) else NatToString(n)
  }

  lemma {:induction false} NatToStringValue(n: nat)
    ensures DigitsValue(NatToString(n), 10) == n
  {
    var s := NatToString(n);
    if n >= 10 {
      NatToStringValue(n / 10);
      assert s[..|s| - 1] == NatToString(n / 10);
    }
  }

  lemma {:induction false} DigitPrefixOfDigits(s: string, rest: string)
    requires forall i :: 0 <= i < |s| ==> IsDecimalDigit(s[i])
    requires rest == [] || !IsDecimalDigit(rest[0])
    ensures DigitPrefix(s + rest, false) == s
  {
    if s != [] {
      assert (s + rest)[1..] == s[1..] + rest;
      DigitPrefixOfDigits(s[1..], rest);
    } else {
      assert s + rest == rest;
    }
  }

  /** A decimal digit string followed by a non-digit is read as that number,
      unless it is the `0x` prefix of a hexadecimal literal. */
  lemma ParseMagnitudeDecimal(n: nat, rest: string)
    requires rest == [] || (!IsDecimalDigit(rest[0]) && rest[0] != 'x' && rest[0] != 'X')
    ensures ParseMagnitude(NatToString(n) + rest) == Some(n)
  {
    var digits := NatToString(n);
    var u := digits + rest;
    DigitPrefixOfDigits(digits, rest);
    NatToStringValue(n);
    if |u| >= 2 && u[0] == '0' {
      assert digits == "0";
      assert u[1] == rest[0];
    }
  }

  /** `parseInt` reads back exactly the integer that `String` wrote. */
  lemma ParseIntRoundTrip(n: int)
    ensures ParseInt(IntToString(n)) == Some(n)
  {
    var m: nat := if n < 0 then -n else n;
    var digits := NatToString(m);
    ParseMagnitudeDecimal(m, []);
    assert digits + [] == digits;
    if n < 0 {
      MinusTextNegative(digits);
    } else {
      DigitTextUnsigned(digits);
    }
  }

  /** Only the leading run of digits counts: `parseInt("12abc")` is 12. */
  lemma ParseIntIgnoresSuffix(n: nat, rest: string)
    requires rest == [] || (!IsDecimalDigit(rest[0]) && rest[0] != 'x' && rest[0] != 'X')
    ensures ParseInt(NatToString(n) + rest) == Some(n)
  {
    ParseMagnitudeDecimal(n, rest);
    var s := NatToString(n) + rest;
    assert s[0] == NatToString(n)[0];
    DigitTextUnsigned(s);
  }

  function Pow10(n: nat): (p: nat)
    ensures p >= 1
  {
    if n == 0 then 1 else 10 * Pow10(n - 1)
  }

  /** The unsigned part of `parseFloat`: digits, then an optional `.` and
      the digits after it. */
  function DecimalMagnitude(u: string): Option<real> {
    var whole := DigitPrefix(u, false);
    var rest := u[|whole|..];
    var fraction := if rest != [] && rest[0] == '.' then DigitPrefix(rest[1..], false) else [];
    if whole == [] && fraction == [] then None
    else Some(DigitsValue(whole, 10) as real + DigitsValue(fraction, 10) as real / Pow10(|fraction|) as real)
  }

  /** `parseFloat(s)` on text in plain decimal notation: skip leading white
      space, read an optional sign, the longest run of digits, then an
      optional `.` and the digits after it; anything after that is ignored.
      No digit on either side of the point gives NaN. */
  function ParseFloat(s: string): Option<real> {
    var t := TrimStart(s);
    match DecimalMagnitude(Unsigned(t))
    case None => None
    case Some(m) => Some(if IsNegative(t) then -m else m)
  }

  lemma DecimalMagnitudeOfNat(m: nat)
    ensures DecimalMagnitude(NatToString(m)) == Some(m as real)
  {
    var digits := NatToString(m);
    DigitPrefixOfDigits(digits, []);
    assert digits + [] == digits;
    NatToStringValue(m);
    assert digits[|digits|..] == [];
  }

  /** `parseFloat` reads back exactly the integer that `String` wrote. */
  lemma ParseFloatOfInteger(n: int)
    ensures ParseFloat(IntToString(n)) == Some(n as real)
  {
    var m: nat := if n < 0 then -n else n;
    DecimalMagnitudeOfNat(m);
    if n < 0 {
      MinusTextNegative(NatToString(m));
    } else {
      DigitTextUnsigned(NatToString(m));
    }
  }
}
