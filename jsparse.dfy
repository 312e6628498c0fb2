/**
 * `parseInt` on the strings the modelled code feeds it: leading white space, an
 * optional sign, then the longest run of ASCII digits; NaN (None) when no digit
 * follows. Without a radix argument a `0x` or `0X` after the sign switches to
 * hexadecimal digits. `parseFloat` for plain decimals.
 */
module JsParse {
  import opened Wrappers
  import opened JsText
  import opened JsNum

  /** The value of a run of decimal digits. */
  function DigitsValue(s: string): (n: nat)
    requires forall i :: 0 <= i < |s| ==> IsDigit(s[i])
  {
    if s == [] then 0
    else
      assert IsDigit(s[|s| - 1]);
      DigitsValue(s[..|s| - 1]) * 10 + (s[|s| - 1] as int - '0' as int)
  }

  /** What follows an optional leading sign. */
  function Unsigned(t: string): string {
    if t != [] && (t[0] == '-' || t[0] == '+') then t[1..] else t
  }

  /** `parseInt(s, 10)`; None stands for NaN. */
  function ParseInt(s: string): (r: Option<int>)
    ensures r.Some? <==> LeadingDigits(Unsigned(TrimStart(s))) > 0
  {
    var t := TrimStart(s);
    var u := Unsigned(t);
    var n := LeadingDigits(u);
    LeadingDigitsShape(u);
    if n == 0 then None
    else
      var v: int := DigitsValue(u[..n]);
      Some(if t[0] == '-' then -v else v)
  }

  lemma {:induction false} DecimalStringValue(n: nat)
    ensures DigitsValue(DecimalString(n)) == n
    decreases n
  {
    if n >= 10 {
      DecimalStringValue(n / 10);
      var s := DecimalString(n / 10) + [('0' as int + n % 10) as char];
      assert s[..|s| - 1] == DecimalString(n / 10);
    }
  }

  lemma {:induction false} AllDigitsLeading(s: string)
    requires forall i :: 0 <= i < |s| ==> IsDigit(s[i])
    ensures LeadingDigits(s) == |s|
  {
    if s != [] {
      AllDigitsLeading(s[1..]);
    }
  }

  /** A string that starts with a digit has no leading white space to skip. */
  lemma TrimStartOfDigits(s: string)
    requires s != [] && IsDigit(s[0])
    ensures TrimStart(s) == s
  {
  }

  /** `parseInt` reads back the decimal spelling of every natural number. */
  lemma ParseDecimal(n: nat)
    ensures ParseInt(DecimalString(n)) == Some(n)
  {
    var s := DecimalString(n);
    TrimStartOfDigits(s);
    AllDigitsLeading(s);
    DecimalStringValue(n);
    assert s[..|s|] == s;
  }

  /** Everything after the digits is ignored: "95 students" and "95" both read 95. */
  lemma {:induction false} LeadingDigitsOfConcat(s: string, rest: string)
    requires forall i :: 0 <= i < |s| ==> IsDigit(s[i])
    requires rest == [] || !IsDigit(rest[0])
    ensures LeadingDigits(s + rest) == |s|
  {
    if s != [] {
      assert (s + rest)[1..] == s[1..] + rest;
      LeadingDigitsOfConcat(s[1..], rest);
    }
  }

  lemma ParseDecimalPrefix(n: nat, rest: string)
    requires rest == [] || !IsDigit(rest[0])
    ensures ParseInt(DecimalString(n) + rest) == Some(n)
  {
    var s := DecimalString(n);
    TrimStartOfDigits(s + rest);
    LeadingDigitsOfConcat(s, rest);
    DecimalStringValue(n);
    assert (s + rest)[..|s|] == s;
  }

  /** An ASCII hexadecimal digit, in either case. */
  predicate IsHexDigit(c: char) {
    IsDigit(c) || 'a' <= c <= 'f' || 'A' <= c <= 'F'
  }

  function HexDigitValue(c: char): (v: nat)
    requires IsHexDigit(c)
    ensures v < 16
  {
    if IsDigit(c) then c as int - '0' as int
    else if 'a' <= c <= 'f' then c as int - 'a' as int + 10
    else c as int - 'A' as int + 10
  }

  /** The value of a run of hexadecimal digits. */
  function HexValue(s: string): nat
    requires forall i :: 0 <= i < |s| ==> IsHexDigit(s[i])
  {
    if s == [] then 0
    else HexValue(s[..|s| - 1]) * 16 + HexDigitValue(s[|s| - 1])
  }

  /** The length of the longest prefix of hexadecimal digits. */
  function LeadingHexDigits(s: string): (n: nat)
    ensures n <= |s|
  {
    if s != [] && IsHexDigit(s[0]) then 1 + LeadingHexDigits(s[1..]) else 0
  }

  lemma {:induction false} LeadingHexDigitsShape(s: string)
    ensures var n := LeadingHexDigits(s);
      (forall i :: 0 <= i < n ==> IsHexDigit(s[i])) && (n == |s| || !IsHexDigit(s[n]))
  {
    if s != [] && IsHexDigit(s[0]) {
      LeadingHexDigitsShape(s[1..]);
    }
  }

  /** The text after the sign starts with `0x` or `0X`. */
  predicate HexPrefixed(u: string) {
    |u| >= 2 && u[0] == '0' && (u[1] == 'x' || u[1] == 'X')
  }

  /**
   * `parseInt(s)` with no radix argument: as `parseInt(s, 10)`, except that a
   * `0x` or `0X` after the sign is followed by hexadecimal digits, NaN when
   * there are none.
   */
  function ParseIntNoRadix(s: string): (r: Option<int>)
    ensures var u := Unsigned(TrimStart(s));
      && (!HexPrefixed(u) ==> r == ParseInt(s))
      && (HexPrefixed(u) ==> (r.Some? <==> LeadingHexDigits(u[2..]) > 0))
  {
    var t := TrimStart(s);
    var u := Unsigned(t);
    if !HexPrefixed(u) then ParseInt(s)
    else
      var h := u[2..];
      var n := LeadingHexDigits(h);
      LeadingHexDigitsShape(h);
      if n == 0 then None
      else
        var v: int := HexValue(h[..n]);
        Some(if t[0] == '-' then -v else v)
  }

  /** "0x10" reads 16 and "0x" reads NaN, where `parseInt(s, 10)` reads 0 for both. */
  lemma HexExamples(a: string, b: string)
    requires a == "0x10" && b == "0x"
    ensures ParseIntNoRadix(a) == Some(16) && ParseInt(a) == Some(0)
    ensures ParseIntNoRadix(b) == None && ParseInt(b) == Some(0)
  {
    assert TrimStart(a) == a && TrimStart(b) == b;
    assert Unsigned(a) == a && Unsigned(b) == b;
    assert LeadingDigits(a) == 1 && LeadingDigits(b) == 1;
    assert a[..1] == "0" && b[..1] == "0";
    assert DigitsValue("0") == 0 by {
      assert "0"[..0] == [];
    }
    assert b[2..] == [];
    assert a[2..] == "10";
    assert LeadingHexDigits("10") == 2;
    assert "10"[..2] == "10";
    assert HexValue("10") == 16 by {
      assert "10"[..1] == "1";
      assert "1"[..0] == [];
    }
  }

  /** The decimal spelling of a number is always read in decimal: it never starts with `0x`. */
  lemma DecimalNotHex(n: nat, rest: string)
    requires rest == [] || !IsDigit(rest[0])
    requires n != 0
    ensures !HexPrefixed(DecimalString(n) + rest)
  {
    var s := DecimalString(n);
    if n >= 10 {
      assert |DecimalString(n / 10)| >= 1;
      assert (s + rest)[1] == s[1];
    }
  }

  /**
   * Without a radix, the decimal spelling of a number is read back whatever
   * non-digit text follows it, except a 0 followed by `x` or `X`.
   */
  lemma ParseNoRadixDecimal(n: nat, rest: string)
    requires rest == [] || !IsDigit(rest[0])
    requires n != 0 || rest == [] || (rest[0] != 'x' && rest[0] != 'X')
    ensures ParseIntNoRadix(DecimalString(n) + rest) == Some(n)
  {
    var s := DecimalString(n) + rest;
    TrimStartOfDigits(s);
    if n != 0 {
      DecimalNotHex(n, rest);
    } else if rest != [] {
      assert s[1] == rest[0];
    }
    ParseDecimalPrefix(n, rest);
  }

  function Pow10(n: nat): (p: nat)
    ensures p >= 1
  {
    if n == 0 then 1 else 10 * Pow10(n - 1)
  }

  /** The digits of a fraction: those after a leading '.', if any. */
  function FractionDigits(rest: string): (f: string)
    ensures forall i :: 0 <= i < |f| ==> IsDigit(f[i])
  {
    if rest != [] && rest[0] == '.' then
      LeadingDigitsShape(rest[1..]);
      rest[1..][..LeadingDigits(rest[1..])]
    else []
  }

  /**
   * `parseFloat(s)` for plain decimals: leading white space, an optional sign,
   * digits with an optional fraction, or a signed "Infinity". NaN when neither
   * the integer part nor the fraction has a digit. Exponents are not read.
   */
  function ParseFloat(s: string): (r: Num)
    ensures var u := Unsigned(TrimStart(s));
      r == NaN <==> !StartsWith(u, "Infinity") && LeadingDigits(u) == 0 && FractionDigits(u) == []
  {
    var t := TrimStart(s);
    var u := Unsigned(t);
    var negative := t != [] && t[0] == '-';
    if StartsWith(u, "Infinity") then (if negative then NegInf else PosInf)
    else
      var n := LeadingDigits(u);
      var f := FractionDigits(u[n..]);
      LeadingDigitsShape(u);
      if n == 0 && f == [] then NaN
      else
        var v := DigitsValue(u[..n]) as real + DigitsValue(f) as real / Pow10(|f|) as real;
        Fin(if negative then -v else v)
  }

  /** A string that starts with a digit does not spell "Infinity". */
  lemma DigitNotInfinity(s: string)
    requires s != [] && IsDigit(s[0])
    ensures !StartsWith(s, "Infinity")
  {
    if |s| >= 8 {
      assert s[0] == s[..8][0];
    }
  }

  /** `parseFloat` reads back the decimal spelling of every natural number. */
  lemma ParseFloatDecimal(n: nat)
    ensures ParseFloat(DecimalString(n)) == Fin(n as real)
  {
    var s := DecimalString(n);
    TrimStartOfDigits(s);
    assert Unsigned(TrimStart(s)) == s;
    DigitNotInfinity(s);
    AllDigitsLeading(s);
    assert s[|s|..] == [];
    assert FractionDigits(s[|s|..]) == [];
    DecimalStringValue(n);
    assert s[..|s|] == s;
  }
}
