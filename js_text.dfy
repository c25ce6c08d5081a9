/**
 * The handful of JavaScript string operations the application relies on, written out
 * over `string` (a sequence of Unicode scalar values): `trim`, `split` and `join` on a
 * separator, `startsWith`, `includes`, `toLowerCase` (restricted to a fixed table),
 * the UTF-16 length that zod's `.min`/`.max` measure, and decimal rendering of numbers.
 */
module JsText {
  import opened Wrappers

  /** The white-space and line-terminator characters of ECMAScript, used by `trim()` and by `\s`. */
  predicate IsJsWhitespace(c: char) {
    || c == '\t' || c == '\n' || c == '\U{000B}' || c == '\U{000C}' || c == '\r' || c == ' '
    || c == '\U{00A0}' || c == '\U{1680}' || ('\U{2000}' <= c <= '\U{200A}')
    || c == '\U{2028}' || c == '\U{2029}' || c == '\U{202F}' || c == '\U{205F}'
    || c == '\U{3000}' || c == '\U{FEFF}'
  }

  /** The characters a regex `.` does not match. */
  predicate IsLineTerminator(c: char) {
    c == '\n' || c == '\r' || c == '\U{2028}' || c == '\U{2029}'
  }

  predicate IsAsciiDigit(c: char) { '0' <= c <= '9' }
  predicate IsAsciiLower(c: char) { 'a' <= c <= 'z' }
  predicate IsAsciiUpper(c: char) { 'A' <= c <= 'Z' }

  /** `s.trimStart()`: drops the leading white space and nothing else. */
  function TrimStart(s: string): (r: string)
    ensures |r| <= |s| && r == s[|s| - |r|..]
    ensures forall i :: 0 <= i < |s| - |r| ==> IsJsWhitespace(s[i])
    ensures r == [] || !IsJsWhitespace(r[0])
  {
    if s != [] && IsJsWhitespace(s[0]) then
      var r := TrimStart(s[1..]);
      assert s[1..][|s| - 1 - |r|..] == s[|s| - |r|..];
      r
    else s
  }

  /** `s.trimEnd()`: drops the trailing white space and nothing else. */
  function TrimEnd(s: string): (r: string)
    ensures |r| <= |s| && r == s[..|r|]
    ensures forall i :: |r| <= i < |s| ==> IsJsWhitespace(s[i])
    ensures r == [] || !IsJsWhitespace(r[|r| - 1])
  {
    if s != [] && IsJsWhitespace(s[|s| - 1]) then
      var r := TrimEnd(s[..|s| - 1]);
      assert s[..|s| - 1][..|r|] == s[..|r|];
      r
    else s
  }

  /** `r` is `s` from position `a` on, up to a tail, with only white space before and after it. */
  predicate MiddleOf(s: string, r: string, a: int) {
    && 0 <= a <= |s| - |r| && r == s[a..a + |r|]
    && (forall i :: 0 <= i < a ==> IsJsWhitespace(s[i]))
    && (forall i :: a + |r| <= i < |s| ==> IsJsWhitespace(s[i]))
  }

  /** `s.trim()`: the middle of `s` left once the white space at both ends is dropped. */
  function Trim(s: string): (r: string)
    ensures |r| <= |s|
    ensures r == [] || (!IsJsWhitespace(r[0]) && !IsJsWhitespace(r[|r| - 1]))
  {
    var t := TrimStart(s);
    var r := TrimEnd(t);
    r
  }

  /** What trimming leaves is a piece of `s` with only white space before it and after it. */
  lemma TrimIsMiddle(s: string)
    ensures exists a :: MiddleOf(s, Trim(s), a)
  {
    var t := TrimStart(s);
    var r := TrimEnd(t);
    MiddleAfterBothEnds(s, t, r);
    assert r == Trim(s);
  }

  lemma MiddleAfterBothEnds(s: string, t: string, r: string)
    requires |t| <= |s| && t == s[|s| - |t|..] && forall i :: 0 <= i < |s| - |t| ==> IsJsWhitespace(s[i])
    requires |r| <= |t| && r == t[..|r|] && forall i :: |r| <= i < |t| ==> IsJsWhitespace(t[i])
    ensures MiddleOf(s, r, |s| - |t|)
  {
    var a := |s| - |t|;
    forall i | a + |r| <= i < |s| ensures IsJsWhitespace(s[i]) {
      assert s[i] == t[i - a];
    }
  }

  /** Trimming gives the empty text exactly when every character is white space. */
  lemma TrimEmptyIff(s: string)
    ensures (forall i :: 0 <= i < |s| ==> IsJsWhitespace(s[i])) <==> Trim(s) == []
  {
    var t := TrimStart(s);
    if t != [] {
      assert !IsJsWhitespace(s[|s| - |t|]);
    }
  }

  /** Trimming text that neither starts nor ends with white space leaves it as it is. */
  lemma TrimOfTrimmed(s: string)
    requires s == [] || (!IsJsWhitespace(s[0]) && !IsJsWhitespace(s[|s| - 1]))
    ensures Trim(s) == s
  {
  }

  /** Trimming only removes characters. */
  lemma TrimInside(s: string)
    ensures forall x :: x in Trim(s) ==> x in s
  {
    var t := TrimStart(s);
    assert t == s[|s| - |t|..];
    assert TrimEnd(t) == t[..|TrimEnd(t)|];
  }

  /** `s.startsWith(prefix)`. */
  predicate StartsWith(s: string, prefix: string) {
    |prefix| <= |s| && s[..|prefix|] == prefix
  }

  /** `hay.includes(needle)`: `needle` occurs somewhere in `hay`. */
  predicate Contains(hay: string, needle: string)
    decreases |hay|
  {
    StartsWith(hay, needle) || (hay != [] && Contains(hay[1..], needle))
  }

  /** `parts.join(sep)`. */
  function Join(parts: seq<string>, sep: string): string
  {
    if |parts| == 0 then []
    else if |parts| == 1 then parts[0]
    else parts[0] + sep + Join(parts[1..], sep)
  }

  /** `s.split(sep)` for a one-character separator: JavaScript keeps empty pieces, so the result is never empty. */
  function Split(s: string, sep: char): (parts: seq<string>)
    ensures |parts| >= 1
    ensures forall k :: 0 <= k < |parts| ==> sep !in parts[k]
    ensures Join(parts, [sep]) == s
  {
    if s == [] then [[]]
    else if s[0] == sep then
      var rest := Split(s[1..], sep);
      assert Join([[]] + rest, [sep]) == [sep] + Join(rest, [sep]) by {
        assert ([[]] + rest)[1..] == rest;
      }
      [[]] + rest
    else
      var rest := Split(s[1..], sep);
      var parts := [[s[0]] + rest[0]] + rest[1..];
      assert parts[1..] == rest[1..];
      assert s == [s[0]] + s[1..];
      parts
  }

  /** The text after the last `sep`, which is what `s.split(sep).pop()` returns. */
  function LastPiece(s: string, sep: char): (r: string)
    ensures sep !in r
  {
    var parts := Split(s, sep);
    parts[|parts| - 1]
  }

  lemma {:induction false} LastPieceAfterSeparator(a: string, b: string, sep: char)
    requires sep !in b
    ensures LastPiece(a + [sep] + b, sep) == b
  {
    SplitAppendPiece(a, b, sep);
  }

  lemma {:induction false} SplitAppendPiece(a: string, b: string, sep: char)
    requires sep !in b
    ensures var parts := Split(a + [sep] + b, sep); parts[|parts| - 1] == b
    decreases |a|
  {
    if a == [] {
      assert a + [sep] + b == [sep] + b;
      assert ([sep] + b)[1..] == b;
      SplitWithoutSeparator(b, sep);
    } else {
      assert (a + [sep] + b)[1..] == a[1..] + [sep] + b;
      SplitAppendPiece(a[1..], b, sep);
    }
  }

  lemma {:induction false} SplitWithoutSeparator(s: string, sep: char)
    requires sep !in s
    ensures Split(s, sep) == [s]
  {
    if s != [] {
      SplitWithoutSeparator(s[1..], sep);
      assert s == [s[0]] + s[1..];
    }
  }

  /** A piece without the separator, then the separator, splits off as the first piece. */
  lemma {:induction false} SplitPrefix(a: string, t: string, sep: char)
    requires sep !in a
    ensures Split(a + [sep] + t, sep) == [a] + Split(t, sep)
    decreases |a|
  {
    if a == [] {
      assert a + [sep] + t == [sep] + t;
      assert ([sep] + t)[1..] == t;
    } else {
      assert (a + [sep] + t)[1..] == a[1..] + [sep] + t;
      SplitPrefix(a[1..], t, sep);
      assert a == [a[0]] + a[1..];
    }
  }

  /** Splitting a join of separator-free pieces gives the pieces back. */
  lemma {:induction false} SplitJoin(parts: seq<string>, sep: char)
    requires |parts| >= 1 && forall k :: 0 <= k < |parts| ==> sep !in parts[k]
    ensures Split(Join(parts, [sep]), sep) == parts
  {
    if |parts| == 1 {
      SplitWithoutSeparator(parts[0], sep);
    } else {
      SplitJoin(parts[1..], sep);
      SplitPrefix(parts[0], Join(parts[1..], [sep]), sep);
      assert parts == [parts[0]] + parts[1..];
    }
  }

  /** `s.replace(c, '')` with a one-character string pattern: only the first occurrence is removed. */
  function RemoveFirst(s: string, c: char): (r: string)
    ensures c in s ==> |r| == |s| - 1
    ensures c !in s ==> r == s
  {
    if s == [] then []
    else if s[0] == c then s[1..]
    else [s[0]] + RemoveFirst(s[1..], c)
  }

  /**
   * `toLowerCase()` on one character, restricted to the letters this model knows:
   * ASCII `A`-`Z` and the Latin-1 capitals U+00C0-U+00DE except the multiplication sign.
   */
  function ToLowerChar(c: char): char {
    if IsAsciiUpper(c) || ('\U{00C0}' <= c <= '\U{00DE}' && c != '\U{00D7}') then
      (c as int + 32) as char
    else c
  }

  /** `toLowerCase()` on a string, character by character. */
  function ToLower(s: string): string {
    seq(|s|, i requires 0 <= i < |s| => ToLowerChar(s[i]))
  }

  /** The `.length` JavaScript reports: characters outside the Basic Multilingual Plane count twice. */
  function Utf16Length(s: string): nat {
    if s == [] then 0 else (if s[0] as int > 0xFFFF then 2 else 1) + Utf16Length(s[1..])
  }

  function DigitChar(d: nat): (c: char)
    requires d < 10
    ensures IsAsciiDigit(c)
  {
    ('0' as int + d) as char
  }

  /** `String(n)` for a non-negative integer. */
  function NatToDecimal(n: nat): (r: string)
    ensures r != [] && forall i :: 0 <= i < |r| ==> IsAsciiDigit(r[i])
  {
    if n < 10 then [DigitChar(n)] else NatToDecimal(n / 10) + [DigitChar(n % 10)]
  }

  /** `String(i)` for an integer. */
  function IntToDecimal(i: int): string {
    if i < 0 then "-" + NatToDecimal(-i) else NatToDecimal(i)
  }

  /** The result of `parseInt`: an integer or `NaN`. */
  datatype ParsedInt = IntValue(value: int) | NaN

  /** The value of `c` as a digit in base `radix` (10 or 16), if it is one. */
  function DigitValue(c: char, radix: nat): (d: Option<nat>)
    ensures d.Some? ==> d.value < radix || (radix != 16 && d.value < 10)
  {
    if IsAsciiDigit(c) && (c as int - '0' as int) < radix then Some(c as int - '0' as int)
    else if radix == 16 && 'a' <= c <= 'f' then Some(c as int - 'a' as int + 10)
    else if radix == 16 && 'A' <= c <= 'F' then Some(c as int - 'A' as int + 10)
    else None
  }

  /** The longest prefix of `s` made of base-`radix` digits. */
  function LeadingDigits(s: string, radix: nat): (r: string)
    ensures |r| <= |s| && r == s[..|r|]
    ensures forall i :: 0 <= i < |r| ==> DigitValue(r[i], radix).Some?
    ensures |r| < |s| ==> DigitValue(s[|r|], radix).None?
  {
    if s == [] || DigitValue(s[0], radix).None? then [] else [s[0]] + LeadingDigits(s[1..], radix)
  }

  /** The number a string of base-`radix` digits denotes, most significant digit first. */
  function DigitsValue(s: string, radix: nat): nat
    requires forall i :: 0 <= i < |s| ==> DigitValue(s[i], radix).Some?
  {
    if s == [] then 0
    else DigitsValue(s[..|s| - 1], radix) * radix + DigitValue(s[|s| - 1], radix).value
  }

  /** After the sign: a `0x` or `0X` prefix switching to base 16, then the longest run of digits, if any. */
  function ParseMagnitude(u: string): Option<nat> {
    var hex := |u| >= 2 && u[0] == '0' && (u[1] == 'x' || u[1] == 'X');
    var radix := if hex then 16 else 10;
    var body := if hex then u[2..] else u;
    var digits := LeadingDigits(body, radix);
    if digits == [] then None else Some(DigitsValue(digits, radix))
  }

  /** A magnitude with its sign applied; no digits give `NaN`. */
  function Signed(negative: bool, m: Option<nat>): ParsedInt {
    if m.None? then NaN else IntValue(if negative then -(m.value as int) else m.value)
  }

  /**
   * `parseInt(s)` with no radix: leading white space skipped, an optional sign, then the
   * magnitude; no digit at all gives `NaN`.
   */
  function ParseInt(s: string): ParsedInt {
    var t := TrimStart(s);
    var negative := t != [] && t[0] == '-';
    var u := if t != [] && (t[0] == '-' || t[0] == '+') then t[1..] else t;
    Signed(negative, ParseMagnitude(u))
  }

  lemma {:induction false} NatToDecimalValue(n: nat)
    ensures forall i :: 0 <= i < |NatToDecimal(n)| ==> DigitValue(NatToDecimal(n)[i], 10).Some?
    ensures DigitsValue(NatToDecimal(n), 10) == n
  {
    var r := NatToDecimal(n);
    if n >= 10 {
      NatToDecimalValue(n / 10);
      assert r[..|r| - 1] == NatToDecimal(n / 10);
    }
  }

  lemma {:induction false} LeadingDigitsOfDigits(s: string, radix: nat)
    requires forall i :: 0 <= i < |s| ==> DigitValue(s[i], radix).Some?
    ensures LeadingDigits(s, radix) == s
  {
    if s != [] {
      LeadingDigitsOfDigits(s[1..], radix);
    }
  }

  /** Reading back the decimal rendering of an integer returns that integer. */
  lemma ParseIntOfDecimal(i: int)
    ensures ParseInt(IntToDecimal(i)) == IntValue(i)
  {
    var m: nat := if i < 0 then -i else i;
    var d := NatToDecimal(m);
    NatToDecimalValue(m);
    MagnitudeOfDigits(d, []);
    assert d + [] == d;
    ParseIntAfterSign(i < 0, d);
    if i < 0 {
      assert IntToDecimal(i) == "-" + d;
    } else {
      assert IntToDecimal(i) == [] + d;
    }
  }

  /**
   * Text that starts with no white space: a leading minus negates the magnitude of what
   * follows it, and text that starts with neither sign is read as it stands.
   */
  lemma ParseIntAfterSign(negative: bool, u: string)
    requires u != [] && !IsJsWhitespace(u[0]) && u[0] != '-' && u[0] != '+'
    ensures ParseInt((if negative then "-" else "") + u) == Signed(negative, ParseMagnitude(u))
  {
    var s := (if negative then "-" else "") + u;
    assert !IsJsWhitespace(s[0]);
    assert TrimStart(s) == s;
    if negative {
      assert s[1..] == u;
    } else {
      assert s == u;
    }
  }

  /**
   * Decimal digits followed by text that does not start with a digit: the digits' value.
   * The one exception is a lone `0` followed by `x` or `X`, which begins a hexadecimal number.
   */
  lemma MagnitudeOfDigits(d: string, rest: string)
    requires d != [] && forall i :: 0 <= i < |d| ==> IsAsciiDigit(d[i])
    requires rest == [] || DigitValue(rest[0], 10).None?
    requires !(d == "0" && rest != [] && (rest[0] == 'x' || rest[0] == 'X'))
    ensures forall i :: 0 <= i < |d| ==> DigitValue(d[i], 10).Some?
    ensures ParseMagnitude(d + rest) == Some(DigitsValue(d, 10))
  {
    var u := d + rest;
    assert !(|u| >= 2 && u[0] == '0' && (u[1] == 'x' || u[1] == 'X')) by {
      if |d| >= 2 {
        assert u[1] == d[1];
      } else if |u| >= 2 && u[0] == '0' {
        assert d == "0" && u[1] == rest[0];
      }
    }
    LeadingDigitsStop(d, rest, 10);
  }

  /** The leading digits of digits followed by a non-digit are those digits. */
  lemma {:induction false} LeadingDigitsStop(d: string, rest: string, radix: nat)
    requires forall i :: 0 <= i < |d| ==> DigitValue(d[i], radix).Some?
    requires rest == [] || DigitValue(rest[0], radix).None?
    ensures LeadingDigits(d + rest, radix) == d
  {
    if d == [] {
      assert d + rest == rest;
    } else {
      assert (d + rest)[0] == d[0] && (d + rest)[1..] == d[1..] + rest;
      LeadingDigitsStop(d[1..], rest, radix);
      assert [d[0]] + d[1..] == d;
    }
  }

  /** Text after the digits is ignored, unless a lone `0` is followed by `x` or `X`. */
  lemma ParseIntIgnoresTrailingText(d: string, rest: string)
    requires d != [] && forall i :: 0 <= i < |d| ==> IsAsciiDigit(d[i])
    requires rest == [] || DigitValue(rest[0], 10).None?
    requires !(d == "0" && rest != [] && (rest[0] == 'x' || rest[0] == 'X'))
    ensures ParseInt(d + rest) == ParseInt(d)
  {
    MagnitudeOfDigits(d, rest);
    MagnitudeOfDigits(d, []);
    assert d + [] == d;
    ParseIntAfterSign(false, d + rest);
    ParseIntAfterSign(false, d);
    assert [] + (d + rest) == d + rest && [] + d == d;
  }

  /** Leading white space and a minus sign are read. */
  lemma ParseIntSkipsSpaceAndSign()
    ensures ParseInt(" -7") == IntValue(-7)
  {
    assert " -7"[1..] == "-7" && !IsJsWhitespace('-');
    assert TrimStart(" -7") == "-7";
    assert "-7"[1..] == "7";
    assert LeadingDigits("7", 10) == "7";
    assert "7"[..0] == "" && DigitsValue("7", 10) == 7;
  }

  /** Text with no leading digit, such as the empty text or a missing value rendered `null`, is `NaN`. */
  lemma ParseIntWithoutDigits()
    ensures ParseInt("") == NaN
    ensures ParseInt("null") == NaN
  {
    assert !IsJsWhitespace("null"[0]) && [] + "null" == "null";
    ParseIntAfterSign(false, "null");
    assert LeadingDigits("null", 10) == "";
  }

  /** A `0x` prefix reads the digits in base 16. */
  lemma ParseIntHexPrefix()
    ensures ParseInt("0x1A") == IntValue(26)
  {
    assert TrimStart("0x1A") == "0x1A";
    assert "0x1A"[2..] == "1A";
    assert LeadingDigits("A", 16) == "A";
    assert LeadingDigits("1A", 16) == "1A";
    assert "1"[..0] == "" && DigitsValue("1", 16) == 1;
    assert "1A"[..1] == "1" && DigitsValue("1A", 16) == 26;
  }
}
