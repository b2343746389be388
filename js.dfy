/**
 * The fragment of JavaScript semantics the handlers rely on: the values they
 * bind, ToBoolean ("truthiness"), optional property access and the global
 * `parseInt` with its radix left unspecified (ECMAScript 2015, section 18.2.5).
 */
module Js {
  import opened Wrappers

  /** The JavaScript values that the handlers read, test and pass on. */
  datatype Value =
    | Undefined
    | Null
    | Bool(b: bool)
    | NaN
    | Num(n: real)
    | Str(s: string)
    | Arr(elems: seq<Value>)
    | Obj(props: map<string, Value>)

  /** ToBoolean (ECMAScript 2015, section 7.1.2): what `if (x)` and `!x` test. */
  predicate Truthy(v: Value)
    ensures !Truthy(v) <==> v in {Undefined, Null, Bool(false), NaN, Num(0.0), Str("")}
  {
    match v
    case Undefined => false
    case Null => false
    case Bool(b) => b
    case NaN => false
    case Num(n) => n != 0.0
    case Str(s) => s != ""
    case Arr(_) => true
    case Obj(_) => true
  }

  /** `v?.key` for the own data properties of a plain object; every other value yields `undefined`. */
  function Get(v: Value, key: string): (r: Value)
    ensures r != Undefined ==> v.Obj? && key in v.props && r == v.props[key]
    ensures v.Obj? && key in v.props ==> r == v.props[key]
  {
    if v.Obj? && key in v.props then v.props[key] else Undefined
  }

  /** The Number that `parseInt` returns: NaN when it found no digit, otherwise an integer. */
  function NumberOf(parsed: Option<int>): (r: Value)
    ensures Truthy(r) <==> parsed.Some? && parsed.value != 0
  {
    if parsed.None? then NaN else Num(parsed.value as real)
  }

  /** StrWhiteSpaceChar (ECMAScript 2015, section 7.1.3.1): WhiteSpace and LineTerminator code points. */
  predicate IsWhitespace(c: char) {
    || c == '\U{0009}' || c == '\U{000A}' || c == '\U{000B}' || c == '\U{000C}' || c == '\U{000D}'
    || c == '\U{0020}' || c == '\U{00A0}' || c == '\U{1680}'
    || ('\U{2000}' <= c <= '\U{200A}')
    || c == '\U{2028}' || c == '\U{2029}' || c == '\U{202F}' || c == '\U{205F}' || c == '\U{3000}'
    || c == '\U{FEFF}'
  }

  /** The position of the first character at or after `i` that is not white space (step 2 of `parseInt`). */
  function SkipWhitespace(s: string, i: nat): (j: nat)
    requires i <= |s|
    ensures i <= j <= |s|
    ensures j == |s| || !IsWhitespace(s[j])
    decreases |s| - i
  {
    if i < |s| && IsWhitespace(s[i]) then SkipWhitespace(s, i + 1) else i
  }

  /** Skipping passes over white space and nothing else. */
  lemma {:induction false} SkipWhitespaceSkipsOnlyWhitespace(s: string, i: nat)
    requires i <= |s|
    ensures forall k :: i <= k < SkipWhitespace(s, i) ==> IsWhitespace(s[k])
    decreases |s| - i
  {
    if i < |s| && IsWhitespace(s[i]) {
      SkipWhitespaceSkipsOnlyWhitespace(s, i + 1);
    }
  }

  /** The value of a character taken as a digit of radix 36; 36 for a character that is no digit. */
  function DigitValue(c: char): (d: nat)
    ensures d <= 36
  {
    if '0' <= c <= '9' then c as int - '0' as int
    else if 'a' <= c <= 'z' then c as int - 'a' as int + 10
    else if 'A' <= c <= 'Z' then c as int - 'A' as int + 10
    else 36
  }

  predicate IsDigitIn(c: char, radix: nat) {
    DigitValue(c) < radix
  }

  predicate IsDecimalDigit(c: char) {
    '0' <= c <= '9'
  }

  /** The end of the longest run of digits of the radix that starts at `i` (step 11 of `parseInt`). */
  function DigitsEnd(s: string, i: nat, radix: nat): (j: nat)
    requires i <= |s|
    ensures i <= j <= |s|
    ensures forall k :: i <= k < j ==> IsDigitIn(s[k], radix)
    ensures j == |s| || !IsDigitIn(s[j], radix)
    decreases |s| - i
  {
    if i < |s| && IsDigitIn(s[i], radix) then DigitsEnd(s, i + 1, radix) else i
  }

  /** The mathematical value of the digits `s[i..j]`, most significant digit first (callers pass a run of digits of the radix). */
  function DigitsValue(s: string, i: nat, j: nat, radix: nat): nat
    requires i <= j <= |s|
    decreases j - i
  {
    if j == i then 0 else DigitsValue(s, i, j - 1, radix) * radix + DigitValue(s[j - 1])
  }

  /** The value of the digit run that starts at `i`; `None` when there is none. */
  function ParseDigitsAt(s: string, i: nat, radix: nat): (r: Option<nat>)
    requires i <= |s|
    ensures r.None? <==> i == |s| || !IsDigitIn(s[i], radix)
  {
    var j := DigitsEnd(s, i, radix);
    if j == i then None else Some(DigitsValue(s, i, j, radix))
  }

  /** The position after the optional sign of a numeral that starts at `i`. */
  function SignEnd(s: string, i: nat): (k: nat)
    requires i <= |s|
    ensures i <= k <= |s|
  {
    if i < |s| && (s[i] == '-' || s[i] == '+') then i + 1 else i
  }

  /** Whether the `0x`/`0X` prefix of a hexadecimal numeral starts at `k`. */
  predicate HexPrefixAt(s: string, k: nat) {
    k + 1 < |s| && s[k] == '0' && (s[k + 1] == 'x' || s[k + 1] == 'X')
  }

  /**
   * A numeral that starts at `i`: an optional sign, then hexadecimal digits
   * after a `0x`/`0X` prefix or decimal digits otherwise.
   */
  function ParseSignedAt(s: string, i: nat): (r: Option<int>)
    requires i <= |s|
    ensures var k := SignEnd(s, i); r.Some? ==> k < |s| && IsDecimalDigit(s[k])
    ensures var k := SignEnd(s, i); k < |s| && IsDecimalDigit(s[k]) && !HexPrefixAt(s, k) ==> r.Some?
    ensures r.Some? && r.value < 0 ==> i < |s| && s[i] == '-'
  {
    var negative := i < |s| && s[i] == '-';
    var k := SignEnd(s, i);
    var digits := if HexPrefixAt(s, k) then ParseDigitsAt(s, k + 2, 16) else ParseDigitsAt(s, k, 10);
    match digits
    case None => None
    case Some(v) => Some(if negative then -(v as int) else v as int)
  }

  /**
   * The global `parseInt(s)` with no radix argument: skip leading white space,
   * take an optional sign, switch to radix 16 after a `0x`/`0X` prefix, then
   * read the longest run of digits and ignore whatever follows. `None` stands
   * for NaN (no digit at all). The result is the exact integer, not the
   * nearest double.
   */
  function JsParseInt(s: string): (r: Option<int>)
    ensures var i := SkipWhitespace(s, 0); var k := SignEnd(s, i);
      && (r.Some? ==> k < |s| && IsDecimalDigit(s[k]))
      && (k < |s| && IsDecimalDigit(s[k]) && !HexPrefixAt(s, k) ==> r.Some?)
      && (r.Some? && r.value < 0 ==> s[i] == '-')
  {
    ParseSignedAt(s, SkipWhitespace(s, 0))
  }

  /** The character of a decimal digit. */
  function DigitChar(d: nat): (c: char)
    requires d < 10
    ensures IsDecimalDigit(c) && DigitValue(c) == d
  {
    (d + '0' as int) as char
  }

  /** The decimal numeral of a natural number, without leading zeros. */
  function NatDigits(n: nat): (ds: string)
    ensures |ds| > 0
    ensures forall i :: 0 <= i < |ds| ==> IsDecimalDigit(ds[i])
    ensures ds[0] == '0' <==> n == 0
  {
    if n < 10 then [DigitChar(n)] else NatDigits(n / 10) + [DigitChar(n % 10)]
  }

  /** `String(n)` for an integer Number: a minus sign before a negative one's digits. */
  function DecimalString(n: int): string {
    if n < 0 then "-" + NatDigits(-n) else NatDigits(n)
  }

  /** The digits of radix 10 are exactly the decimal digits. */
  lemma DecimalDigitInRadix10(c: char)
    ensures IsDigitIn(c, 10) <==> IsDecimalDigit(c)
  {
  }

  /** What follows a digit range does not change its value. */
  lemma {:induction false} DigitsValueBefore(s: string, rest: string, i: nat, j: nat, radix: nat)
    requires i <= j <= |s|
    ensures DigitsValue(s + rest, i, j, radix) == DigitsValue(s, i, j, radix)
    decreases j - i
  {
    if j > i {
      DigitsValueBefore(s, rest, i, j - 1, radix);
      assert (s + rest)[j - 1] == s[j - 1];
    }
  }

  /** What precedes a digit range does not change its value. */
  lemma {:induction false} DigitsValueAfter(p: string, s: string, i: nat, j: nat, radix: nat)
    requires i <= j <= |s|
    ensures DigitsValue(p + s, |p| + i, |p| + j, radix) == DigitsValue(s, i, j, radix)
    decreases j - i
  {
    if j > i {
      DigitsValueAfter(p, s, i, j - 1, radix);
      assert (p + s)[|p| + j - 1] == s[j - 1];
    }
  }

  /** What precedes a position does not change where the digit run starting there ends. */
  lemma {:induction false} DigitsEndAfter(p: string, s: string, i: nat, radix: nat)
    requires i <= |s|
    ensures DigitsEnd(p + s, |p| + i, radix) == |p| + DigitsEnd(s, i, radix)
    decreases |s| - i
  {
    if i < |s| {
      assert (p + s)[|p| + i] == s[i];
      DigitsEndAfter(p, s, i + 1, radix);
    }
  }

  /** What precedes a position does not change the digit run read there. */
  lemma ParseDigitsAtAfter(p: string, s: string, i: nat, radix: nat)
    requires i <= |s|
    ensures ParseDigitsAt(p + s, |p| + i, radix) == ParseDigitsAt(s, i, radix)
  {
    DigitsEndAfter(p, s, i, radix);
    DigitsValueAfter(p, s, i, DigitsEnd(s, i, radix), radix);
  }

  /** What precedes a position does not change the numeral read there. */
  lemma ParseSignedAtAfter(p: string, s: string, i: nat)
    requires i <= |s|
    ensures ParseSignedAt(p + s, |p| + i) == ParseSignedAt(s, i)
  {
    var t := p + s;
    if i < |s| {
      assert t[|p| + i] == s[i];
    }
    var k := SignEnd(s, i);
    assert SignEnd(t, |p| + i) == |p| + k;
    if k + 1 < |s| {
      assert t[|p| + k] == s[k] && t[|p| + k + 1] == s[k + 1];
    }
    assert HexPrefixAt(t, |p| + k) == HexPrefixAt(s, k);
    if HexPrefixAt(s, k) {
      ParseDigitsAtAfter(p, s, k + 2, 16);
    } else {
      ParseDigitsAtAfter(p, s, k, 10);
    }
  }

  /** The run of digits over a string of digits ends exactly where those digits end. */
  lemma {:induction false} DigitsEndOfDigits(ds: string, rest: string, i: nat)
    requires i <= |ds|
    requires forall k :: 0 <= k < |ds| ==> IsDecimalDigit(ds[k])
    requires rest == [] || !IsDecimalDigit(rest[0])
    ensures DigitsEnd(ds + rest, i, 10) == |ds|
    decreases |ds| - i
  {
    var s := ds + rest;
    if i < |ds| {
      assert s[i] == ds[i];
      DigitsEndOfDigits(ds, rest, i + 1);
    } else if rest != [] {
      assert s[i] == rest[0];
    }
  }

  /** Reading back the numeral of `n` gives `n`. */
  lemma {:induction false} NatDigitsValue(n: nat)
    ensures DigitsValue(NatDigits(n), 0, |NatDigits(n)|, 10) == n
  {
    var ds := NatDigits(n);
    if n >= 10 {
      var hs := NatDigits(n / 10);
      var c := DigitChar(n % 10);
      assert ds == hs + [c];
      NatDigitsValue(n / 10);
      DigitsValueBefore(hs, [c], 0, |hs|, 10);
      assert ds[|ds| - 1] == c;
    }
  }

  /** The digits of `m`, followed by anything that cannot continue them, are read as `m`. */
  lemma NaturalDigits(m: nat, rest: string)
    requires rest == [] || !IsDecimalDigit(rest[0])
    ensures ParseDigitsAt(NatDigits(m) + rest, 0, 10) == Some(m)
  {
    var ds := NatDigits(m);
    DigitsEndOfDigits(ds, rest, 0);
    DigitsValueBefore(ds, rest, 0, |ds|, 10);
    NatDigitsValue(m);
  }

  /** The numeral of a natural number, followed by anything that cannot continue it, is read as that number. */
  lemma NaturalNumeral(m: nat, rest: string)
    requires rest == [] || !IsDecimalDigit(rest[0])
    requires m == 0 ==> rest == [] || (rest[0] != 'x' && rest[0] != 'X')
    ensures ParseSignedAt(NatDigits(m) + rest, 0) == Some(m)
  {
    var ds := NatDigits(m);
    var s := ds + rest;
    assert s[0] == ds[0];
    if |s| > 1 && m == 0 {
      assert |ds| == 1 && s[1] == rest[0];
    }
    NaturalDigits(m, rest);
  }

  /** A minus sign before the numeral of a positive number negates it. */
  lemma NegatedNumeral(m: nat, rest: string)
    requires m > 0
    requires rest == [] || !IsDecimalDigit(rest[0])
    ensures ParseSignedAt("-" + NatDigits(m) + rest, 0) == Some(-(m as int))
  {
    var u := NatDigits(m) + rest;
    var s := "-" + NatDigits(m) + rest;
    assert s == "-" + u;
    assert s[0] == '-' && s[1] == u[0] == NatDigits(m)[0];
    assert SignEnd(s, 0) == 1;
    assert !HexPrefixAt(s, 1);
    ParseDigitsAtAfter("-", u, 0, 10);
    NaturalDigits(m, rest);
  }

  /**
   * `parseInt` reads back the numeral of any integer and ignores trailing
   * characters that cannot continue it ("1234abc" gives 1234). After a lone
   * "0" an `x` or `X` would start a hexadecimal numeral instead.
   */
  lemma ParseIntOfNumeral(n: int, rest: string)
    requires rest == [] || !IsDecimalDigit(rest[0])
    requires n == 0 ==> rest == [] || (rest[0] != 'x' && rest[0] != 'X')
    ensures JsParseInt(DecimalString(n) + rest) == Some(n)
  {
    var s := DecimalString(n) + rest;
    if n < 0 {
      assert s[0] == '-';
      assert SkipWhitespace(s, 0) == 0;
      NegatedNumeral(-n, rest);
    } else {
      assert s[0] == NatDigits(n)[0];
      assert SkipWhitespace(s, 0) == 0;
      NaturalNumeral(n, rest);
    }
  }

  lemma {:induction false} SkipWhitespaceOverBlanks(ws: string, s: string, i: nat)
    requires i <= |ws|
    requires forall k :: 0 <= k < |ws| ==> IsWhitespace(ws[k])
    ensures SkipWhitespace(ws + s, i) == SkipWhitespace(ws + s, |ws|)
    decreases |ws| - i
  {
    if i < |ws| {
      assert (ws + s)[i] == ws[i];
      SkipWhitespaceOverBlanks(ws, s, i + 1);
    }
  }

  lemma {:induction false} SkipWhitespaceAfter(p: string, s: string, i: nat)
    requires i <= |s|
    ensures SkipWhitespace(p + s, |p| + i) == |p| + SkipWhitespace(s, i)
    decreases |s| - i
  {
    if i < |s| {
      assert (p + s)[|p| + i] == s[i];
      SkipWhitespaceAfter(p, s, i + 1);
    }
  }

  /** Leading white space never changes what `parseInt` returns. */
  lemma ParseIntSkipsWhitespace(ws: string, s: string)
    requires forall k :: 0 <= k < |ws| ==> IsWhitespace(ws[k])
    ensures JsParseInt(ws + s) == JsParseInt(s)
  {
    SkipWhitespaceOverBlanks(ws, s, 0);
    SkipWhitespaceAfter(ws, s, 0);
    ParseSignedAtAfter(ws, s, SkipWhitespace(s, 0));
  }

  /** A string whose first non-blank character is neither a sign nor a digit parses to NaN. */
  lemma ParseIntWithoutDigits(s: string)
    requires var i := SkipWhitespace(s, 0); i == |s| || !(IsDecimalDigit(s[i]) || s[i] == '-' || s[i] == '+')
    ensures JsParseInt(s) == None
  {
    var i := SkipWhitespace(s, 0);
    if i < |s| {
      DecimalDigitInRadix10(s[i]);
    }
  }

  /** "1234abc" is read as 1234: whatever follows the digits is ignored. */
  lemma ParseIntTrailingLetters()
    ensures JsParseInt("1234abc") == Some(1234)
  {
    assert NatDigits(1) == "1";
    assert NatDigits(12) == "12";
    assert NatDigits(123) == "123";
    assert NatDigits(1234) == "1234";
    assert DecimalString(1234) + "abc" == "1234abc";
    ParseIntOfNumeral(1234, "abc");
  }

  /** "1e3" is read as 1: there is no exponent. */
  lemma ParseIntNoExponent()
    ensures JsParseInt("1e3") == Some(1)
  {
    assert DecimalString(1) + "e3" == "1e3";
    ParseIntOfNumeral(1, "e3");
  }

  /** A minus sign negates: "-42" is -42. */
  lemma ParseIntMinus()
    ensures JsParseInt("-42") == Some(-42)
  {
    assert NatDigits(4) == "4";
    assert DecimalString(-42) + "" == "-42";
    ParseIntOfNumeral(-42, "");
  }

  /** Leading blanks are skipped: "  -42" is -42. */
  lemma ParseIntBlanks()
    ensures JsParseInt("  -42") == Some(-42)
  {
    ParseIntMinus();
    assert "  -42" == "  " + "-42";
    ParseIntSkipsWhitespace("  ", "-42");
  }

  /** "-0" is zero, as falsy as 0. */
  lemma ParseIntMinusZero()
    ensures JsParseInt("-0") == Some(0)
  {
    var s := "-0";
    assert SkipWhitespace(s, 0) == 0;
    assert DigitsEnd(s, 2, 10) == 2;
    assert DigitsEnd(s, 1, 10) == 2;
  }

  /** "0x1A" is hexadecimal: 26. */
  lemma ParseIntHex()
    ensures JsParseInt("0x1A") == Some(26)
  {
    var s := "0x1A";
    assert SkipWhitespace(s, 0) == 0;
    assert DigitsEnd(s, 4, 16) == 4;
    assert DigitsEnd(s, 3, 16) == 4;
    assert DigitsEnd(s, 2, 16) == 4;
    assert DigitsValue(s, 2, 3, 16) == 1;
  }

  /** "abc" has no digit: NaN. */
  lemma ParseIntLetters()
    ensures JsParseInt("abc") == None
  {
    assert SkipWhitespace("abc", 0) == 0;
    ParseIntWithoutDigits("abc");
  }

  /** A lone "-" has no digit: NaN. */
  lemma ParseIntLoneSign()
    ensures JsParseInt("-") == None
  {
    assert SkipWhitespace("-", 0) == 0;
  }
}
