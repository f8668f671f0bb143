/** JavaScript's `parseInt(s, 10)`, as the command line uses it for `--port`
    and `MCP_PORT`: skip leading white space, accept one optional sign, then
    read the longest run of ASCII decimal digits; no digits at all is NaN.
    NaN is `None`; a number is `Some(n)` over the unbounded integers. */
module JsParseInt {
  import opened Wrappers

  /** White space and line terminators that `parseInt` skips before the
      number (ECMAScript's StrWhiteSpaceChar: TAB, VT, FF, SP, NBSP, the
      other space separators, ZWNBSP, LF, CR, LS and PS). */
  predicate IsJsWhitespace(c: char) {
    || c == '\t' || c == '\n' || c == '\U{000B}' || c == '\U{000C}' || c == '\r'
    || c == ' ' || c == '\U{00A0}' || c == '\U{1680}'
    || ('\U{2000}' <= c <= '\U{200A}')
    || c == '\U{2028}' || c == '\U{2029}' || c == '\U{202F}' || c == '\U{205F}'
    || c == '\U{3000}' || c == '\U{FEFF}'
  }

  predicate AllWhitespace(w: string) {
    forall k :: 0 <= k < |w| ==> IsJsWhitespace(w[k])
  }

  /** A radix-10 digit: only the ASCII digits count. */
  predicate IsDigit(c: char) {
    '0' <= c <= '9'
  }

  predicate AllDigits(d: string) {
    forall k :: 0 <= k < |d| ==> IsDigit(d[k])
  }

  /** True when `t` is empty or does not begin with a digit, so a digit run
      placed before it ends where `t` starts. */
  predicate StopsDigits(t: string) {
    t == [] || !IsDigit(t[0])
  }

  function DigitValue(c: char): (v: nat)
    requires IsDigit(c)
    ensures v < 10
  {
    c as int - '0' as int
  }

  function DigitChar(v: nat): (c: char)
    requires v < 10
    ensures IsDigit(c) && DigitValue(c) == v
  {
    ('0' as int + v) as char
  }

  /** The input with its leading white space removed. */
  function TrimStart(s: string): (t: string)
    ensures |t| <= |s| && t == s[|s| - |t|..]
    ensures t != [] ==> !IsJsWhitespace(t[0])
  {
    if |s| > 0 && IsJsWhitespace(s[0]) then TrimStart(s[1..]) else s
  }

  /** The longest prefix of `s` made of digits. */
  function DigitPrefix(s: string): (d: string)
    ensures |d| <= |s| && AllDigits(d)
    ensures d != [] ==> d[0] == s[0]
  {
    if |s| > 0 && IsDigit(s[0]) then [s[0]] + DigitPrefix(s[1..]) else []
  }

  /** `DigitPrefix` is a prefix, made of digits, that no digit follows. */
  lemma {:induction false} DigitPrefixIsLongest(s: string)
    ensures DigitPrefix(s) == s[..|DigitPrefix(s)|]
    ensures StopsDigits(s[|DigitPrefix(s)|..])
  {
    if |s| > 0 && IsDigit(s[0]) {
      DigitPrefixIsLongest(s[1..]);
      assert s[1..][|DigitPrefix(s[1..])|..] == s[|DigitPrefix(s)|..];
    }
  }

  /** The value of a digit string, most significant digit first. */
  function DigitsValue(d: string): nat
    requires AllDigits(d)
  {
    if d == [] then 0 else DigitsValue(d[..|d| - 1]) * 10 + DigitValue(d[|d| - 1])
  }

  /** The number the digit prefix spells; no digits is NaN. */
  function Unsigned(body: string): Option<nat> {
    var digits := DigitPrefix(body);
    if digits == [] then None else Some(DigitsValue(digits))
  }

  /** `parseInt` once the leading white space is gone: an optional sign,
      then the digit prefix. */
  function ParseTrimmed(t: string): Option<int> {
    if t != [] && t[0] == '-' then
      match Unsigned(t[1..])
      case None => None
      case Some(v) => Some(-(v as int))
    else if t != [] && t[0] == '+' then Unsigned(t[1..])
    else Unsigned(t)
  }

  /** A number needs a digit in the text, and a negative number needs a
      leading minus sign. */
  lemma ParseTrimmedNeedsDigit(t: string)
    ensures (forall k :: 0 <= k < |t| ==> !IsDigit(t[k])) ==> ParseTrimmed(t).None?
    ensures ParseTrimmed(t).Some? && ParseTrimmed(t).value < 0 ==> t[0] == '-'
  {
    if t != [] && (t[0] == '-' || t[0] == '+') {
      if DigitPrefix(t[1..]) != [] {
        assert IsDigit(t[1]);
      }
    } else if DigitPrefix(t) != [] {
      assert IsDigit(t[0]);
    }
  }

  /** `parseInt(s, 10)`: `None` is NaN. */
  function ParseInt(s: string): (r: Option<int>)
  {
    ParseTrimmed(TrimStart(s))
  }

  /** A number needs a digit somewhere in the text, and a negative number
      needs a minus sign. */
  lemma ParseIntNeedsDigit(s: string)
    ensures (forall k :: 0 <= k < |s| ==> !IsDigit(s[k])) ==> ParseInt(s).None?
    ensures ParseInt(s).Some? && ParseInt(s).value < 0 ==> exists k :: 0 <= k < |s| && s[k] == '-'
  {
    var t := TrimStart(s);
    ParseTrimmedNeedsDigit(t);
    assert forall k :: 0 <= k < |t| ==> t[k] == s[|s| - |t| + k];
  }

  /** The shortest decimal spelling of a natural number (what JavaScript's
      `String(n)` gives for a safe integer). */
  function NatToDecimal(n: nat): (s: string)
    ensures s != [] && AllDigits(s)
  {
    if n < 10 then [DigitChar(n)] else NatToDecimal(n / 10) + [DigitChar(n % 10)]
  }

  /** Decimal spelling of an integer, with a leading `-` when negative. */
  function IntToDecimal(n: int): (s: string)
    ensures s != [] && (s[0] == '-' || IsDigit(s[0]))
  {
    if n < 0 then "-" + NatToDecimal(-n) else NatToDecimal(n)
  }

  lemma {:induction false} DigitsValueOfDecimal(n: nat)
    ensures DigitsValue(NatToDecimal(n)) == n
  {
    if n >= 10 {
      var s := NatToDecimal(n);
      assert s[..|s| - 1] == NatToDecimal(n / 10);
      DigitsValueOfDecimal(n / 10);
    }
  }

  /** A digit run followed by something that is not a digit is exactly the
      digit prefix. */
  lemma {:induction false} DigitPrefixOfDigits(d: string, t: string)
    requires AllDigits(d) && StopsDigits(t)
    ensures DigitPrefix(d + t) == d
  {
    if d != [] {
      assert (d + t)[1..] == d[1..] + t;
      DigitPrefixOfDigits(d[1..], t);
    }
  }

  /** Leading white space is skipped entirely. */
  lemma {:induction false} TrimStartPrefix(w: string, s: string)
    requires AllWhitespace(w)
    ensures TrimStart(w + s) == TrimStart(s)
  {
    if w != [] {
      assert IsJsWhitespace(w[0]);
      assert AllWhitespace(w[1..]) by {
        forall k | 0 <= k < |w| - 1 ensures IsJsWhitespace(w[1..][k]) {
          assert w[1..][k] == w[k + 1];
        }
      }
      assert (w + s)[0] == w[0];
      assert (w + s)[1..] == w[1..] + s;
      TrimStartPrefix(w[1..], s);
    } else {
      assert w + s == s;
    }
  }

  /** Text that does not start with white space is not trimmed. */
  lemma TrimStartNoop(s: string)
    requires s == [] || !IsJsWhitespace(s[0])
    ensures TrimStart(s) == s
  {
  }

  /** Leading white space never changes the outcome. */
  lemma ParseIntSkipsWhitespace(w: string, s: string)
    requires AllWhitespace(w)
    ensures ParseInt(w + s) == ParseInt(s)
  {
    TrimStartPrefix(w, s);
  }

  /** After the white space, `parseInt` reads the rest as `ParseTrimmed`. */
  lemma ParseIntAfterWhitespace(w: string, t: string)
    requires AllWhitespace(w)
    requires t == [] || !IsJsWhitespace(t[0])
    ensures ParseInt(w + t) == ParseTrimmed(t)
  {
    TrimStartPrefix(w, t);
    assert TrimStart(t) == t;
  }

  /** A digit run followed by a non-digit reads as its value. */
  lemma UnsignedOfDigits(d: string, t: string)
    requires d != [] && AllDigits(d) && StopsDigits(t)
    ensures Unsigned(d + t) == Some(DigitsValue(d))
  {
    DigitPrefixOfDigits(d, t);
  }

  /** A leading sign is read once, and `-` negates what follows. */
  lemma ParseTrimmedSign(sign: char, rest: string)
    requires sign == '-' || sign == '+'
    ensures ParseTrimmed([sign] + rest) == match Unsigned(rest)
      case None => None
      case Some(v) => Some(if sign == '-' then -(v as int) else v)
  {
    assert ([sign] + rest)[1..] == rest;
  }

  lemma ParseTrimmedOfNatDecimal(n: nat, t: string)
    requires StopsDigits(t)
    ensures ParseTrimmed(NatToDecimal(n) + t) == Some(n)
  {
    var d := NatToDecimal(n);
    DigitsValueOfDecimal(n);
    UnsignedOfDigits(d, t);
    assert (d + t)[0] == d[0];
  }

  lemma ParseTrimmedOfNegDecimal(n: nat, t: string)
    requires StopsDigits(t)
    ensures ParseTrimmed("-" + NatToDecimal(n) + t) == Some(-(n as int))
  {
    var d := NatToDecimal(n);
    assert Unsigned(d + t) == Some(n) by {
      DigitsValueOfDecimal(n);
      UnsignedOfDigits(d, t);
    }
    assert "-" + d + t == ['-'] + (d + t);
    ParseTrimmedSign('-', d + t);
  }

  lemma ParseTrimmedOfDecimal(n: int, t: string)
    requires StopsDigits(t)
    ensures ParseTrimmed(IntToDecimal(n) + t) == Some(n)
  {
    if n < 0 {
      ParseTrimmedOfNegDecimal(-n, t);
    } else {
      ParseTrimmedOfNatDecimal(n, t);
    }
  }

  lemma ParseTrimmedPlusSign(n: nat, t: string)
    requires StopsDigits(t)
    ensures ParseTrimmed("+" + NatToDecimal(n) + t) == Some(n)
  {
    var d := NatToDecimal(n);
    assert Unsigned(d + t) == Some(n) by {
      DigitsValueOfDecimal(n);
      UnsignedOfDigits(d, t);
    }
    assert "+" + d + t == ['+'] + (d + t);
    ParseTrimmedSign('+', d + t);
  }

  /** Inverse of `parseInt`: the decimal spelling of any integer, after any
      white space and before anything that is not a digit, reads back as that
      integer (so `"3000abc"` is 3000 and `" -42"` is -42). */
  lemma ParseIntOfDecimal(w: string, n: int, t: string)
    requires AllWhitespace(w) && StopsDigits(t)
    ensures ParseInt(w + IntToDecimal(n) + t) == Some(n)
  {
    assert w + IntToDecimal(n) + t == w + (IntToDecimal(n) + t);
    ParseIntAfterWhitespace(w, IntToDecimal(n) + t);
    ParseTrimmedOfDecimal(n, t);
  }

  /** The decimal spelling alone reads back as the integer. */
  lemma ParseIntOfIntToDecimal(n: int)
    ensures ParseInt(IntToDecimal(n)) == Some(n)
  {
    var d := IntToDecimal(n);
    TrimStartNoop(d);
    ParseTrimmedOfDecimal(n, []);
    assert d + [] == d;
  }

  /** An explicit `+` sign is accepted and changes nothing. */
  lemma ParseIntPlusSign(w: string, n: nat, t: string)
    requires AllWhitespace(w) && StopsDigits(t)
    ensures ParseInt(w + "+" + NatToDecimal(n) + t) == Some(n)
  {
    assert w + "+" + NatToDecimal(n) + t == w + ("+" + NatToDecimal(n) + t);
    ParseIntAfterWhitespace(w, "+" + NatToDecimal(n) + t);
    ParseTrimmedPlusSign(n, t);
  }

  /** After the white space, at most one sign and then a digit run give
      the run's value, negated after `-`. */
  lemma ParseTrimmedOfDigits(sign: string, d: string, t: string)
    requires sign == [] || sign == "-" || sign == "+"
    requires d != [] && AllDigits(d) && StopsDigits(t)
    ensures !IsJsWhitespace((sign + (d + t))[0])
    ensures ParseTrimmed(sign + (d + t)) == Some(if sign == "-" then -(DigitsValue(d) as int) else DigitsValue(d))
  {
    var r := sign + (d + t);
    UnsignedOfDigits(d, t);
    if sign == [] {
      assert r == d + t;
      assert r[0] == d[0] && IsDigit(d[0]);
    } else {
      assert r == [sign[0]] + (d + t);
      assert r[0] == sign[0];
      ParseTrimmedSign(sign[0], d + t);
    }
  }

  /** `parseInt` reads the value of the whole digit run after the white
      space and at most one sign, leading zeros included: a digit there
      always gives a number. With `ParseIntNaN` this decides every input. */
  lemma ParseIntOfDigits(w: string, sign: string, d: string, t: string)
    requires AllWhitespace(w) && (sign == [] || sign == "-" || sign == "+")
    requires d != [] && AllDigits(d) && StopsDigits(t)
    ensures ParseInt(w + sign + d + t) == Some(if sign == "-" then -(DigitsValue(d) as int) else DigitsValue(d))
  {
    assert w + sign + d + t == w + (sign + (d + t));
    ParseTrimmedOfDigits(sign, d, t);
    ParseIntAfterWhitespace(w, sign + (d + t));
  }

  /** A leading zero does not change the value of a digit run. */
  lemma {:induction false} DigitsValueLeadingZero(d: string)
    requires AllDigits(d)
    ensures AllDigits(['0'] + d) && DigitsValue(['0'] + d) == DigitsValue(d)
  {
    if d != [] {
      var init := d[..|d| - 1];
      DigitsValueLeadingZero(init);
      assert (['0'] + d)[..|d|] == ['0'] + init;
    }
  }

  /** Leading zeros in the digit run do not change what `parseInt` reads:
      `"0080"` is 80, `"-007"` is -7. */
  lemma ParseIntLeadingZero(w: string, sign: string, d: string, t: string)
    requires AllWhitespace(w) && (sign == [] || sign == "-" || sign == "+")
    requires d != [] && AllDigits(d) && StopsDigits(t)
    ensures ParseInt(w + sign + (['0'] + d) + t) == ParseInt(w + sign + d + t)
  {
    DigitsValueLeadingZero(d);
    ParseIntOfDigits(w, sign, ['0'] + d, t);
    ParseIntOfDigits(w, sign, d, t);
  }

  /** True when `t` starts with neither a digit nor a sign. */
  predicate NoNumeral(t: string) {
    t == [] || (!IsDigit(t[0]) && t[0] != '-' && t[0] != '+')
  }

  lemma ParseTrimmedNaN(sign: string, t: string)
    requires (sign == [] && NoNumeral(t)) || ((sign == "-" || sign == "+") && StopsDigits(t))
    ensures ParseTrimmed(sign + t) == None
  {
    if sign != [] {
      ParseTrimmedSign(sign[0], t);
      assert sign + t == [sign[0]] + t;
    } else {
      assert sign + t == t;
    }
  }

  /** NaN when, after the white space and at most one sign, the text does
      not start with a digit: a sign alone is NaN, so is a sign followed by a
      non-digit, and so is any word whose first non-blank character is
      neither a sign nor a digit. */
  lemma ParseIntNaN(w: string, sign: string, t: string)
    requires AllWhitespace(w)
    requires (sign == [] && NoNumeral(t)) || ((sign == "-" || sign == "+") && StopsDigits(t))
    requires sign == [] ==> t == [] || !IsJsWhitespace(t[0])
    ensures ParseInt(w + sign + t) == None
  {
    assert w + sign + t == w + (sign + t);
    assert sign + t == [] || (sign + t)[0] == (if sign == [] then t[0] else sign[0]);
    ParseIntAfterWhitespace(w, sign + t);
    ParseTrimmedNaN(sign, t);
  }

  /** Appending a digit multiplies the value by ten and adds the digit. */
  lemma DigitsValueAppend(d: string, c: char)
    requires AllDigits(d) && IsDigit(c)
    ensures AllDigits(d + [c]) && DigitsValue(d + [c]) == DigitsValue(d) * 10 + DigitValue(c)
  {
    assert (d + [c])[..|d|] == d;
  }

  lemma DigitsValue3000()
    ensures AllDigits("3000") && DigitsValue("3000") == 3000
  {
    DigitsValueAppend("", '3');
    DigitsValueAppend("3", '0');
    DigitsValueAppend("30", '0');
    DigitsValueAppend("300", '0');
    assert "" + ['3'] == "3" && "3" + ['0'] == "30" && "30" + ['0'] == "300" && "300" + ['0'] == "3000";
  }

  /** Text after the digits is ignored: `"3000abc"` is 3000. */
  lemma ParseIntTrailingText()
    ensures ParseInt("3000abc") == Some(3000)
  {
    var s := "3000abc";
    assert s == "3000" + "abc";
    TrimStartNoop(s);
    assert ParseTrimmed(s) == Unsigned(s);
    DigitsValue3000();
    UnsignedOfDigits("3000", "abc");
  }

  /** `"0"` is 0. */
  lemma ParseIntZero()
    ensures ParseInt("0") == Some(0)
  {
    TrimStartNoop("0");
    assert ParseTrimmed("0") == Unsigned("0");
    assert AllDigits("0") && DigitsValue("0") == 0;
    UnsignedOfDigits("0", []);
    assert "0" + [] == "0";
  }

  /** Radix 10 does not recognise a hexadecimal prefix: `"0x10"` is 0. */
  lemma ParseIntHexPrefix()
    ensures ParseInt("0x10") == Some(0)
  {
    var s := "0x10";
    assert s == "0" + "x10";
    TrimStartNoop(s);
    assert ParseTrimmed(s) == Unsigned(s);
    assert AllDigits("0") && DigitsValue("0") == 0;
    UnsignedOfDigits("0", "x10");
  }

  /** Words and the empty string are NaN. */
  lemma ParseIntWords()
    ensures ParseInt("abc") == None
    ensures ParseInt("") == None
  {
    TrimStartNoop("abc");
    assert NoNumeral("abc");
    ParseTrimmedNaN([], "abc");
    assert [] + "abc" == "abc";
  }

  /** An option name is NaN: `"--help"` has a sign and then no digit. */
  lemma ParseIntOptionName()
    ensures ParseInt("--help") == None
  {
    TrimStartNoop("--help");
    ParseTrimmedNaN("-", "-help");
    assert "-" + "-help" == "--help";
  }
}
