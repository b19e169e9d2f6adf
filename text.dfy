/**
 * The JavaScript string and number conversions the lottery code relies on:
 * `Number.prototype.toString` on integers, `parseInt` without a radix,
 * `padStart(2, '0')`, `split(' ')`, and the code-unit order that string
 * comparison uses.
 */
module Text {
  import opened Wrappers

  predicate IsDigit(c: char) {
    '0' <= c <= '9'
  }

  predicate AllDigits(s: string) {
    forall i :: 0 <= i < |s| ==> IsDigit(s[i])
  }

  function DigitValue(c: char): nat
    requires IsDigit(c)
  {
    (c as int) - ('0' as int)
  }

  function DigitChar(d: nat): (c: char)
    requires d < 10
    ensures IsDigit(c) && DigitValue(c) == d
  {
    (('0' as int) + d) as char
  }

  /** The number a non-empty run of decimal digits denotes. */
  function DigitsValue(s: string): nat
    requires AllDigits(s)
    decreases |s|
  {
    if s == [] then 0 else 10 * DigitsValue(s[..|s| - 1]) + DigitValue(s[|s| - 1])
  }

  /** Decimal text of a non-negative integer, without leading zeros. */
  function NatToString(n: nat): string
    decreases n
  {
    if n < 10 then [DigitChar(n)] else NatToString(n / 10) + [DigitChar(n % 10)]
  }

  /** The decimal text is a non-empty run of digits without a superfluous leading zero. */
  lemma {:induction false} NatToStringDigits(n: nat)
    ensures AllDigits(NatToString(n)) && |NatToString(n)| >= 1
    ensures |NatToString(n)| > 1 ==> NatToString(n)[0] != '0'
    decreases n
  {
    if n >= 10 {
      NatToStringDigits(n / 10);
      var front := NatToString(n / 10);
      assert (front + [DigitChar(n % 10)])[0] == front[0];
    }
  }

  /** The decimal text denotes the number it was made from. */
  lemma {:induction false} NatToStringValue(n: nat)
    ensures AllDigits(NatToString(n)) && DigitsValue(NatToString(n)) == n
    decreases n
  {
    NatToStringDigits(n);
    if n >= 10 {
      NatToStringValue(n / 10);
      NatToStringDigits(n / 10);
      var front := NatToString(n / 10);
      var s := front + [DigitChar(n % 10)];
      assert s[..|s| - 1] == front;
    }
  }

  /** `Number.prototype.toString()` on an integer: a minus sign, then the digits. */
  function IntToString(i: int): string {
    if i < 0 then "-" + NatToString(-i) else NatToString(i)
  }

  lemma {:induction false} NatToStringLength(n: nat)
    ensures n < 10 ==> |NatToString(n)| == 1
    ensures 10 <= n < 100 ==> |NatToString(n)| == 2
    ensures 100 <= n < 1000 ==> |NatToString(n)| == 3
    ensures 1000 <= n < 10000 ==> |NatToString(n)| == 4
    decreases n
  {
    if n >= 10 {
      NatToStringLength(n / 10);
    }
  }

  /** Digit text without a superfluous leading zero is the text of its own value. */
  lemma {:induction false} NatToStringOfDigits(s: string)
    requires AllDigits(s) && |s| >= 1
    requires |s| > 1 ==> s[0] != '0'
    ensures NatToString(DigitsValue(s)) == s
    decreases |s|
  {
    var n := DigitsValue(s);
    var init := s[..|s| - 1];
    if |s| == 1 {
      assert DigitsValue(init) == 0;
    } else {
      DigitsValueLeadingDigit(init);
      NatToStringOfDigits(init);
      assert n / 10 == DigitsValue(init) && n % 10 == DigitValue(s[|s| - 1]);
      assert n >= 10;
    }
  }

  /** A run of digits that does not start with zero has a positive value. */
  lemma {:induction false} DigitsValueLeadingDigit(s: string)
    requires AllDigits(s) && |s| >= 1 && s[0] != '0'
    ensures DigitsValue(s) >= 1
    decreases |s|
  {
    if |s| > 1 {
      DigitsValueLeadingDigit(s[..|s| - 1]);
    }
  }

  /** `padStart(2, '0')`: zeros in front until the text is two long; longer text is kept. */
  function PadStart2(s: string): string {
    if |s| >= 2 then s else if |s| == 1 then "0" + s else "00"
  }

  /** The padded text ends with the original, after zeros only, and is at least two long. */
  lemma PadStart2Shape(s: string)
    ensures var r := PadStart2(s);
      && |r| == (if |s| >= 2 then |s| else 2)
      && r[|r| - |s|..] == s
      && forall i :: 0 <= i < |r| - |s| ==> r[i] == '0'
  {
  }

  /** Two-digit text of a number below 100, as `n.toString().padStart(2, '0')` gives it. */
  lemma TwoDigitText(n: nat)
    requires n < 100
    ensures |PadStart2(NatToString(n))| == 2
    ensures AllDigits(PadStart2(NatToString(n)))
    ensures DigitsValue(PadStart2(NatToString(n))) == n
  {
    NatToStringLength(n);
    NatToStringValue(n);
    var s := NatToString(n);
    if n < 10 {
      assert PadStart2(s) == "0" + s;
      assert ("0" + s)[..1] == "0";
    }
  }

  // ---------------------------------------------------------------------
  // parseInt

  /** The characters JavaScript's `parseInt` skips before a number (WhiteSpace and LineTerminator). */
  predicate IsJsWhitespace(c: char) {
    c == '\t' || c == '\n' || c == '\U{000B}' || c == '\U{000C}' || c == '\r' || c == ' '
    || c == '\U{00A0}' || c == '\U{1680}' || ('\U{2000}' <= c <= '\U{200A}')
    || c == '\U{2028}' || c == '\U{2029}' || c == '\U{202F}' || c == '\U{205F}'
    || c == '\U{3000}' || c == '\U{FEFF}'
  }

  function TrimStart(s: string): (r: string)
    ensures r == [] || !IsJsWhitespace(r[0])
    ensures |r| <= |s| && r == s[|s| - |r|..]
    decreases |s|
  {
    if s != [] && IsJsWhitespace(s[0]) then TrimStart(s[1..]) else s
  }

  /** The longest prefix of `s` made of decimal digits. */
  function DigitPrefix(s: string): (p: string)
    ensures AllDigits(p) && p <= s
    ensures |p| < |s| ==> !IsDigit(s[|p|])
    decreases |s|
  {
    if s != [] && IsDigit(s[0]) then [s[0]] + DigitPrefix(s[1..]) else []
  }

  predicate IsHexDigit(c: char) {
    IsDigit(c) || 'a' <= c <= 'f' || 'A' <= c <= 'F'
  }

  function HexDigitValue(c: char): nat
    requires IsHexDigit(c)
  {
    if IsDigit(c) then DigitValue(c)
    else if 'a' <= c <= 'f' then (c as int) - ('a' as int) + 10
    else (c as int) - ('A' as int) + 10
  }

  /** The longest prefix of `s` made of hexadecimal digits. */
  function HexPrefix(s: string): (p: string)
    ensures forall i :: 0 <= i < |p| ==> IsHexDigit(p[i])
    decreases |s|
  {
    if s != [] && IsHexDigit(s[0]) then [s[0]] + HexPrefix(s[1..]) else []
  }

  function HexValue(s: string): nat
    requires forall i :: 0 <= i < |s| ==> IsHexDigit(s[i])
    decreases |s|
  {
    if s == [] then 0 else 16 * HexValue(s[..|s| - 1]) + HexDigitValue(s[|s| - 1])
  }

  /**
   * `parseInt(s)` with no radix: leading white space is skipped, one sign is
   * read, a `0x`/`0X` prefix switches to base 16, and the longest run of digits
   * that follows is the value. No digits at all gives NaN, here `None`.
   */
  function JsParseInt(s: string): Option<int> {
    var t := TrimStart(s);
    var negative := t != [] && t[0] == '-';
    var u := if t != [] && (t[0] == '-' || t[0] == '+') then t[1..] else t;
    var sign := if negative then -1 else 1;
    if |u| >= 2 && u[0] == '0' && (u[1] == 'x' || u[1] == 'X') then
      var h := HexPrefix(u[2..]);
      if h == [] then None else Some(sign * HexValue(h))
    else
      var d := DigitPrefix(u);
      if d == [] then None else Some(sign * DigitsValue(d))
  }

  lemma {:induction false} DigitPrefixOfDigits(s: string)
    requires AllDigits(s)
    ensures DigitPrefix(s) == s
    decreases |s|
  {
    if s != [] {
      DigitPrefixOfDigits(s[1..]);
      assert [s[0]] + s[1..] == s;
    }
  }

  /** `parseInt` reads back the decimal text of any non-negative integer. */
  lemma ParseIntOfNatToString(n: nat)
    ensures JsParseInt(NatToString(n)) == Some(n)
  {
    var s := NatToString(n);
    NatToStringDigits(n);
    assert IsDigit(s[0]) && !IsJsWhitespace(s[0]);
    assert TrimStart(s) == s;
    assert s[0] != '-' && s[0] != '+';
    assert !(|s| >= 2 && (s[1] == 'x' || s[1] == 'X')) by {
      if |s| >= 2 { assert IsDigit(s[1]); }
    }
    DigitPrefixOfDigits(s);
    NatToStringValue(n);
  }

  // ---------------------------------------------------------------------
  // split(' ') and its inverse

  /** `s.split(sep)` for a one-character separator: the pieces between separators, empty ones kept. */
  function Split(s: string, sep: char): (parts: seq<string>)
    ensures |parts| >= 1
    ensures forall i :: 0 <= i < |parts| ==> sep !in parts[i]
    decreases |s|
  {
    if s == [] then [""]
    else if s[0] == sep then [""] + Split(s[1..], sep)
    else
      var rest := Split(s[1..], sep);
      [[s[0]] + rest[0]] + rest[1..]
  }

  /** `parts.join(sep)`. */
  function Join(parts: seq<string>, sep: char): string
    requires |parts| >= 1
    decreases |parts|
  {
    if |parts| == 1 then parts[0] else parts[0] + [sep] + Join(parts[1..], sep)
  }

  /** Joining the pieces gives the text back. */
  lemma {:induction false} JoinSplit(s: string, sep: char)
    ensures Join(Split(s, sep), sep) == s
    decreases |s|
  {
    if s == [] {
    } else if s[0] == sep {
      JoinSplit(s[1..], sep);
      var rest := Split(s[1..], sep);
      assert Split(s, sep) == [""] + rest;
      assert ([""] + rest)[1..] == rest;
    } else {
      JoinSplit(s[1..], sep);
      var rest := Split(s[1..], sep);
      var parts := [[s[0]] + rest[0]] + rest[1..];
      assert Split(s, sep) == parts;
      if |rest| == 1 {
        assert Join(parts, sep) == [s[0]] + rest[0];
      } else {
        assert parts[1..] == rest[1..];
        assert Join(rest, sep) == rest[0] + [sep] + Join(rest[1..], sep);
        assert Join(parts, sep) == [s[0]] + rest[0] + [sep] + Join(rest[1..], sep);
      }
      assert s == [s[0]] + s[1..];
    }
  }

  /** Splitting text that has no separator in front of one: the first piece is that text. */
  lemma {:induction false} SplitAfterPiece(a: string, sep: char, rest: string)
    requires sep !in a
    ensures Split(a + [sep] + rest, sep) == [a] + Split(rest, sep)
    decreases |a|
  {
    if a == [] {
      assert [] + [sep] + rest == [sep] + rest;
      assert ([sep] + rest)[1..] == rest;
    } else {
      var s := a + [sep] + rest;
      assert s[0] == a[0] && s[1..] == a[1..] + [sep] + rest;
      SplitAfterPiece(a[1..], sep, rest);
      assert [a[0]] + a[1..] == a;
    }
  }

  /** Text without a separator splits into itself. */
  lemma {:induction false} SplitPiece(a: string, sep: char)
    requires sep !in a
    ensures Split(a, sep) == [a]
    decreases |a|
  {
    if a != [] {
      SplitPiece(a[1..], sep);
      assert [a[0]] + a[1..] == a;
    }
  }

  /** Splitting undoes joining pieces that have no separator in them. */
  lemma {:induction false} SplitJoin(parts: seq<string>, sep: char)
    requires |parts| >= 1
    requires forall i :: 0 <= i < |parts| ==> sep !in parts[i]
    ensures Split(Join(parts, sep), sep) == parts
    decreases |parts|
  {
    if |parts| == 1 {
      SplitPiece(parts[0], sep);
    } else {
      SplitJoin(parts[1..], sep);
      SplitAfterPiece(parts[0], sep, Join(parts[1..], sep));
      assert [parts[0]] + parts[1..] == parts;
    }
  }

  // ---------------------------------------------------------------------
  // string order

  /** `a < b` on strings: code-unit order, a proper prefix before its extensions. */
  predicate StrBefore(a: string, b: string)
    decreases |a|
  {
    if a == [] then b != []
    else if b == [] then false
    else if a[0] != b[0] then a[0] < b[0]
    else StrBefore(a[1..], b[1..])
  }

  lemma {:induction false} StrBeforeIrreflexive(a: string)
    ensures !StrBefore(a, a)
    decreases |a|
  {
    if a != [] {
      StrBeforeIrreflexive(a[1..]);
    }
  }

  lemma {:induction false} StrBeforeTransitive(a: string, b: string, c: string)
    requires StrBefore(a, b) && StrBefore(b, c)
    ensures StrBefore(a, c)
    decreases |a|
  {
    if a != [] && b != [] && c != [] && a[0] == b[0] && b[0] == c[0] {
      StrBeforeTransitive(a[1..], b[1..], c[1..]);
    }
  }

  lemma {:induction false} StrBeforeTotal(a: string, b: string)
    ensures a == b || StrBefore(a, b) || StrBefore(b, a)
    decreases |a|
  {
    if a != [] && b != [] && a[0] == b[0] {
      StrBeforeTotal(a[1..], b[1..]);
      if a[1..] == b[1..] {
        assert a == [a[0]] + a[1..] && b == [b[0]] + b[1..];
      }
    }
  }
}
