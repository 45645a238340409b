/** Character and string primitives of the storefront: `toLowerCase`, `trim`,
    `includes`, and the two ways the script reads a number out of a string
    (`parseFloat` when sorting, the `*` operator's coercion when totalling). */
module Text {
  import opened Wrappers

  /** Upper-case letters that `LowerChar` folds: Latin A-Z, Cyrillic А-Я and Ё. */
  predicate IsUpper(c: char) {
    ('A' <= c <= 'Z') || ('\U{0410}' <= c <= '\U{042F}') || c == '\U{0401}'
  }

  /** `toLowerCase` on one character, for the alphabets the catalogue uses. */
  function LowerChar(c: char): (d: char)
    ensures !IsUpper(d)
    ensures !IsUpper(c) ==> d == c
    ensures IsUpper(c) ==> d != c
    ensures ('A' <= c <= 'Z' || '\U{0410}' <= c <= '\U{042F}') ==> d as int == c as int + 32
    ensures c == '\U{0401}' ==> d == '\U{0451}'
  {
    if 'A' <= c <= 'Z' then (c as int + 32) as char
    else if '\U{0410}' <= c <= '\U{042F}' then (c as int + 32) as char
    else if c == '\U{0401}' then '\U{0451}'
    else c
  }

  /** `toLowerCase` on a string: same length, no upper-case letter left,
      every upper-case letter replaced by its lower-case partner, and every
      character that was not upper-case kept in place. */
  function Lower(s: string): (r: string)
    ensures |r| == |s|
    ensures forall i :: 0 <= i < |r| ==> !IsUpper(r[i])
    ensures forall i :: 0 <= i < |r| && !IsUpper(s[i]) ==> r[i] == s[i]
    ensures forall i :: 0 <= i < |r| && IsUpper(s[i]) ==> r[i] == LowerChar(s[i])
  {
    seq(|s|, i requires 0 <= i < |s| => LowerChar(s[i]))
  }

  /** The inverse folding, `toUpperCase` for the same alphabets: a-z, а-я, ё. */
  function UpperChar(c: char): char {
    if 'a' <= c <= 'z' then (c as int - 32) as char
    else if '\U{0430}' <= c <= '\U{044F}' then (c as int - 32) as char
    else if c == '\U{0451}' then '\U{0401}'
    else c
  }

  function Upper(s: string): string {
    seq(|s|, i requires 0 <= i < |s| => UpperChar(s[i]))
  }

  /** Lower-casing forgets case: a letter and its upper-case partner
      lower-case to the same character. */
  lemma LowerForgetsCase(c: char)
    ensures LowerChar(UpperChar(c)) == LowerChar(c)
  {
  }

  /** So lower-casing a string after upper-casing it gives the same string
      as lower-casing it directly. */
  lemma LowerUpper(s: string)
    ensures Lower(Upper(s)) == Lower(s)
  {
    forall i | 0 <= i < |s| ensures Lower(Upper(s))[i] == Lower(s)[i] {
      LowerForgetsCase(s[i]);
    }
  }

  /** The characters `String.prototype.trim` removes: ECMAScript WhiteSpace
      (tab, vertical tab, form feed, the Zs space separators, BOM) and
      LineTerminator (LF, CR, U+2028, U+2029). */
  predicate IsWhitespace(c: char) {
    c == '\t' || c == '\n' || c == '\U{000B}' || c == '\U{000C}' || c == '\r' || c == ' '
    || c == '\U{00A0}' || c == '\U{1680}' || ('\U{2000}' <= c <= '\U{200A}')
    || c == '\U{2028}' || c == '\U{2029}' || c == '\U{202F}' || c == '\U{205F}'
    || c == '\U{3000}' || c == '\U{FEFF}'
  }

  /** Drops leading whitespace. */
  function TrimStart(s: string): string {
    if s != [] && IsWhitespace(s[0]) then TrimStart(s[1..]) else s
  }

  /** Drops trailing whitespace. */
  function TrimEnd(s: string): string {
    if s != [] && IsWhitespace(s[|s| - 1]) then TrimEnd(s[..|s| - 1]) else s
  }

  /** `trim`. */
  function Trim(s: string): string {
    TrimEnd(TrimStart(s))
  }

  /** `TrimStart` leaves a suffix of `s`, everything it cut off is whitespace,
      and what is left does not start with whitespace. */
  lemma {:induction false} TrimStartSpec(s: string)
    ensures |TrimStart(s)| <= |s| && TrimStart(s) == s[|s| - |TrimStart(s)|..]
    ensures forall i :: 0 <= i < |s| - |TrimStart(s)| ==> IsWhitespace(s[i])
    ensures TrimStart(s) != [] ==> !IsWhitespace(TrimStart(s)[0])
  {
    if s != [] && IsWhitespace(s[0]) {
      var t := TrimStart(s[1..]);
      TrimStartSpec(s[1..]);
      assert TrimStart(s) == t;
      assert s[1..][|s| - 1 - |t|..] == s[|s| - |t|..];
      forall i | 0 <= i < |s| - |t| ensures IsWhitespace(s[i]) {
        if i > 0 {
          assert s[i] == s[1..][i - 1];
        }
      }
    }
  }

  /** `TrimEnd` leaves a prefix of `s`, everything it cut off is whitespace,
      and what is left does not end with whitespace. */
  lemma {:induction false} TrimEndSpec(s: string)
    ensures |TrimEnd(s)| <= |s| && TrimEnd(s) == s[..|TrimEnd(s)|]
    ensures forall i :: |TrimEnd(s)| <= i < |s| ==> IsWhitespace(s[i])
    ensures TrimEnd(s) != [] ==> !IsWhitespace(TrimEnd(s)[|TrimEnd(s)| - 1])
  {
    if s != [] && IsWhitespace(s[|s| - 1]) {
      var t := TrimEnd(s[..|s| - 1]);
      TrimEndSpec(s[..|s| - 1]);
      assert TrimEnd(s) == t;
      assert s[..|s| - 1][..|t|] == s[..|t|];
      forall i | |t| <= i < |s| ensures IsWhitespace(s[i]) {
        if i < |s| - 1 {
          assert s[i] == s[..|s| - 1][i];
        }
      }
    }
  }

  /** `trim` cuts off only whitespace, at both ends, and leaves the piece of
      `s` in between. */
  lemma TrimCuts(s: string)
    ensures |TrimStart(s)| <= |s|
    ensures var k := |s| - |TrimStart(s)|;
      && k + |Trim(s)| <= |s|
      && Trim(s) == s[k..k + |Trim(s)|]
      && (forall i :: 0 <= i < k ==> IsWhitespace(s[i]))
      && (forall i :: k + |Trim(s)| <= i < |s| ==> IsWhitespace(s[i]))
  {
    var t := TrimStart(s);
    TrimStartSpec(s);
    TrimEndSpec(t);
    var r := TrimEnd(t);
    var k := |s| - |t|;
    assert r == s[k..k + |r|] by {
      forall i | 0 <= i < |r| ensures r[i] == s[k + i] {
        assert r[i] == t[i] && t[i] == s[k + i];
      }
    }
    forall i | k + |r| <= i < |s| ensures IsWhitespace(s[i]) {
      assert s[i] == t[i - k];
    }
  }

  /** The trimmed piece has no whitespace at either end; it is empty exactly
      when `s` is all whitespace. */
  lemma TrimSpec(s: string)
    ensures |Trim(s)| <= |s|
    ensures Trim(s) != [] ==> !IsWhitespace(Trim(s)[0]) && !IsWhitespace(Trim(s)[|Trim(s)| - 1])
    ensures Trim(s) == [] <==> forall i :: 0 <= i < |s| ==> IsWhitespace(s[i])
    ensures exists i :: 0 <= i <= |s| && StartsWith(s[i..], Trim(s))
  {
    var t := TrimStart(s);
    TrimStartSpec(s);
    TrimEndSpec(t);
    TrimCuts(s);
    var r := TrimEnd(t);
    var k := |s| - |t|;
    if r != [] {
      assert r[0] == t[0];
    }
    assert StartsWith(s[k..], r);
  }

  predicate StartsWith(h: string, n: string) {
    |n| <= |h| && h[..|n|] == n
  }

  /** `h.includes(n)`, scanning `h` from the left. */
  predicate Includes(h: string, n: string)
  {
    StartsWith(h, n) || (h != [] && Includes(h[1..], n))
  }

  /** `Includes` holds exactly when some position of `h` starts an occurrence
      of `n`; in particular the empty string occurs in every string. */
  lemma {:induction false} IncludesIffOccurs(h: string, n: string)
    ensures Includes(h, n) <==> exists i :: 0 <= i <= |h| && StartsWith(h[i..], n)
  {
    if StartsWith(h, n) {
      assert h[0..] == h;
    } else if h != [] {
      IncludesIffOccurs(h[1..], n);
      if Includes(h[1..], n) {
        var i :| 0 <= i <= |h[1..]| && StartsWith(h[1..][i..], n);
        assert h[1..][i..] == h[i + 1..];
      } else {
        forall i | 0 <= i <= |h| ensures !StartsWith(h[i..], n) {
          if i > 0 {
            assert h[1..][i - 1..] == h[i..];
          }
        }
      }
    } else {
      forall i | 0 <= i <= |h| ensures !StartsWith(h[i..], n) {
        assert h[i..] == h;
      }
    }
  }

  predicate IsDigit(c: char) {
    '0' <= c <= '9'
  }

  predicate AllDigits(s: string) {
    forall i :: 0 <= i < |s| ==> IsDigit(s[i])
  }

  /** The decimal value of a string of digits, most significant first. */
  function DigitsValue(s: string): nat
    requires AllDigits(s)
  {
    if s == [] then 0
    else DigitsValue(s[..|s| - 1]) * 10 + (s[|s| - 1] as int - '0' as int)
  }

  /** The longest run of digits at the start of `s`. */
  function LeadingDigits(s: string): string {
    if s != [] && IsDigit(s[0]) then [s[0]] + LeadingDigits(s[1..]) else []
  }

  /** `LeadingDigits` is a prefix of digits that cannot be extended. */
  lemma {:induction false} LeadingDigitsSpec(s: string)
    ensures |LeadingDigits(s)| <= |s| && LeadingDigits(s) == s[..|LeadingDigits(s)|]
    ensures AllDigits(LeadingDigits(s))
    ensures |LeadingDigits(s)| < |s| ==> !IsDigit(s[|LeadingDigits(s)|])
  {
    if s != [] && IsDigit(s[0]) {
      LeadingDigitsSpec(s[1..]);
    }
  }

  /** `parseFloat(s)` restricted to non-negative integers: leading whitespace
      is skipped, the digits that follow are read, and no digit at all is NaN
      (`None`). */
  function ParseLeadingNumber(s: string): (r: Option<nat>)
  {
    var d := LeadingDigits(TrimStart(s));
    LeadingDigitsSpec(TrimStart(s));
    if d == [] then None else Some(DigitsValue(d))
  }

  /** The numeric coercion `*` applies to a string, restricted to non-negative
      decimal integers: surrounding whitespace is ignored, a blank string is
      0, a string of digits is its value, anything else is NaN (`None`).
      Signs, fractions, exponents, `Infinity` and hexadecimal, binary or
      octal literals, which the coercion also reads, are not covered. */
  function ToNumber(s: string): (r: Option<nat>)
  {
    var t := Trim(s);
    if t == [] then Some(0)
    else if AllDigits(t) then Some(DigitsValue(t))
    else None
  }

  /** Leading whitespace is skipped up to the first other character. */
  lemma {:induction false} TrimStartSkips(ws: string, t: string)
    requires forall i :: 0 <= i < |ws| ==> IsWhitespace(ws[i])
    requires t == [] || !IsWhitespace(t[0])
    ensures TrimStart(ws + t) == t
  {
    if ws == [] {
      assert ws + t == t;
    } else {
      assert (ws + t)[1..] == ws[1..] + t;
      TrimStartSkips(ws[1..], t);
    }
  }

  /** The digits read are exactly the run of digits before the first
      non-digit. */
  lemma {:induction false} LeadingDigitsStop(ds: string, rest: string)
    requires AllDigits(ds)
    requires rest == [] || !IsDigit(rest[0])
    ensures LeadingDigits(ds + rest) == ds
  {
    if ds == [] {
      assert ds + rest == rest;
    } else {
      assert (ds + rest)[1..] == ds[1..] + rest;
      LeadingDigitsStop(ds[1..], rest);
      assert ds == [ds[0]] + ds[1..];
    }
  }

  /** `rest` cannot go on with the number that the digits before it start:
      it is empty or starts with neither a digit, a decimal point nor an
      exponent mark. */
  predicate NumberStops(rest: string) {
    rest == [] || (!IsDigit(rest[0]) && rest[0] != '.' && rest[0] != 'e' && rest[0] != 'E')
  }

  /** `parseFloat` reads the number after any leading whitespace and ignores
      whatever follows it, so "  1500 rub" reads as 1500. */
  lemma ParseReadsLeadingNumber(ws: string, ds: string, rest: string)
    requires forall i :: 0 <= i < |ws| ==> IsWhitespace(ws[i])
    requires ds != [] && AllDigits(ds)
    requires NumberStops(rest)
    ensures ParseLeadingNumber(ws + ds + rest) == Some(DigitsValue(ds))
  {
    assert ws + ds + rest == ws + (ds + rest);
    assert !IsWhitespace((ds + rest)[0]);
    TrimStartSkips(ws, ds + rest);
    LeadingDigitsStop(ds, rest);
  }

  /** A price written as plain digits reads the same under both coercions, so
      the sort order and the order totals agree on it. */
  lemma PlainNumberReadsAlike(s: string)
    requires s != [] && AllDigits(s)
    ensures ParseLeadingNumber(s) == ToNumber(s) == Some(DigitsValue(s))
  {
    assert !IsWhitespace(s[0]);
    assert TrimStart(s) == s;
    assert !IsWhitespace(s[|s| - 1]);
    assert TrimEnd(s) == s;
    LeadingDigitsOfDigits(s);
  }

  lemma {:induction false} LeadingDigitsOfDigits(s: string)
    requires AllDigits(s)
    ensures LeadingDigits(s) == s
  {
    if s != [] {
      LeadingDigitsOfDigits(s[1..]);
      assert s == [s[0]] + s[1..];
    }
  }

  lemma DigitIsNotWhitespace(c: char)
    requires IsDigit(c)
    ensures !IsWhitespace(c)
  {
  }

  /** `*` ignores whitespace around the digits, and reads a blank string as
      0: "  50 " reads as 50, "" and "  " as 0. */
  lemma ToNumberPadded(ws1: string, ds: string, ws2: string)
    requires forall i :: 0 <= i < |ws1| ==> IsWhitespace(ws1[i])
    requires forall i :: 0 <= i < |ws2| ==> IsWhitespace(ws2[i])
    requires AllDigits(ds)
    ensures ToNumber(ws1 + ds + ws2) == Some(DigitsValue(ds))
  {
    var s := ws1 + ds + ws2;
    assert s == ws1 + (ds + ws2);
    if ds == [] {
      assert ds + ws2 == ws2;
      TrimSpec(s);
      forall i | 0 <= i < |s| ensures IsWhitespace(s[i]) {
        if i < |ws1| { assert s[i] == ws1[i]; } else { assert s[i] == ws2[i - |ws1|]; }
      }
    } else {
      assert !IsWhitespace((ds + ws2)[0]);
      TrimStartSkips(ws1, ds + ws2);
      TrimEndSpec(ds + ws2);
      var r := TrimEnd(ds + ws2);
      assert r == (ds + ws2)[..|r|];
      assert !IsWhitespace((ds + ws2)[|ds| - 1]) by {
        DigitIsNotWhitespace(ds[|ds| - 1]);
      }
      assert |r| >= |ds|;
      assert r != [] && !IsWhitespace(r[|r| - 1]);
      assert forall i :: |ds| <= i < |ds + ws2| ==> IsWhitespace((ds + ws2)[i]) by {
        forall i | |ds| <= i < |ds + ws2| ensures IsWhitespace((ds + ws2)[i]) {
          assert (ds + ws2)[i] == ws2[i - |ds|];
        }
      }
      assert r[|r| - 1] == (ds + ws2)[|r| - 1];
      assert |r| <= |ds|;
      assert r == ds;
    }
  }

  /** Whitespace between digits makes a price NaN to `*`: "1 500" does not
      read as a number, though `parseFloat` reads 1 off its front. */
  lemma InnerSpaceIsNaN(s: string, i: nat, j: nat, k: nat)
    requires i < j < k < |s|
    requires IsDigit(s[i]) && IsWhitespace(s[j]) && IsDigit(s[k])
    ensures ToNumber(s) == None
  {
    TrimCuts(s);
    var m := |s| - |TrimStart(s)|;
    var r := Trim(s);
    assert m <= i;
    assert k < m + |r|;
    assert r[j - m] == s[j];
    assert !AllDigits(r);
  }

  /** A blank price is where the two readings part: `*` reads it as 0, while
      `parseFloat` finds no digit and gives NaN. */
  lemma BlankReadsApart(s: string)
    requires forall i :: 0 <= i < |s| ==> IsWhitespace(s[i])
    ensures ToNumber(s) == Some(0)
    ensures ParseLeadingNumber(s) == None
  {
    assert s == s + [] + [] && s == s + [];
    ToNumberPadded(s, [], []);
    TrimStartSkips(s, []);
  }

  /** A string with a non-digit, non-space character in it is NaN to `*`,
      even when `parseFloat` reads a number off its front (e.g. "1500 rub"). */
  lemma TrailingTextIsNaN(s: string, i: nat)
    requires i < |s| && !IsDigit(s[i]) && !IsWhitespace(s[i])
    ensures ToNumber(s) == None
  {
    var t := TrimStart(s);
    var r := TrimEnd(t);
    TrimStartSpec(s);
    TrimEndSpec(t);
    var k := |s| - |t|;
    assert i >= k;
    assert i - k < |r|;
    assert r[i - k] == s[i];
  }
}
