/**
 * The Python string operations the conversation handlers rely on:
 * `str.strip()`, `str.lower()`, `str.startswith()`, `str.isdigit()` and `int()`
 * of a string of decimal digits.
 */
module Text {

  /** Python's `str.isspace()`: the characters `str.strip()` removes. */
  predicate IsSpace(c: char)
  {
    || '\U{0009}' <= c <= '\U{000D}'
    || '\U{001C}' <= c <= '\U{0020}'
    || c == '\U{0085}' || c == '\U{00A0}' || c == '\U{1680}'
    || '\U{2000}' <= c <= '\U{200A}'
    || c == '\U{2028}' || c == '\U{2029}' || c == '\U{202F}' || c == '\U{205F}' || c == '\U{3000}'
  }

  /** Number of leading whitespace characters of `s`. */
  function LeadingSpaces(s: string): (n: nat)
    ensures n <= |s|
    ensures forall k :: 0 <= k < n ==> IsSpace(s[k])
    ensures n < |s| ==> !IsSpace(s[n])
  {
    if s == [] || !IsSpace(s[0]) then 0 else 1 + LeadingSpaces(s[1..])
  }

  /** Number of trailing whitespace characters of `s`. */
  function TrailingSpaces(s: string): (n: nat)
    ensures n <= |s|
    ensures forall k :: |s| - n <= k < |s| ==> IsSpace(s[k])
    ensures n < |s| ==> !IsSpace(s[|s| - n - 1])
  {
    if s == [] || !IsSpace(s[|s| - 1]) then 0 else 1 + TrailingSpaces(s[..|s| - 1])
  }

  /** Python's `s.strip()`: `s` without its leading and trailing whitespace. */
  function Strip(s: string): (r: string)
    ensures LeadingSpaces(s) + |r| <= |s|
    ensures r != [] ==> !IsSpace(r[0]) && !IsSpace(r[|r| - 1])
    ensures forall k :: 0 <= k < |r| ==> r[k] == s[LeadingSpaces(s) + k]
    ensures forall k :: 0 <= k < LeadingSpaces(s) ==> IsSpace(s[k])
    ensures forall k :: LeadingSpaces(s) + |r| <= k < |s| ==> IsSpace(s[k])
  {
    var t := s[LeadingSpaces(s)..];
    t[..|t| - TrailingSpaces(t)]
  }

  /**
   * Python's `str.lower()` for the letters the bot's keywords use: Basic Latin,
   * Latin-1 and the basic Cyrillic block (including Ё and the other U+0400..U+040F
   * capitals). Other characters are returned unchanged.
   */
  function LowerChar(c: char): char
  {
    if 'A' <= c <= 'Z' then (c as int + 32) as char
    else if 'À' <= c <= 'Þ' && c != '×' then (c as int + 32) as char
    else if 'А' <= c <= 'Я' then (c as int + 32) as char
    else if 'Ѐ' <= c <= 'Џ' then (c as int + 80) as char
    else c
  }

  function Lower(s: string): string
  {
    seq(|s|, k requires 0 <= k < |s| => LowerChar(s[k]))
  }

  /** Whitespace before a text that starts with a non-space character is exactly what is leading. */
  lemma {:induction false} LeadingOfPadded(a: string, t: string)
    requires forall k :: 0 <= k < |a| ==> IsSpace(a[k])
    requires t != [] && !IsSpace(t[0])
    ensures LeadingSpaces(a + t) == |a|
  {
    if a != [] {
      assert (a + t)[1..] == a[1..] + t;
      LeadingOfPadded(a[1..], t);
    }
  }

  /** Whitespace after a text that ends with a non-space character is exactly what is trailing. */
  lemma {:induction false} TrailingOfPadded(t: string, b: string)
    requires forall k :: 0 <= k < |b| ==> IsSpace(b[k])
    requires t != [] && !IsSpace(t[|t| - 1])
    ensures TrailingSpaces(t + b) == |b|
  {
    if b == [] {
      assert t + b == t;
    } else {
      assert (t + b)[..|t + b| - 1] == t + b[..|b| - 1];
      TrailingOfPadded(t, b[..|b| - 1]);
    }
  }

  /** `strip()` removes any whitespace padding, and only that, from a trimmed text. */
  lemma StripPadded(a: string, t: string, b: string)
    requires forall k :: 0 <= k < |a| ==> IsSpace(a[k])
    requires forall k :: 0 <= k < |b| ==> IsSpace(b[k])
    requires t != [] && !IsSpace(t[0]) && !IsSpace(t[|t| - 1])
    ensures Strip(a + t + b) == t
  {
    assert a + t + b == a + (t + b);
    LeadingOfPadded(a, t + b);
    assert (a + t + b)[|a|..] == t + b;
    TrailingOfPadded(t, b);
    assert (t + b)[..|t + b| - |b|] == t;
  }

  /** `lower()` leaves whitespace alone. */
  lemma LowerKeepsSpace(s: string, k: nat)
    requires k < |s| && IsSpace(s[k])
    ensures |Lower(s)| == |s| && Lower(s)[k] == s[k]
  {
  }

  /** `strip()` keeps every non-whitespace character, shifted by the leading whitespace. */
  lemma StripKeeps(s: string, k: nat)
    requires k < |s| && !IsSpace(s[k])
    ensures LeadingSpaces(s) <= k < LeadingSpaces(s) + |Strip(s)|
    ensures Strip(s)[k - LeadingSpaces(s)] == s[k]
  {
  }

  /** `lower()` leaves digits where they are. */
  lemma LowerKeepsDigit(s: string, k: nat)
    requires k < |s| && IsDigit(s[k])
    ensures |Lower(s)| == |s| && Lower(s)[k] == s[k]
  {
  }

  /** Python's `s.startswith(p)`. */
  predicate StartsWith(s: string, p: string)
  {
    |p| <= |s| && s[..|p|] == p
  }

  /** Python's `c.isdigit()`, restricted to the ASCII digits. */
  predicate IsDigit(c: char)
  {
    '0' <= c <= '9'
  }

  /** `"".join(ch for ch in s if ch.isdigit())`: the digits of `s`, in order. */
  function Digits(s: string): (r: string)
    ensures |r| <= |s|
    ensures forall k :: 0 <= k < |r| ==> IsDigit(r[k])
    ensures (forall k :: 0 <= k < |s| ==> !IsDigit(s[k])) <==> r == []
  {
    if s == [] then []
    else (if IsDigit(s[0]) then [s[0]] else []) + Digits(s[1..])
  }

  /** Digit extraction distributes over concatenation: no digit is lost, moved or invented. */
  lemma {:induction false} DigitsAppend(a: string, b: string)
    ensures Digits(a + b) == Digits(a) + Digits(b)
  {
    if a != [] {
      assert (a + b)[0] == a[0] && (a + b)[1..] == a[1..] + b;
      DigitsAppend(a[1..], b);
    } else {
      assert a + b == b;
    }
  }

  /** A string made only of digits is its own digit extraction. */
  lemma {:induction false} DigitsOfDigits(s: string)
    requires forall k :: 0 <= k < |s| ==> IsDigit(s[k])
    ensures Digits(s) == s
  {
    if s != [] {
      DigitsOfDigits(s[1..]);
    }
  }

  /** `int(ds)` for a string of ASCII digits (leading zeros allowed, as in Python). */
  function Value(ds: string): (n: nat)
    requires forall k :: 0 <= k < |ds| ==> IsDigit(ds[k])
  {
    if ds == [] then 0
    else
      assert IsDigit(ds[|ds| - 1]);
      10 * Value(ds[..|ds| - 1]) + (ds[|ds| - 1] as int - '0' as int)
  }

  /** `int(ds) <= 0` happens exactly when every digit is `'0'`. */
  lemma {:induction false} ValueZeroIffAllZeros(ds: string)
    requires forall k :: 0 <= k < |ds| ==> IsDigit(ds[k])
    ensures Value(ds) == 0 <==> forall k :: 0 <= k < |ds| ==> ds[k] == '0'
  {
    if ds != [] {
      var init := ds[..|ds| - 1];
      ValueZeroIffAllZeros(init);
      assert forall k :: 0 <= k < |init| ==> init[k] == ds[k];
    }
  }
}
