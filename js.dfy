/** The few pieces of JavaScript runtime behaviour the application leans on:
    truthiness of optional strings, the ECMAScript whitespace set, `String.prototype.trim`,
    `String.prototype.split` on a one-character separator, `Number(string)` and
    `Number.prototype.toString()` on non-negative integers, ASCII case folding and
    the `Response.ok` status range. */
module Js {
  import opened Wrappers

  /** `if (v)` on a value that is a string or absent: only a present, non-empty string is truthy. */
  predicate Truthy(v: Option<string>) {
    v.Some? && v.value != ""
  }

  /** `Response.ok`: the status is in the range 200-299. */
  predicate IsOkStatus(status: nat) {
    200 <= status <= 299
  }

  /** ECMAScript WhiteSpace and LineTerminator code points: the set matched by `\s`
      and removed by `trim()`. */
  predicate IsJsWhitespace(c: char) {
    if c < '\U{A0}' then c == ' ' || '\t' <= c <= '\r'
    else
      || c == '\U{A0}' || c == '\U{1680}' || '\U{2000}' <= c <= '\U{200A}'
      || c == '\U{2028}' || c == '\U{2029}' || c == '\U{202F}' || c == '\U{205F}'
      || c == '\U{3000}' || c == '\U{FEFF}'
  }

  /** No whitespace in `s[a..b]`. */
  predicate NoWhitespaceIn(s: string, a: nat, b: nat)
    requires b <= |s|
  {
    forall k | a <= k < b :: !IsJsWhitespace(s[k])
  }

  /** Only whitespace in `s[a..b]`. */
  predicate AllWhitespaceIn(s: string, a: nat, b: nat)
    requires b <= |s|
  {
    forall k | a <= k < b :: IsJsWhitespace(s[k])
  }

  // ---------------------------------------------------------------------------
  // ASCII case folding (what a non-Unicode `/i` regex does for ASCII pattern letters)

  /** `c` equals the lower-case ASCII character `lower` or its upper-case form. */
  predicate FoldsTo(c: char, lower: char) {
    c == lower || ('a' <= lower <= 'z' && c as int == lower as int - 32)
  }

  /** `s` holds the lower-case ASCII text `lit` at position `i`, ignoring ASCII case. */
  predicate HasPrefixIgnoringCase(s: string, i: nat, lit: string)
    ensures HasPrefixIgnoringCase(s, i, lit) ==> i + |lit| <= |s|
    decreases |lit|
  {
    if lit == [] then i <= |s|
    else i < |s| && FoldsTo(s[i], lit[0]) && HasPrefixIgnoringCase(s, i + 1, lit[1..])
  }

  /** The character-by-character reading of `HasPrefixIgnoringCase`. */
  lemma {:induction false} HasPrefixIgnoringCaseAt(s: string, i: nat, lit: string)
    ensures HasPrefixIgnoringCase(s, i, lit) <==>
            i + |lit| <= |s| && forall k | 0 <= k < |lit| :: FoldsTo(s[i + k], lit[k])
    decreases |lit|
  {
    if lit != [] {
      HasPrefixIgnoringCaseAt(s, i + 1, lit[1..]);
      if i + |lit| <= |s| && forall k | 0 <= k < |lit| :: FoldsTo(s[i + k], lit[k]) {
        assert FoldsTo(s[i + 0], lit[0]);
        forall k | 0 <= k < |lit[1..]| ensures FoldsTo(s[i + 1 + k], lit[1..][k]) {
          assert FoldsTo(s[i + (k + 1)], lit[k + 1]);
        }
        assert HasPrefixIgnoringCase(s, i + 1, lit[1..]);
      }
      if HasPrefixIgnoringCase(s, i, lit) {
        forall k | 0 <= k < |lit| ensures FoldsTo(s[i + k], lit[k]) {
          if k > 0 { assert FoldsTo(s[i + 1 + (k - 1)], lit[1..][k - 1]); }
        }
      }
    }
  }

  /** `lit` is made of printable ASCII characters (from `!` to `~`). */
  predicate IsVisibleAscii(lit: string)
    decreases |lit|
  {
    lit == [] || ('!' <= lit[0] <= '~' && IsVisibleAscii(lit[1..]))
  }

  /** Text that matches printable ASCII text, ignoring case, holds no whitespace. */
  lemma {:induction false} PrefixNoWhitespace(s: string, i: nat, lit: string)
    requires HasPrefixIgnoringCase(s, i, lit) && IsVisibleAscii(lit)
    ensures i + |lit| <= |s| && NoWhitespaceIn(s, i, i + |lit|)
    decreases |lit|
  {
    if lit != [] {
      PrefixNoWhitespace(s, i + 1, lit[1..]);
    }
  }

  // ---------------------------------------------------------------------------
  // String.prototype.trim

  /** Number of whitespace characters at the front of `s`. */
  function LeadingSpace(s: string): (n: nat)
    ensures n <= |s|
    ensures AllWhitespaceIn(s, 0, n)
    ensures n < |s| ==> !IsJsWhitespace(s[n])
  {
    if s == [] || !IsJsWhitespace(s[0]) then 0
    else
      var n := LeadingSpace(s[1..]) + 1;
      assert forall k | 1 <= k < n :: s[k] == s[1..][k - 1];
      n
  }

  /** Number of whitespace characters at the back of `s`. */
  function TrailingSpace(s: string): (n: nat)
    ensures n <= |s|
    ensures AllWhitespaceIn(s, |s| - n, |s|)
    ensures n < |s| ==> !IsJsWhitespace(s[|s| - 1 - n])
  {
    if s == [] || !IsJsWhitespace(s[|s| - 1]) then 0
    else TrailingSpace(s[..|s| - 1]) + 1
  }

  /** `s.trim()`. */
  function Trim(s: string): (r: string)
    ensures r == "" <==> AllWhitespaceIn(s, 0, |s|)
    ensures r != "" ==> !IsJsWhitespace(r[0]) && !IsJsWhitespace(r[|r| - 1])
    ensures exists a, b :: 0 <= a <= b <= |s| && r == s[a..b]
                           && AllWhitespaceIn(s, 0, a) && AllWhitespaceIn(s, b, |s|)
  {
    var a := LeadingSpace(s);
    if a == |s| then
      assert s[a..a] == "";
      ""
    else
      var t := TrailingSpace(s);
      assert !AllWhitespaceIn(s, 0, |s|) by { assert !IsJsWhitespace(s[a]); }
      s[a..|s| - t]
  }

  /** Trimming a string with no whitespace at either end changes nothing. */
  lemma TrimUnpadded(s: string)
    requires s == "" || (!IsJsWhitespace(s[0]) && !IsJsWhitespace(s[|s| - 1]))
    ensures Trim(s) == s
  {
    assert LeadingSpace(s) == 0;
    if s != "" { assert TrailingSpace(s) == 0; }
  }

  // ---------------------------------------------------------------------------
  // String.prototype.split with a one-character separator

  /** `s.split(sep)`: the pieces between separators, always at least one. */
  function Split(s: string, sep: char): (parts: seq<string>)
    ensures |parts| >= 1
    ensures forall k | 0 <= k < |parts| :: sep !in parts[k]
  {
    if s == [] then [""]
    else
      var rest := Split(s[1..], sep);
      if s[0] == sep then [""] + rest
      else [[s[0]] + rest[0]] + rest[1..]
  }

  /** `parts.join(sep)`, the inverse of `Split`. */
  function Join(parts: seq<string>, sep: char): string
    requires |parts| >= 1
  {
    if |parts| == 1 then parts[0] else parts[0] + [sep] + Join(parts[1..], sep)
  }

  /** Joining the pieces again with the separator gives back the original string. */
  lemma {:induction false} JoinSplit(s: string, sep: char)
    ensures Join(Split(s, sep), sep) == s
  {
    if s != [] {
      var rest := Split(s[1..], sep);
      JoinSplit(s[1..], sep);
      if s[0] != sep {
        if |rest| > 1 {
          assert ([[s[0]] + rest[0]] + rest[1..])[1..] == rest[1..];
        }
      }
    }
  }

  /** A string without the separator splits into itself alone. */
  lemma {:induction false} SplitWithoutSeparator(s: string, sep: char)
    requires sep !in s
    ensures Split(s, sep) == [s]
  {
    if s != [] {
      SplitWithoutSeparator(s[1..], sep);
      assert [s[0]] + s[1..] == s;
    }
  }

  /** The piece before the first separator comes out first; the rest is split on its own. */
  lemma {:induction false} SplitAtFirst(a: string, sep: char, b: string)
    requires sep !in a
    ensures Split(a + [sep] + b, sep) == [a] + Split(b, sep)
  {
    if a == [] {
      assert a + [sep] + b == [sep] + b;
      assert ([sep] + b)[1..] == b;
    } else {
      assert (a + [sep] + b)[1..] == a[1..] + [sep] + b;
      SplitAtFirst(a[1..], sep, b);
      assert [a[0]] + a[1..] == a;
    }
  }

  // ---------------------------------------------------------------------------
  // Decimal digits: Number.prototype.toString() on integers and Number(string)

  predicate IsDigit(c: char) {
    '0' <= c <= '9'
  }

  predicate AllDigits(s: string) {
    forall k | 0 <= k < |s| :: IsDigit(s[k])
  }

  function DigitChar(d: nat): (c: char)
    requires d < 10
    ensures IsDigit(c) && c as int - '0' as int == d
  {
    (d + '0' as int) as char
  }

  /** `n.toString()` for a non-negative integer: its shortest decimal representation. */
  function ToDecimal(n: nat): (s: string)
    ensures |s| >= 1 && AllDigits(s)
    ensures s[0] == '0' ==> n == 0
  {
    if n < 10 then [DigitChar(n)] else ToDecimal(n / 10) + [DigitChar(n % 10)]
  }

  /** The value of a string of decimal digits (the empty string has value 0). */
  function DigitsValue(s: string): nat
    requires AllDigits(s)
  {
    if s == [] then 0 else DigitsValue(s[..|s| - 1]) * 10 + (s[|s| - 1] as int - '0' as int)
  }

  /** Reading back a decimal representation gives the number. */
  lemma {:induction false} DigitsValueOfDecimal(n: nat)
    ensures DigitsValue(ToDecimal(n)) == n
  {
    if n >= 10 {
      var s := ToDecimal(n);
      assert s[..|s| - 1] == ToDecimal(n / 10);
      DigitsValueOfDecimal(n / 10);
    }
  }

  /** Writing out the value of a digit string without a superfluous leading zero gives it back. */
  lemma {:induction false} DecimalOfDigitsValue(s: string)
    requires |s| >= 1 && AllDigits(s)
    requires s[0] == '0' ==> |s| == 1
    ensures ToDecimal(DigitsValue(s)) == s
  {
    if |s| > 1 {
      var init := s[..|s| - 1];
      DecimalOfDigitsValue(init);
      DigitsValuePositive(init);
      assert DigitsValue(s) / 10 == DigitsValue(init);
      assert ToDecimal(DigitsValue(s)) == ToDecimal(DigitsValue(init)) + [s[|s| - 1]];
      assert init + [s[|s| - 1]] == s;
    }
  }

  lemma {:induction false} DigitsValuePositive(s: string)
    requires |s| >= 1 && AllDigits(s) && s[0] != '0'
    ensures DigitsValue(s) >= 1
  {
    if |s| > 1 {
      DigitsValuePositive(s[..|s| - 1]);
    }
  }

  /** What `Number(value)` yields. */
  datatype Num = Finite(value: nat) | NaN | Undefined

  /** `Number(s)` for the strings this application hands it: surrounding whitespace is
      ignored, the empty string is 0 and a run of decimal digits is its value; every other
      string is NaN here. */
  function ToNumber(s: string): (r: Num)
    ensures r != Undefined
    ensures AllWhitespaceIn(s, 0, |s|) ==> r == Finite(0)
  {
    var t := Trim(s);
    if t == "" then Finite(0)
    else if AllDigits(t) then Finite(DigitsValue(t))
    else NaN
  }

  /** `Number(n.toString())` is `n`. */
  lemma ToNumberOfDecimal(n: nat)
    ensures ToNumber(ToDecimal(n)) == Finite(n)
  {
    var s := ToDecimal(n);
    TrimUnpadded(s);
    DigitsValueOfDecimal(n);
  }
}
