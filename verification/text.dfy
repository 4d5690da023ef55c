/** String helpers shared by the normalisers: ASCII digits and decimal
    numerals, JavaScript's `String.prototype.trim`, ASCII case folding,
    substring search, the `/[^\d]/g` digit filter, the first `/\d+/` match
    and JavaScript's `Number(text)` on the digit strings the scrapers see. */
module Text {
  import opened Wrappers

  // ---------------------------------------------------------------- digits

  /** `\d` in a JavaScript regular expression without the `u` flag. */
  predicate IsDigit(c: char) { '0' <= c <= '9' }

  predicate AllDigits(s: string) {
    forall i :: 0 <= i < |s| ==> IsDigit(s[i])
  }

  predicate NoDigits(s: string) {
    forall i :: 0 <= i < |s| ==> !IsDigit(s[i])
  }

  function DigitValue(c: char): (d: nat)
    requires IsDigit(c)
    ensures d < 10
  {
    (c as int) - ('0' as int)
  }

  function DigitChar(d: nat): (c: char)
    requires d < 10
    ensures IsDigit(c) && DigitValue(c) == d
  {
    (('0' as int) + d) as char
  }

  /** The value of a decimal numeral, most significant digit first. */
  function DigitsValue(s: string): nat
    requires AllDigits(s)
  {
    if s == [] then 0 else DigitsValue(s[..|s| - 1]) * 10 + DigitValue(s[|s| - 1])
  }

  /** The shortest decimal numeral of `n`, as `String(n)` writes it; reading it
      back gives `n`. */
  function DecimalString(n: nat): (s: string)
    ensures |s| > 0 && AllDigits(s)
    ensures s[0] == '0' ==> n == 0
    ensures DigitsValue(s) == n
    decreases n
  {
    if n < 10 then [DigitChar(n)]
    else
      var prefix := DecimalString(n / 10);
      var s := prefix + [DigitChar(n % 10)];
      assert s[..|s| - 1] == prefix;
      s
  }

  /** `String(i)` for an integer: a minus sign before the magnitude. */
  function IntString(i: int): (s: string)
    ensures |s| > 0 && (s[0] == '-' <==> i < 0)
    ensures i >= 0 ==> s == DecimalString(i)
    ensures i < 0 ==> s[0] == '-' && s[1..] == DecimalString(-i)
  {
    if i < 0 then "-" + DecimalString(-i) else DecimalString(i)
  }

  /** Different numbers have different numerals (DecimalString is injective). */
  lemma DecimalStringInjective(m: nat, n: nat)
    requires DecimalString(m) == DecimalString(n)
    ensures m == n
  {
  }

  // ------------------------------------------------------------ whitespace

  /** The characters `String.prototype.trim` removes: WhiteSpace and
      LineTerminator of ECMAScript. */
  predicate IsJsWhitespace(c: char) {
    c in {' ', '\t', '\n', '\r', '\U{000B}', '\U{000C}', '\U{00A0}', '\U{1680}',
          '\U{2028}', '\U{2029}', '\U{202F}', '\U{205F}', '\U{3000}', '\U{FEFF}'}
    || '\U{2000}' <= c <= '\U{200A}'
  }

  predicate AllWhitespace(s: string) {
    forall i :: 0 <= i < |s| ==> IsJsWhitespace(s[i])
  }

  /** The number of whitespace characters `s` starts with. */
  function LeadingWhitespace(s: string): (n: nat)
    ensures n <= |s| && AllWhitespace(s[..n])
    ensures n == |s| || !IsJsWhitespace(s[n])
  {
    if s == [] || !IsJsWhitespace(s[0]) then 0
    else
      var n := LeadingWhitespace(s[1..]);
      assert s[..n + 1] == [s[0]] + s[1..][..n];
      n + 1
  }

  /** Drops leading whitespace: the longest suffix that does not start with
      whitespace. */
  function TrimStart(s: string): string {
    s[LeadingWhitespace(s)..]
  }

  /** Drops trailing whitespace: the result is the longest prefix that does
      not end with whitespace. */
  function TrimEnd(s: string): (r: string)
    ensures |r| <= |s| && r == s[..|r|]
    ensures AllWhitespace(s[|r|..])
    ensures r == [] || !IsJsWhitespace(r[|r| - 1])
  {
    if s == [] || !IsJsWhitespace(s[|s| - 1]) then s
    else
      var r := TrimEnd(s[..|s| - 1]);
      assert s[..|s| - 1][|r|..] == s[|r|..|s| - 1];
      r
  }

  /** `s.trim()`: the stretch of `s` left after removing whitespace from both
      ends; it neither starts nor ends with whitespace. */
  function Trim(s: string): (r: string)
    ensures |r| <= |s|
    ensures r == [] || (!IsJsWhitespace(r[0]) && !IsJsWhitespace(r[|r| - 1]))
    ensures exists a :: 0 <= a <= |s| - |r| && r == s[a..a + |r|] && AllWhitespace(s[..a]) && AllWhitespace(s[a + |r|..])
  {
    var a := LeadingWhitespace(s);
    var u := s[a..];
    var r := TrimEnd(u);
    assert u[..|r|] == s[a..a + |r|];
    assert u[|r|..] == s[a + |r|..];
    r
  }

  /** A whitespace-only prefix ends at or before any other character. */
  lemma WhitespacePrefixBefore(s: string, a: nat, i: nat)
    requires a <= |s| && i < |s| && AllWhitespace(s[..a]) && !IsJsWhitespace(s[i])
    ensures a <= i
  {
  }

  /** A whitespace-only suffix starts after any other character. */
  lemma WhitespaceSuffixAfter(s: string, b: nat, i: nat)
    requires b <= |s| && i < |s| && AllWhitespace(s[b..]) && !IsJsWhitespace(s[i])
    ensures i < b
  {
  }

  /** Trim keeps exactly the stretch `s[i..j]` when only whitespace lies
      outside it and neither end of it is whitespace. */
  lemma TrimBetween(s: string, i: nat, j: nat)
    requires i < j <= |s|
    requires AllWhitespace(s[..i]) && AllWhitespace(s[j..])
    requires !IsJsWhitespace(s[i]) && !IsJsWhitespace(s[j - 1])
    ensures Trim(s) == s[i..j]
  {
    LeadingWhitespaceAt(s, i);
    var u := s[i..];
    assert u[j - i..] == s[j..] && u[j - i - 1] == s[j - 1];
    TrimEndAt(u, j - i);
    assert u[..j - i] == s[i..j];
  }

  /** The leading whitespace ends at the first non-whitespace character. */
  lemma LeadingWhitespaceAt(s: string, i: nat)
    requires i < |s| && AllWhitespace(s[..i]) && !IsJsWhitespace(s[i])
    ensures LeadingWhitespace(s) == i
  {
    var n := LeadingWhitespace(s);
    WhitespacePrefixBefore(s, n, i);
    SameStart(s, n, i);
  }

  /** Trailing whitespace starts after the last non-whitespace character. */
  lemma TrimEndAt(u: string, j: nat)
    requires 0 < j <= |u| && AllWhitespace(u[j..]) && !IsJsWhitespace(u[j - 1])
    ensures TrimEnd(u) == u[..j]
  {
    var r := TrimEnd(u);
    WhitespaceSuffixAfter(u, |r|, j - 1);
    assert r[|r| - 1] == u[|r| - 1];
    SameEnd(u, |r|, j);
  }

  /** Two whitespace-only prefixes that each end at a non-whitespace
      character end at the same place. */
  lemma SameStart(s: string, a: nat, i: nat)
    requires a < |s| && i < |s|
    requires AllWhitespace(s[..a]) && !IsJsWhitespace(s[a])
    requires AllWhitespace(s[..i]) && !IsJsWhitespace(s[i])
    ensures a == i
  {
    WhitespacePrefixBefore(s, a, i);
    WhitespacePrefixBefore(s, i, a);
  }

  /** Two whitespace-only suffixes that each follow a non-whitespace
      character start at the same place. */
  lemma SameEnd(s: string, b: nat, j: nat)
    requires 0 < b <= |s| && 0 < j <= |s|
    requires AllWhitespace(s[b..]) && !IsJsWhitespace(s[b - 1])
    requires AllWhitespace(s[j..]) && !IsJsWhitespace(s[j - 1])
    ensures b == j
  {
    WhitespaceSuffixAfter(s, b, j - 1);
    WhitespaceSuffixAfter(s, j, b - 1);
  }

  /** Trimming removes exactly the whitespace around a text that neither
      starts nor ends with whitespace. */
  lemma TrimPadded(pre: string, t: string, post: string)
    requires AllWhitespace(pre) && AllWhitespace(post)
    requires t != [] && !IsJsWhitespace(t[0]) && !IsJsWhitespace(t[|t| - 1])
    ensures Trim(pre + t + post) == t
  {
    var s := pre + t + post;
    var i, j := |pre|, |pre| + |t|;
    assert s[..i] == pre && s[i..j] == t && s[j..] == post;
    TrimBetween(s, i, j);
  }

  /** Trimming twice is trimming once. */
  lemma TrimIdempotent(s: string)
    ensures Trim(Trim(s)) == Trim(s)
  {
    var t := Trim(s);
    assert TrimStart(t) == t;
    assert TrimEnd(t) == t;
  }

  /** A string of whitespace only trims to the empty string, and the trimmed
      string is empty only then. */
  lemma TrimEmptyIff(s: string)
    ensures Trim(s) == [] <==> AllWhitespace(s)
  {
    var u := TrimStart(s);
    if Trim(s) == [] {
      assert u == [];
      assert s[..|s| - |u|] == s;
    } else {
      var k := |s| - |u|;
      assert Trim(s)[0] == u[0] == s[k];
    }
  }

  // ------------------------------------------------------------ case folding

  /** ASCII lower-casing. For the all-ASCII needles searched here
      ("fully solved", "cloudflare", ...) this decides the same matches as
      Unicode `toLowerCase` and the `/i` flag: no other character lower-cases
      or canonicalises to one of their letters. */
  function LowerChar(c: char): (d: char)
    ensures 'A' <= c <= 'Z' ==> 'a' <= d <= 'z'
    ensures !('A' <= c <= 'Z') ==> d == c
  {
    if 'A' <= c <= 'Z' then ((c as int) + 32) as char else c
  }

  function ToLowerAscii(s: string): (r: string)
    ensures |r| == |s|
    ensures forall i :: 0 <= i < |s| ==> r[i] == LowerChar(s[i])
  {
    seq(|s|, i requires 0 <= i < |s| => LowerChar(s[i]))
  }

  // ------------------------------------------------------------ searching

  /** `s.includes(p)`: `p` is a prefix of `s` or occurs in the rest of it. */
  predicate Contains(s: string, p: string)
    decreases |s|
  {
    p <= s || (s != [] && Contains(s[1..], p))
  }

  /** Contains holds exactly when `p` starts at some position of `s`. */
  lemma {:induction false} ContainsAt(s: string, p: string)
    ensures Contains(s, p) <==> exists i :: 0 <= i <= |s| && p <= s[i..]
  {
    if s == [] {
      assert s[0..] == s;
    } else if p <= s {
      assert s[0..] == s;
    } else {
      ContainsAt(s[1..], p);
      if Contains(s[1..], p) {
        var j :| 0 <= j <= |s[1..]| && p <= s[1..][j..];
        assert s[1..][j..] == s[j + 1..];
      } else {
        forall i | 0 <= i <= |s| ensures !(p <= s[i..]) {
          if i > 0 {
            assert s[i..] == s[1..][i - 1..];
          }
        }
      }
    }
  }

  // ------------------------------------------------------------ digit filters

  /** `s.replace(/[^\d]/g, '')`: the digits of `s`, in order. */
  function StripNonDigits(s: string): (r: string)
    ensures AllDigits(r) && |r| <= |s|
    ensures r == [] <==> NoDigits(s)
  {
    if s == [] then []
    else if IsDigit(s[0]) then [s[0]] + StripNonDigits(s[1..])
    else
      assert forall i :: 1 <= i < |s| ==> s[i] == s[1..][i - 1];
      StripNonDigits(s[1..])
  }

  lemma {:induction false} StripNonDigitsConcat(a: string, b: string)
    ensures StripNonDigits(a + b) == StripNonDigits(a) + StripNonDigits(b)
  {
    if a == [] {
      assert a + b == b;
    } else {
      assert (a + b)[0] == a[0];
      assert (a + b)[1..] == a[1..] + b;
      StripNonDigitsConcat(a[1..], b);
    }
  }

  /** A string of digits is left unchanged. */
  lemma {:induction false} StripNonDigitsKeepsDigits(s: string)
    requires AllDigits(s)
    ensures StripNonDigits(s) == s
  {
    if s != [] {
      StripNonDigitsKeepsDigits(s[1..]);
    }
  }

  /** Stripping twice is stripping once. */
  lemma StripNonDigitsIdempotent(s: string)
    ensures StripNonDigits(StripNonDigits(s)) == StripNonDigits(s)
  {
    StripNonDigitsKeepsDigits(StripNonDigits(s));
  }

  /** Trimming a cell before stripping it changes nothing: whitespace is not a
      digit. */
  lemma StripNonDigitsIgnoresTrim(s: string)
    ensures StripNonDigits(Trim(s)) == StripNonDigits(s)
  {
    StripNonDigitsIgnoresTrimStart(s);
    StripNonDigitsIgnoresTrimEnd(TrimStart(s));
  }

  lemma {:induction false} StripNonDigitsIgnoresTrimStart(s: string)
    ensures StripNonDigits(TrimStart(s)) == StripNonDigits(s)
  {
    if s != [] && IsJsWhitespace(s[0]) {
      StripNonDigitsIgnoresTrimStart(s[1..]);
      assert TrimStart(s) == TrimStart(s[1..]);
    }
  }

  lemma {:induction false} StripNonDigitsIgnoresTrimEnd(s: string)
    ensures StripNonDigits(TrimEnd(s)) == StripNonDigits(s)
  {
    if s != [] && IsJsWhitespace(s[|s| - 1]) {
      StripNonDigitsIgnoresTrimEnd(s[..|s| - 1]);
      StripNonDigitsDropsLast(s);
    }
  }

  /** A trailing non-digit contributes nothing to the digits. */
  lemma StripNonDigitsDropsLast(s: string)
    requires s != [] && !IsDigit(s[|s| - 1])
    ensures StripNonDigits(s) == StripNonDigits(s[..|s| - 1])
  {
    var init, last := s[..|s| - 1], s[|s| - 1];
    assert s == init + [last];
    StripNonDigitsConcat(init, [last]);
    assert StripNonDigits([last]) == [];
  }

  /** The length of the leading run of digits of `s`. */
  function LeadingDigitCount(s: string): (n: nat)
    ensures n <= |s| && AllDigits(s[..n])
    ensures n == |s| || !IsDigit(s[n])
  {
    if s == [] || !IsDigit(s[0]) then 0
    else
      var n := LeadingDigitCount(s[1..]) + 1;
      assert s[..n] == [s[0]] + s[1..][..n - 1];
      n
  }

  /** The leading run of digits of `s`. */
  function LeadingDigits(s: string): string {
    s[..LeadingDigitCount(s)]
  }

  /** `s.match(/\d+/)?.[0]`: the leftmost, longest run of digits. */
  function FirstDigitRun(s: string): (r: Option<string>)
    ensures r.None? <==> NoDigits(s)
    ensures r.Some? ==> |r.value| > 0 && AllDigits(r.value)
  {
    if s == [] then None
    else if IsDigit(s[0]) then Some(LeadingDigits(s))
    else
      var r := FirstDigitRun(s[1..]);
      assert NoDigits(s[1..]) ==> NoDigits(s);
      r
  }

  /** Where the run found by FirstDigitRun sits: after a digit-free prefix,
      and followed by a non-digit or the end of `s`. */
  lemma {:induction false} FirstDigitRunPosition(s: string) returns (i: nat)
    requires FirstDigitRun(s).Some?
    ensures i + |FirstDigitRun(s).value| <= |s|
    ensures s[i..i + |FirstDigitRun(s).value|] == FirstDigitRun(s).value
    ensures NoDigits(s[..i])
    ensures i + |FirstDigitRun(s).value| == |s| || !IsDigit(s[i + |FirstDigitRun(s).value|])
  {
    if IsDigit(s[0]) {
      i := 0;
    } else {
      var j := FirstDigitRunPosition(s[1..]);
      i := j + 1;
      assert s[..i] == [s[0]] + s[1..][..j];
    }
  }

  // ------------------------------------------------------------ Number(text)

  /** JavaScript's `Number(text)` on the strings the scrapers see: the text is
      trimmed, an empty text is 0, a decimal numeral is its value and anything
      else is NaN (None). */
  function ToNumber(s: string): (r: Option<nat>)
    ensures AllWhitespace(s) ==> r == Some(0)
    ensures AllDigits(s) && s != [] ==> r == Some(DigitsValue(s))
    ensures r.None? <==> Trim(s) != [] && !AllDigits(Trim(s))
    ensures r.Some? && Trim(s) != [] ==> r.value == DigitsValue(Trim(s))
  {
    TrimEmptyIff(s);
    DigitsAreTrimmed(s);
    var t := Trim(s);
    if t == [] then Some(0)
    else if AllDigits(t) then Some(DigitsValue(t))
    else None
  }

  lemma DigitsAreTrimmed(s: string)
    ensures AllDigits(s) && s != [] ==> Trim(s) == s
  {
    if AllDigits(s) && s != [] {
      assert TrimStart(s) == s;
      assert TrimEnd(s) == s;
    }
  }

  /** `Number` trims its argument itself: trimming first changes nothing. */
  lemma ToNumberOfTrim(s: string)
    ensures ToNumber(Trim(s)) == ToNumber(s)
  {
    TrimIdempotent(s);
  }

  /** A decimal numeral with whitespace around it reads as its value. */
  lemma ToNumberPadded(pre: string, digits: string, post: string)
    requires AllWhitespace(pre) && AllWhitespace(post)
    requires AllDigits(digits) && digits != []
    ensures ToNumber(pre + digits + post) == Some(DigitsValue(digits))
  {
    TrimPadded(pre, digits, post);
  }

  /** Reading back what DecimalString writes. */
  lemma NumberOfDecimalString(n: nat)
    ensures ToNumber(DecimalString(n)) == Some(n)
  {
  }
}
