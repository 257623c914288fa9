/**
 * String utilities standing in for the JavaScript pieces the route handlers rely on:
 * the whitespace class `\s` and `String.prototype.trim`, literal and case-insensitive
 * substring search, the digit class `\d`, decimal values of digit strings (what
 * `parseFloat` yields on a `\d+(\.\d+)?` match) and the decimal rendering of an
 * integer inside a template literal.
 */
module Text {
  import opened Wrappers

  // ---------------------------------------------------------------------------
  // Whitespace and trimming
  // ---------------------------------------------------------------------------

  /** The fixed whitespace set used for both `\s` and `trim`. */
  predicate IsWhitespace(c: char) {
    c == ' ' || c == '\t' || c == '\n' || c == '\r' || c == '\U{000B}' || c == '\U{000C}'
  }

  predicate AllWhitespace(s: string) {
    forall i :: 0 <= i < |s| ==> IsWhitespace(s[i])
  }

  /** The index where a greedy `\s*` started at `i` stops: the first non-whitespace index, or |s|. */
  function SkipWhitespace(s: string, i: nat): (b: nat)
    requires i <= |s|
    ensures i <= b <= |s|
    ensures AllWhitespace(s[i..b])
    ensures b < |s| ==> !IsWhitespace(s[b])
    decreases |s| - i
  {
    if i < |s| && IsWhitespace(s[i]) then SkipWhitespace(s, i + 1) else i
  }

  /** The start of the whitespace run that ends at `j`. */
  function BackWhitespace(s: string, j: nat): (e: nat)
    requires j <= |s|
    ensures e <= j
    ensures AllWhitespace(s[e..j])
    ensures e > 0 ==> !IsWhitespace(s[e - 1])
  {
    if j > 0 && IsWhitespace(s[j - 1]) then
      var e := BackWhitespace(s, j - 1);
      assert s[e..j] == s[e..j - 1] + [s[j - 1]];
      e
    else j
  }

  /** `SkipWhitespace` stops exactly at the end of a whitespace run. */
  lemma {:induction false} SkipWhitespaceStopsAt(s: string, k: nat, i: nat)
    requires k <= i <= |s|
    requires AllWhitespace(s[k..i])
    requires i < |s| ==> !IsWhitespace(s[i])
    ensures SkipWhitespace(s, k) == i
    decreases i - k
  {
    if k < i {
      assert s[k..i][0] == s[k];
      assert s[k + 1..i] == s[k..i][1..];
      SkipWhitespaceStopsAt(s, k + 1, i);
    }
  }

  /** `BackWhitespace` stops exactly at the start of a whitespace run. */
  lemma {:induction false} BackWhitespaceStopsAt(s: string, e: nat, j: nat)
    requires e <= j <= |s|
    requires AllWhitespace(s[e..j])
    requires e > 0 ==> !IsWhitespace(s[e - 1])
    ensures BackWhitespace(s, j) == e
    decreases j - e
  {
    if e < j {
      assert s[e..j][j - 1 - e] == s[j - 1];
      assert s[e..j - 1] == s[e..j][..j - 1 - e];
      BackWhitespaceStopsAt(s, e, j - 1);
    }
  }

  /** `trim()`: drops leading whitespace, then trailing whitespace. */
  function Trim(s: string): (r: string)
    ensures |r| <= |s|
  {
    var b := SkipWhitespace(s, 0);
    var t := s[b..];
    t[..BackWhitespace(t, |t|)]
  }

  /** `trim()` keeps a slice of `s` that neither starts nor ends with whitespace and
      drops only whitespace on either side of it. */
  lemma TrimShape(s: string)
    ensures var r, b := Trim(s), SkipWhitespace(s, 0);
      && b + |r| <= |s| && r == s[b..b + |r|]
      && AllWhitespace(s[..b]) && AllWhitespace(s[b + |r|..])
      && (r != [] ==> !IsWhitespace(r[0]) && !IsWhitespace(r[|r| - 1]))
  {
    var b := SkipWhitespace(s, 0);
    var t := s[b..];
    var e := BackWhitespace(t, |t|);
    assert t[e..] == t[e..|t|];
    assert s[b + e..] == t[e..];
    assert s[..b] == s[0..b];
  }

  /** Trimming removes exactly the whitespace margins: any split of `s` into a
      whitespace margin, a core that starts and ends with non-whitespace, and a
      whitespace margin yields that core. */
  lemma TrimIsCore(s: string, i: nat, j: nat)
    requires i <= j <= |s|
    requires AllWhitespace(s[..i]) && AllWhitespace(s[j..])
    requires i < j ==> !IsWhitespace(s[i]) && !IsWhitespace(s[j - 1])
    ensures Trim(s) == s[i..j]
  {
    if i < j {
      assert s[0..i] == s[..i];
      SkipWhitespaceStopsAt(s, 0, i);
      var t := s[i..];
      assert t[j - i..|t|] == s[j..];
      assert t[j - i - 1] == s[j - 1];
      BackWhitespaceStopsAt(t, j - i, |t|);
    } else {
      assert s[0..|s|] == s[..i] + s[j..];
      SkipWhitespaceStopsAt(s, 0, |s|);
    }
  }

  /** Whitespace around a string does not change what `trim` returns. */
  lemma TrimIgnoresPadding(w1: string, x: string, w2: string)
    requires AllWhitespace(w1) && AllWhitespace(w2)
    ensures Trim(w1 + x + w2) == Trim(x)
  {
    TrimShape(x);
    var t := Trim(x);
    var b := SkipWhitespace(x, 0);
    var s := w1 + x + w2;
    var i, j := |w1| + b, |w1| + b + |t|;
    assert s[..i] == w1 + x[..b];
    assert s[j..] == x[b + |t|..] + w2;
    assert s[i..j] == t;
    if i < j {
      assert s[i] == t[0] && s[j - 1] == t[|t| - 1];
    }
    TrimIsCore(s, i, j);
  }

  /** Every slice of a whitespace-only slice is whitespace-only. */
  lemma AllWhitespaceSlice(s: string, i: nat, j: nat, i': nat, j': nat)
    requires i <= i' <= j' <= j <= |s| && AllWhitespace(s[i..j])
    ensures AllWhitespace(s[i'..j'])
  {
    forall k | 0 <= k < j' - i' ensures IsWhitespace(s[i'..j'][k]) {
      assert s[i'..j'][k] == s[i..j][k + i' - i];
    }
  }

  /** Dropping part of the leading whitespace before trimming changes nothing. */
  lemma TrimAfterWhitespace(t: string, k: nat)
    requires k <= |t| && AllWhitespace(t[..k])
    ensures Trim(t[k..]) == Trim(t)
  {
    TrimIgnoresPadding(t[..k], t[k..], "");
    assert t[..k] + t[k..] + "" == t;
  }

  /** Whitespace at the front of a slice does not change its trimmed text. */
  lemma TrimFromWhitespace(s: string, a: nat, b: nat, q: nat)
    requires a <= b <= q <= |s| && AllWhitespace(s[a..b])
    ensures Trim(s[b..q]) == Trim(s[a..q])
  {
    assert s[a..q] == s[a..b] + s[b..q] + "";
    TrimIgnoresPadding(s[a..b], s[b..q], "");
  }

  /** `SkipWhitespace` never passes a non-whitespace character. */
  lemma {:induction false} SkipWhitespaceAtMost(s: string, i: nat, w: nat)
    requires i <= w < |s| && !IsWhitespace(s[w])
    ensures SkipWhitespace(s, i) <= w
    decreases w - i
  {
    if i < w && IsWhitespace(s[i]) {
      SkipWhitespaceAtMost(s, i + 1, w);
    }
  }

  /** Trimming a whitespace-only string gives the empty string. */
  lemma TrimAllWhitespace(s: string)
    requires AllWhitespace(s)
    ensures Trim(s) == ""
  {
    TrimIsCore(s, |s|, |s|);
  }

  // ---------------------------------------------------------------------------
  // Substring search
  // ---------------------------------------------------------------------------

  /** ASCII upper-casing: the case folding a JavaScript `/i` regex applies to ASCII letters. */
  function AsciiUpper(c: char): (u: char)
    ensures 'a' <= c <= 'z' ==> u as int == c as int - 32
    ensures !('a' <= c <= 'z') ==> u == c
  {
    if 'a' <= c <= 'z' then (c as int - 32) as char else c
  }

  predicate CharMatches(c: char, p: char, ignoreCase: bool) {
    c == p || (ignoreCase && AsciiUpper(c) == AsciiUpper(p))
  }

  /** `pat` occurs in `s` at index `i` (character by character, optionally ignoring ASCII case). */
  predicate OccursAt(s: string, pat: string, i: nat, ignoreCase: bool) {
    i + |pat| <= |s| && SameText(s[i..i + |pat|], pat, ignoreCase)
  }

  /** Two strings of equal length that agree character by character. */
  predicate SameText(t: string, pat: string, ignoreCase: bool) {
    |t| == |pat| && forall k :: 0 <= k < |pat| ==> CharMatches(t[k], pat[k], ignoreCase)
  }

  /** The first occurrence of `pat` in `s` at or after `from`. */
  function IndexOf(s: string, pat: string, from: nat, ignoreCase: bool): (r: Option<nat>)
    ensures r.Some? ==> from <= r.value && OccursAt(s, pat, r.value, ignoreCase)
    ensures r.Some? ==> forall j :: from <= j < r.value ==> !OccursAt(s, pat, j, ignoreCase)
    ensures r.None? ==> forall j :: from <= j ==> !OccursAt(s, pat, j, ignoreCase)
    decreases |s| - from
  {
    if from + |pat| > |s| then None
    else if OccursAt(s, pat, from, ignoreCase) then Some(from)
    else IndexOf(s, pat, from + 1, ignoreCase)
  }

  /** `IndexOf` finds the first occurrence at or after `from`. */
  lemma IndexOfFirst(s: string, pat: string, from: nat, k: nat, ignoreCase: bool)
    requires from <= k && OccursAt(s, pat, k, ignoreCase)
    requires forall j :: from <= j < k ==> !OccursAt(s, pat, j, ignoreCase)
    ensures IndexOf(s, pat, from, ignoreCase) == Some(k)
  {
  }

  /** An occurrence that lies inside the middle part of `a + x + b` is an occurrence in `x`. */
  lemma OccursInside(a: string, x: string, b: string, pat: string, j: nat, ignoreCase: bool)
    requires |a| <= j && j + |pat| <= |a| + |x|
    ensures OccursAt(a + x + b, pat, j, ignoreCase) ==> OccursAt(x, pat, j - |a|, ignoreCase)
  {
    var s := a + x + b;
    assert s[j..j + |pat|] == x[j - |a|..j - |a| + |pat|];
  }

  /** Every character under an occurrence matches the pattern character above it. */
  lemma OccursCovers(s: string, pat: string, j: nat, k: nat, ignoreCase: bool)
    requires j <= k < j + |pat|
    ensures OccursAt(s, pat, j, ignoreCase) ==> CharMatches(s[k], pat[k - j], ignoreCase)
  {
    if OccursAt(s, pat, j, ignoreCase) {
      assert s[j..j + |pat|][k - j] == s[k];
    }
  }

  /** An exact occurrence of a pattern is also a case-insensitive one. */
  lemma ExactOccurrenceIgnoringCase(s: string, pat: string, i: nat)
    requires OccursAt(s, pat, i, false)
    ensures OccursAt(s, pat, i, true)
  {
  }

  /** `pat` occurs somewhere in `s`, matching exactly. */
  ghost predicate Mentions(s: string, pat: string) {
    exists i: nat :: OccursAt(s, pat, i, false)
  }

  /** A pattern occurring at `|a|` in `a + pat + b`. */
  lemma OccursAtJoin(a: string, pat: string, b: string)
    ensures OccursAt(a + pat + b, pat, |a|, false)
  {
    var s := a + pat + b;
    assert s[|a|..|a| + |pat|] == pat;
  }

  // ---------------------------------------------------------------------------
  // Digits and decimal numbers
  // ---------------------------------------------------------------------------

  /** `\d` in a JavaScript regex: ASCII digits only. */
  predicate IsDigit(c: char) {
    '0' <= c <= '9'
  }

  predicate AllDigits(s: string) {
    forall i :: 0 <= i < |s| ==> IsDigit(s[i])
  }

  /** The index where a greedy `\d+` (or `\d*`) started at `i` stops. */
  function DigitRunEnd(s: string, i: nat): (e: nat)
    requires i <= |s|
    ensures i <= e <= |s|
    ensures AllDigits(s[i..e])
    ensures e < |s| ==> !IsDigit(s[e])
    decreases |s| - i
  {
    if i < |s| && IsDigit(s[i]) then DigitRunEnd(s, i + 1) else i
  }

  function DigitValue(c: char): (d: nat)
    requires IsDigit(c)
    ensures d <= 9
  {
    c as int - '0' as int
  }

  function Pow10(n: nat): (p: nat)
    ensures p >= 1
  {
    if n == 0 then 1 else 10 * Pow10(n - 1)
  }

  /** The value of a string of decimal digits, most significant first. */
  function DigitsValue(ds: string): nat
    requires AllDigits(ds)
  {
    if ds == [] then 0 else DigitsValue(ds[..|ds| - 1]) * 10 + DigitValue(ds[|ds| - 1])
  }

  /** A string of n digits denotes a value below 10^n. */
  lemma {:induction false} DigitsValueBound(ds: string)
    requires AllDigits(ds)
    ensures DigitsValue(ds) < Pow10(|ds|)
  {
    if ds != [] {
      DigitsValueBound(ds[..|ds| - 1]);
    }
  }

  /** The decimal rendering of a natural number, as `${n}` writes it (no leading zeros). */
  function NatToDecimal(n: nat): (r: string)
    ensures r != [] && AllDigits(r)
    ensures |r| > 1 ==> r[0] != '0'
  {
    if n < 10 then [('0' as int + n) as char]
    else NatToDecimal(n / 10) + [('0' as int + n % 10) as char]
  }

  /** Reading back a rendered number gives the number. */
  lemma {:induction false} NatToDecimalRoundTrip(n: nat)
    ensures DigitsValue(NatToDecimal(n)) == n
  {
    var r := NatToDecimal(n);
    if n >= 10 {
      NatToDecimalRoundTrip(n / 10);
      assert r[..|r| - 1] == NatToDecimal(n / 10);
    }
  }

  /** The decimal rendering of an integer, with a minus sign when negative. */
  function IntToDecimal(n: int): string {
    if n < 0 then "-" + NatToDecimal(-n) else NatToDecimal(n)
  }
}
