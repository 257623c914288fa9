/**
 * The three regular-expression shapes the route handlers apply to a completion,
 * written as explicit searches that follow JavaScript's backtracking matcher:
 *
 *   RestAfter      `MARKER:\s*(.+?)$` and `MARKER:\s*(.+)$` with the `s` flag
 *   SpanUntil      `MARKER:\s*(.+?)(?=STOP|$)` with the `s` flag
 *   NumberField    `LABEL:\s*(\d+(?:\.\d+)?)` with the `i` flag, read by `parseFloat`
 *
 * `String.prototype.match` without the `g` flag reports the match that starts
 * leftmost, so each search walks the text from index 0.
 */
module Patterns {
  import opened Wrappers
  import opened Text

  // ---------------------------------------------------------------------------
  // Marker followed by the rest of the text
  // ---------------------------------------------------------------------------

  /** Group 1 of `MARKER:\s*(.+?)$` (equally `(.+)$`) with the `s` flag.  A match must
      start at the first occurrence of the marker (a later one would have to fit
      in the text after it, which is then non-empty, so the first one matches). */
  function RestAfter(s: string, marker: string, ignoreCase: bool): Option<string>
  {
    match IndexOf(s, marker, 0, ignoreCase)
    case None => None
    case Some(q) => RestFrom(s, q + |marker|)
  }

  /** The capture of `\s*(.+)$` tried at index `a`.  The greedy `\s*` takes all
      whitespace; when nothing else follows it gives back one character so that
      `.+` can match; at the end of the text there is no match. */
  function RestFrom(s: string, a: nat): Option<string>
    requires a <= |s|
  {
    if a == |s| then None
    else
      var b := SkipWhitespace(s, a);
      if b == |s| then Some(s[b - 1..]) else Some(s[b..])
  }

  /** The capture is absent exactly when no occurrence of the marker is followed by a character. */
  lemma RestAfterAbsent(s: string, marker: string, ignoreCase: bool)
    ensures RestAfter(s, marker, ignoreCase).None? <==>
      forall q: nat :: OccursAt(s, marker, q, ignoreCase) ==> q + |marker| == |s|
  {
    match IndexOf(s, marker, 0, ignoreCase)
    case None =>
    case Some(q0) =>
      if q0 + |marker| == |s| {
        forall q: nat | OccursAt(s, marker, q, ignoreCase) ensures q + |marker| == |s| {
          assert q >= q0;
        }
      }
  }

  /** After the first occurrence of the marker, the trimmed capture is the trimmed rest of the text. */
  lemma RestAfterFirstOccurrence(s: string, marker: string, ignoreCase: bool, q: nat)
    requires OccursAt(s, marker, q, ignoreCase)
    requires forall j :: 0 <= j < q ==> !OccursAt(s, marker, j, ignoreCase)
    requires q + |marker| < |s|
    ensures RestAfter(s, marker, ignoreCase).Some?
    ensures Trim(RestAfter(s, marker, ignoreCase).value) == Trim(s[q + |marker|..])
  {
    RestAfterAt(s, marker, ignoreCase, q);
    RestAfterTrim(s, marker, ignoreCase, q + |marker|);
  }

  /** Once the marker's first occurrence is known, the capture is the one from its end. */
  lemma RestAfterAt(s: string, marker: string, ignoreCase: bool, q: nat)
    requires OccursAt(s, marker, q, ignoreCase)
    requires forall j :: 0 <= j < q ==> !OccursAt(s, marker, j, ignoreCase)
    ensures RestAfter(s, marker, ignoreCase) == RestFrom(s, q + |marker|)
  {
    IndexOfFirst(s, marker, 0, q, ignoreCase);
  }

  /** The trimmed capture, once it is known to be the one from `a`. */
  lemma RestAfterTrim(s: string, marker: string, ignoreCase: bool, a: nat)
    requires a < |s| && RestAfter(s, marker, ignoreCase) == RestFrom(s, a)
    ensures RestAfter(s, marker, ignoreCase).Some?
    ensures Trim(RestAfter(s, marker, ignoreCase).value) == Trim(s[a..])
  {
    RestFromTrim(s, a);
    TrimTransfer(RestAfter(s, marker, ignoreCase), RestFrom(s, a), Trim(s[a..]));
  }

  /** From `a`, the trimmed capture is the trimmed rest of the text. */
  lemma RestFromTrim(s: string, a: nat)
    requires a < |s|
    ensures RestFrom(s, a).Some?
    ensures Trim(RestFrom(s, a).value) == Trim(s[a..])
  {
    var b := SkipWhitespace(s, a);
    var e := if b == |s| then b - 1 else b;
    assert RestFrom(s, a) == Some(s[e..]);
    AllWhitespaceSlice(s, a, b, a, e);
    assert Trim(s[e..]) == Trim(s[a..]) by {
      TrimFromWhitespace(s, a, e, |s|);
      SuffixSlice(s, a);
      SuffixSlice(s, e);
    }
  }

  /** The slice of `x + y` after `x` is `y`. */
  lemma SuffixAfter(x: string, y: string)
    ensures (x + y)[|x|..|x + y|] == y
  {
  }

  /** A slice up to the end is the suffix. */
  lemma SuffixSlice(s: string, i: nat)
    requires i <= |s|
    ensures s[i..|s|] == s[i..]
  {
  }

  /** Equal captures trim to the same text. */
  lemma TrimTransfer(x: Option<string>, y: Option<string>, t: string)
    requires x == y && y.Some? && Trim(y.value) == t
    ensures x.Some? && Trim(x.value) == t
  {
  }

  // ---------------------------------------------------------------------------
  // Marker followed by text up to a stop marker
  // ---------------------------------------------------------------------------

  /** The least index `e >= from` at which the lookahead `(?=STOP|$)` holds. */
  function StopOrEnd(s: string, stop: string, from: nat): (e: nat)
    requires from <= |s|
    ensures from <= e <= |s|
    ensures e == |s| || OccursAt(s, stop, e, false)
    ensures forall j :: from <= j < e ==> !OccursAt(s, stop, j, false)
  {
    match IndexOf(s, stop, from, false)
    case Some(q) => q
    case None => |s|
  }

  /** `StopOrEnd` finds the first stop marker at or after `from`, or the end. */
  lemma StopOrEndIs(s: string, stop: string, from: nat, q: nat)
    requires from <= q <= |s|
    requires q == |s| || OccursAt(s, stop, q, false)
    requires forall j :: from <= j < q ==> !OccursAt(s, stop, j, false)
    ensures StopOrEnd(s, stop, from) == q
  {
  }

  /** Group 1 of `MARKER:\s*(.+?)(?=STOP|$)` with the `s` flag.  As for `RestAfter`, the
      match starts at the first occurrence of the marker; the lazy group takes at
      least one character and stops at the first later position where STOP begins
      or the text ends. */
  function SpanUntil(s: string, marker: string, stop: string): Option<string>
  {
    match IndexOf(s, marker, 0, false)
    case None => None
    case Some(p) => SpanFrom(s, p + |marker|, stop)
  }

  /** The capture of `\s*(.+?)(?=STOP|$)` tried at index `a`. */
  function SpanFrom(s: string, a: nat, stop: string): Option<string>
    requires a <= |s|
  {
    if a == |s| then None
    else
      var b := SkipWhitespace(s, a);
      if b == |s| then Some(s[b - 1..])
      else Some(s[b..StopOrEnd(s, stop, b + 1)])
  }

  /** The capture is absent exactly when no occurrence of the marker is followed by a character. */
  lemma SpanUntilAbsent(s: string, marker: string, stop: string)
    ensures SpanUntil(s, marker, stop).None? <==>
      forall p: nat :: OccursAt(s, marker, p, false) ==> p + |marker| == |s|
  {
    match IndexOf(s, marker, 0, false)
    case None =>
    case Some(p0) =>
      if p0 + |marker| == |s| {
        forall p: nat | OccursAt(s, marker, p, false) ensures p + |marker| == |s| {
          assert p >= p0;
        }
      }
  }

  /** When the text after the first marker holds a non-whitespace character before
      the position `q` where the next stop marker (or the end) is, the trimmed
      capture is exactly the trimmed text between the marker and `q`. */
  lemma SpanUntilFirstOccurrence(s: string, marker: string, stop: string, p: nat, q: nat)
    requires OccursAt(s, marker, p, false)
    requires forall j :: 0 <= j < p ==> !OccursAt(s, marker, j, false)
    requires p + |marker| < q <= |s|
    requires q == |s| || OccursAt(s, stop, q, false)
    requires forall j :: p + |marker| < j < q ==> !OccursAt(s, stop, j, false)
    requires exists w :: p + |marker| <= w < q && !IsWhitespace(s[w])
    ensures SpanUntil(s, marker, stop).Some?
    ensures Trim(SpanUntil(s, marker, stop).value) == Trim(s[p + |marker|..q])
  {
    SpanUntilAt(s, marker, stop, p);
    SpanUntilTrim(s, marker, stop, p + |marker|, q);
  }

  /** The trimmed capture, once it is known to be the one from `a`. */
  lemma SpanUntilTrim(s: string, marker: string, stop: string, a: nat, q: nat)
    requires a < q <= |s| && exists w :: a <= w < q && !IsWhitespace(s[w])
    requires q == |s| || OccursAt(s, stop, q, false)
    requires forall j :: a < j < q ==> !OccursAt(s, stop, j, false)
    requires SpanUntil(s, marker, stop) == SpanFrom(s, a, stop)
    ensures SpanUntil(s, marker, stop).Some?
    ensures Trim(SpanUntil(s, marker, stop).value) == Trim(s[a..q])
  {
    var w :| a <= w < q && !IsWhitespace(s[w]);
    SpanFromTrim(s, a, stop, q, w);
    TrimTransfer(SpanUntil(s, marker, stop), SpanFrom(s, a, stop), Trim(s[a..q]));
  }

  /** From `a`, the trimmed capture is the trimmed text up to the stop position `q`. */
  lemma SpanFromTrim(s: string, a: nat, stop: string, q: nat, w: nat)
    requires a <= w < q <= |s| && !IsWhitespace(s[w])
    requires q == |s| || OccursAt(s, stop, q, false)
    requires forall j :: a < j < q ==> !OccursAt(s, stop, j, false)
    ensures SpanFrom(s, a, stop).Some? && Trim(SpanFrom(s, a, stop).value) == Trim(s[a..q])
  {
    SpanFromStop(s, a, stop, q, w);
    var b := SkipWhitespace(s, a);
    TrimFromWhitespace(s, a, b, q);
    TrimTransfer(SpanFrom(s, a, stop), Some(s[b..q]), Trim(s[a..q]));
  }

  /** Once the marker's first occurrence is known, the capture is the one from its end. */
  lemma SpanUntilAt(s: string, marker: string, stop: string, p: nat)
    requires OccursAt(s, marker, p, false)
    requires forall j :: 0 <= j < p ==> !OccursAt(s, marker, j, false)
    ensures SpanUntil(s, marker, stop) == SpanFrom(s, p + |marker|, stop)
  {
    IndexOfFirst(s, marker, 0, p, false);
  }

  /** From `a`, the capture runs from the first non-whitespace character up to the
      stop position `q`, when a non-whitespace character `s[w]` comes before `q`. */
  lemma SpanFromStop(s: string, a: nat, stop: string, q: nat, w: nat)
    requires a <= w < q <= |s| && !IsWhitespace(s[w])
    requires q == |s| || OccursAt(s, stop, q, false)
    requires forall j :: a < j < q ==> !OccursAt(s, stop, j, false)
    ensures SkipWhitespace(s, a) < q
    ensures SpanFrom(s, a, stop) == Some(s[SkipWhitespace(s, a)..q])
  {
    var b := SkipWhitespace(s, a);
    SkipWhitespaceAtMost(s, a, w);
    StopOrEndIs(s, stop, b + 1, q);
  }

  /** The capture in general: it starts at the first non-whitespace character `s[b]` after
      the first marker and runs up to the first stop marker that begins after `b`, or the
      end.  A blank gap before a stop marker thus makes the capture run on past it. */
  lemma SpanUntilFrom(s: string, marker: string, stop: string, p: nat, b: nat, q: nat)
    requires OccursAt(s, marker, p, false)
    requires forall j :: 0 <= j < p ==> !OccursAt(s, marker, j, false)
    requires p + |marker| <= b < q <= |s|
    requires AllWhitespace(s[p + |marker|..b]) && !IsWhitespace(s[b])
    requires q == |s| || OccursAt(s, stop, q, false)
    requires forall j :: b < j < q ==> !OccursAt(s, stop, j, false)
    ensures SpanUntil(s, marker, stop) == Some(s[b..q])
  {
    SpanUntilAt(s, marker, stop, p);
    SkipWhitespaceStopsAt(s, p + |marker|, b);
    StopOrEndIs(s, stop, b + 1, q);
  }

  /** When only whitespace follows the first marker up to the end, the trimmed capture is empty. */
  lemma SpanUntilBlank(s: string, marker: string, stop: string, p: nat)
    requires OccursAt(s, marker, p, false)
    requires forall j :: 0 <= j < p ==> !OccursAt(s, marker, j, false)
    requires p + |marker| < |s|
    requires AllWhitespace(s[p + |marker|..])
    ensures SpanUntil(s, marker, stop).Some?
    ensures Trim(SpanUntil(s, marker, stop).value) == ""
  {
    IndexOfFirst(s, marker, 0, p, false);
    var a := p + |marker|;
    assert s[a..][|s| - 1 - a] == s[|s| - 1];
    SkipWhitespaceStopsAt(s, a, |s|);
    assert s[|s| - 1..] == [s[|s| - 1]];
    TrimAllWhitespace(s[|s| - 1..]);
  }

  // ---------------------------------------------------------------------------
  // Labelled decimal numbers
  // ---------------------------------------------------------------------------

  /** `LABEL:\s*\d` matches at `i` ignoring ASCII case: the label, optional whitespace, a digit. */
  predicate NumberFieldAt(s: string, tag: string, i: nat) {
    && OccursAt(s, tag, i, true)
    && var b := SkipWhitespace(s, i + |tag|);
       b < |s| && IsDigit(s[b])
  }

  /** The leftmost position at or after `from` where `NumberFieldAt` holds.  Unlike the
      marker searches above, this is not always the first occurrence of the tag: a
      tag followed by something other than whitespace and a digit does not match,
      and the search goes on. */
  function FirstNumberField(s: string, tag: string, from: nat): (r: Option<nat>)
    ensures r.Some? ==> from <= r.value && NumberFieldAt(s, tag, r.value)
    ensures r.Some? ==> forall j :: from <= j < r.value ==> !NumberFieldAt(s, tag, j)
    ensures r.None? ==> forall j :: from <= j ==> !NumberFieldAt(s, tag, j)
    decreases |s| - from
  {
    if from + |tag| > |s| then None
    else if NumberFieldAt(s, tag, from) then Some(from)
    else FirstNumberField(s, tag, from + 1)
  }

  /** The value `parseFloat` gives to the `\d+(?:\.\d+)?` match that starts at digit `s[b]`:
      greedy digits, then a fraction only when a point and at least one digit follow. */
  function NumberAt(s: string, b: nat): (v: real)
    requires b < |s| && IsDigit(s[b])
    ensures v >= 0.0
  {
    var e := DigitRunEnd(s, b);
    var whole := DigitsValue(s[b..e]) as real;
    if e + 1 < |s| && s[e] == '.' && IsDigit(s[e + 1]) then
      var f := DigitRunEnd(s, e + 1);
      whole + DigitsValue(s[e + 1..f]) as real / Pow10(f - e - 1) as real
    else whole
  }

  /** The number a match at `i` captures. */
  function NumberAfter(s: string, tag: string, i: nat): real
    requires NumberFieldAt(s, tag, i)
  {
    NumberAt(s, SkipWhitespace(s, i + |tag|))
  }

  /** What `content.match(/LABEL:\s*(\d+(?:\.\d+)?)/i)` and `parseFloat` give. */
  function NumberField(s: string, tag: string): Option<real> {
    match FirstNumberField(s, tag, 0)
    case None => None
    case Some(i) => Some(NumberAfter(s, tag, i))
  }

  /** The search finds the leftmost match. */
  lemma FirstNumberFieldIs(s: string, tag: string, from: nat, i: nat)
    requires from <= i && NumberFieldAt(s, tag, i)
    requires forall j :: from <= j < i ==> !NumberFieldAt(s, tag, j)
    ensures FirstNumberField(s, tag, from) == Some(i)
  {
  }

  /** A label, whitespace and a numeral, followed by the end of the text or by a
      character that cannot extend the numeral, is read back as the numeral's value
      when the pattern matches nowhere in the text before the label. */
  lemma NumberFieldRoundTrip(pre: string, tag: string, ws: string, whole: string, frac: string, rest: string)
    requires AllWhitespace(ws) && IsNumeral(whole, frac)
    requires rest != [] ==> !IsDigit(rest[0]) && rest[0] != '.'
    requires var s := pre + tag + ws + NumeralText(whole, frac) + rest;
      forall j :: 0 <= j < |pre| ==> !NumberFieldAt(s, tag, j)
    ensures NumberField(pre + tag + ws + NumeralText(whole, frac) + rest, tag) == Some(NumeralValue(whole, frac))
  {
    var n := NumeralText(whole, frac);
    FieldLayout(pre, tag, ws, n, rest);
    NumberFieldFrom(pre + tag + ws + n + rest, tag, |pre|, |pre| + |tag| + |ws|, whole, frac);
  }

  /** A numeral after the leftmost occurrence of the label and some whitespace is read
      back with its exact value. */
  lemma NumberFieldFrom(s: string, tag: string, i: nat, b: nat, whole: string, frac: string)
    requires IsNumeral(whole, frac)
    requires i + |tag| <= b <= |s| && OccursAt(s, tag, i, false) && AllWhitespace(s[i + |tag|..b])
    requires forall j :: 0 <= j < i ==> !NumberFieldAt(s, tag, j)
    requires var n := NumeralText(whole, frac);
      b + |n| <= |s| && s[b..b + |n|] == n
      && (b + |n| < |s| ==> !IsDigit(s[b + |n|]) && s[b + |n|] != '.')
    ensures NumberField(s, tag) == Some(NumeralValue(whole, frac))
  {
    NumberAtNumeral(s, b, whole, frac);
    ExactOccurrenceIgnoringCase(s, tag, i);
    SkipWhitespaceStopsAt(s, i + |tag|, b);
    NumberFieldIs(s, tag, i);
  }

  /** The value read is the number after the leftmost match. */
  lemma NumberFieldIs(s: string, tag: string, i: nat)
    requires NumberFieldAt(s, tag, i)
    requires forall j :: 0 <= j < i ==> !NumberFieldAt(s, tag, j)
    ensures NumberField(s, tag) == Some(NumberAfter(s, tag, i))
  {
    FirstNumberFieldIs(s, tag, 0, i);
  }

  /** Where the parts of a labelled field sit in the text. */
  lemma FieldLayout(pre: string, tag: string, ws: string, n: string, rest: string)
    requires n != []
    ensures var s := pre + tag + ws + n + rest;
      var a := |pre| + |tag|;
      var b := a + |ws|;
      && |s| == b + |n| + |rest|
      && s[|pre|..a] == tag && s[a..b] == ws && s[b..b + |n|] == n && s[b] == n[0]
      && (b + |n| < |s| ==> s[b + |n|] == rest[0])
  {
    var x := pre + tag + ws;
    var s := x + n + rest;
    assert s[..|x|] == x;
    assert x[|pre|..|pre| + |tag|] == tag;
    assert x[|pre| + |tag|..] == ws;
    assert s[|x|..|x| + |n|] == n;
  }

  /** A decimal numeral of the shape the number pattern accepts: `whole` digits,
      and when `frac` is not empty a point and the `frac` digits. */
  predicate IsNumeral(whole: string, frac: string) {
    |whole| > 0 && AllDigits(whole) && AllDigits(frac)
  }

  function NumeralText(whole: string, frac: string): string {
    if frac == [] then whole else whole + "." + frac
  }

  /** The exact value of a numeral. */
  function NumeralValue(whole: string, frac: string): real
    requires IsNumeral(whole, frac)
  {
    DigitsValue(whole) as real + DigitsValue(frac) as real / Pow10(|frac|) as real
  }

  /** A numeral without a fraction denotes the value of its digits. */
  lemma WholeNumeralValue(whole: string)
    requires IsNumeral(whole, [])
    ensures NumeralValue(whole, []) == DigitsValue(whole) as real
  {
  }

  /** A numeral written at `b`, followed by the end of the text or by a character that
      is neither a digit nor a point, is read back with its exact value. */
  lemma NumberAtNumeral(s: string, b: nat, whole: string, frac: string)
    requires IsNumeral(whole, frac)
    requires var n := NumeralText(whole, frac);
      b + |n| <= |s| && s[b..b + |n|] == n
      && (b + |n| < |s| ==> !IsDigit(s[b + |n|]) && s[b + |n|] != '.')
    ensures IsDigit(s[b])
    ensures NumberAt(s, b) == NumeralValue(whole, frac)
  {
    var n := NumeralText(whole, frac);
    var w := b + |whole|;
    NumeralLayout(s, b, whole, frac);
    assert s[b] == whole[0];
    DigitRunEndStopsAt(s, b, w);
    if frac != [] {
      assert s[w + 1] == frac[0];
      DigitRunEndStopsAt(s, w + 1, b + |n|);
    }
  }

  /** Where the parts of a numeral written at `b` sit in the text. */
  lemma NumeralLayout(s: string, b: nat, whole: string, frac: string)
    requires var n := NumeralText(whole, frac); b + |n| <= |s| && s[b..b + |n|] == n
    ensures b + |whole| <= |s| && s[b..b + |whole|] == whole
    ensures frac != [] ==>
      && b + |whole| + 1 + |frac| <= |s| && s[b + |whole|] == '.'
      && s[b + |whole| + 1..b + |whole| + 1 + |frac|] == frac
  {
    var n := NumeralText(whole, frac);
    var w := b + |whole|;
    assert n[..|whole|] == whole;
    assert s[b..w] == s[b..b + |n|][..|whole|];
    if frac != [] {
      assert s[w] == n[|whole|];
      assert n[|whole| + 1..] == frac;
      assert s[w + 1..b + |n|] == s[b..b + |n|][|whole| + 1..];
    }
  }

  /** `DigitRunEnd` stops exactly at the end of a digit run. */
  lemma {:induction false} DigitRunEndStopsAt(s: string, b: nat, e: nat)
    requires b <= e <= |s|
    requires AllDigits(s[b..e])
    requires e < |s| ==> !IsDigit(s[e])
    ensures DigitRunEnd(s, b) == e
    decreases e - b
  {
    if b < e {
      assert s[b..e][0] == s[b];
      assert s[b + 1..e] == s[b..e][1..];
      DigitRunEndStopsAt(s, b + 1, e);
    }
  }
}
