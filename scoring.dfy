/**
 * The scoring half of `POST /api/submissions`: the prompt sent to the completion
 * service, the reading of the four criterion scores and the feedback out of its
 * reply, the overall band, and the mock scores used in development.
 */
module Scoring {
  import opened Wrappers
  import opened Text
  import opened Patterns
  import opened Types

  // ---------------------------------------------------------------------------
  // The four criteria and their tags
  // ---------------------------------------------------------------------------

  /** The four IELTS writing criteria, in the order the handler reads and stores them. */
  datatype Criterion = TaskAchievement | CoherenceCohesion | LexicalResource | GrammaticalRange

  /** The label that introduces a criterion's score in the reply. */
  function Tag(c: Criterion): string {
    match c
    case TaskAchievement => "TASK_ACHIEVEMENT:"
    case CoherenceCohesion => "COHERENCE_COHESION:"
    case LexicalResource => "LEXICAL_RESOURCE:"
    case GrammaticalRange => "GRAMMATICAL_RANGE:"
  }

  const FeedbackTag: string := "FEEDBACK:"

  /** The four criterion scores and the feedback of one assessment. */
  datatype SubScores = SubScores(
    taskAchievement: real,
    coherenceCohesion: real,
    lexicalResource: real,
    grammaticalRange: real,
    feedback: string)
  {
    function Get(c: Criterion): real {
      match c
      case TaskAchievement => taskAchievement
      case CoherenceCohesion => coherenceCohesion
      case LexicalResource => lexicalResource
      case GrammaticalRange => grammaticalRange
    }
  }

  // ---------------------------------------------------------------------------
  // The scoring prompt
  // ---------------------------------------------------------------------------

  const ScoringSystemMessage: string :=
    "You are an experienced IELTS examiner. "
      + "Evaluate the writing based on the four IELTS criteria:\n"
      + "1. Task Achievement/Response (0-9)\n"
      + "2. Coherence and Cohesion (0-9)\n"
      + "3. Lexical Resource (0-9)\n"
      + "4. Grammatical Range and Accuracy (0-9)\n\n"
      + "Provide scores and detailed feedback. "
      + "Be fair but thorough in your assessment."

  /** The middle of the prompt: what to assess under each criterion. */
  function EvaluationRequest(): string {
    "Please evaluate this IELTS writing response and provide:\n\n"
      + "1. Task Achievement/Response (0-9): [score]\n"
      + "   - How well does it address the task?\n"
      + "   - Are all parts covered?\n"
      + "   - Is the position clear?\n\n"
      + "2. Coherence and Cohesion (0-9): [score]\n"
      + "   - How well organized is it?\n"
      + "   - Are ideas logically sequenced?\n"
      + "   - Are cohesive devices used effectively?\n\n"
      + "3. Lexical Resource (0-9): [score]\n"
      + "   - Range of vocabulary?\n"
      + "   - Accuracy of word choice?\n"
      + "   - Appropriate register?\n\n"
      + "4. Grammatical Range and Accuracy (0-9): [score]\n"
      + "   - Variety of structures?\n"
      + "   - Accuracy of grammar?\n"
      + "   - Punctuation?\n\n"
      + "FEEDBACK:\n"
      + "Provide specific, constructive feedback on how to improve in each area."
  }

  /** The chat request the handler sends to have a response to a question scored: the
      examiner system message and the scoring prompt. */
  datatype ScoringChat = ScoringChat(question: Question, content: string)
  {
    function System(): string {
      ScoringSystemMessage
    }

    function User(): string {
      GenerateScoringPrompt(question, content)
    }
  }

  /** One line of the requested reply format: a tag and the placeholder after it. */
  function FormatLine(tag: string, hint: string): string {
    tag + " " + hint + "\n"
  }

  /** The end of the prompt: one line per tag the reply is read for. */
  function ReplyFormat(): string {
    "Format your response as:\n"
    + FormatLine(Tag(TaskAchievement), "[score]")
    + FormatLine(Tag(CoherenceCohesion), "[score]")
    + FormatLine(Tag(LexicalResource), "[score]")
    + FormatLine(Tag(GrammaticalRange), "[score]")
    + FormatLine(FeedbackTag, "[detailed feedback]")
  }

  /** The start of the prompt: the stored question and the candidate's text. */
  function PromptHead(question: Question, content: string): string {
    "\nQUESTION (" + TestTypeName(question.testType) + " - " + TaskTypeName(question.taskType) + "):\n"
    + question.prompt + "\n\nINSTRUCTIONS:\n" + question.instructions
    + "\n\nCANDIDATE'S RESPONSE:\n" + content
  }

  /** The shape of the prompt around its fixed middle part. */
  function ScoringPromptWith(question: Question, content: string, evaluation: string): string {
    PromptHead(question, content) + "\n\n" + evaluation + "\n\n" + ReplyFormat()
  }

  /** `generateScoringPrompt`. */
  function GenerateScoringPrompt(question: Question, content: string): string {
    ScoringPromptWith(question, content, EvaluationRequest())
  }

  /** The opening of the prompt carries the question's test and task type, its prompt, its
      instructions and the candidate's text verbatim, in that order, after the labels that
      introduce them. */
  lemma HeadEmbeds(question: Question, content: string) returns (g: nat, h: nat, i: nat, j: nat, k: nat)
    ensures g < h < i < j < k
    ensures OccursAt(PromptHead(question, content), TestTypeName(question.testType), g, false)
    ensures OccursAt(PromptHead(question, content), TaskTypeName(question.taskType), h, false)
    ensures OccursAt(PromptHead(question, content), question.prompt, i, false)
    ensures OccursAt(PromptHead(question, content), question.instructions, j, false)
    ensures OccursAt(PromptHead(question, content), content, k, false)
  {
    var p, n := question.prompt, question.instructions;
    var b, c := "\n\nINSTRUCTIONS:\n", "\n\nCANDIDATE'S RESPONSE:\n";
    var t, a := TestTypeName(question.testType), TaskTypeName(question.taskType);
    var w0 := "\nQUESTION (";
    var w1 := w0 + t + " - ";
    var x1 := w1 + a + "):\n";
    var x2 := x1 + p + b;
    var x3 := x2 + n + c;
    var head := x3 + content;
    assert head == PromptHead(question, content);
    g, h, i, j, k := |w0|, |w1|, |x1|, |x2|, |x3|;
    assert OccursAt(x1, t, g, false) by {
      OccursAtEnd(w0, t);
      OccursPrefix(w0 + t, " - ", t, g);
      OccursPrefix(w1, a, t, g);
      OccursPrefix(w1 + a, "):\n", t, g);
    }
    assert OccursAt(x1, a, h, false) by {
      OccursAtEnd(w1, a);
      OccursPrefix(w1 + a, "):\n", a, h);
    }
    forall pat: string, at: nat | OccursAt(x1, pat, at, false) ensures OccursAt(head, pat, at, false) {
      OccursPrefix(x1, p, pat, at);
      OccursPrefix(x1 + p, b, pat, at);
      OccursPrefix(x2, n, pat, at);
      OccursPrefix(x2 + n, c, pat, at);
      OccursPrefix(x3, content, pat, at);
    }
    assert OccursAt(head, p, i, false) by {
      OccursAtEnd(x1, p);
      OccursPrefix(x1 + p, b, p, i);
      OccursPrefix(x2, n, p, i);
      OccursPrefix(x2 + n, c, p, i);
      OccursPrefix(x3, content, p, i);
    }
    assert OccursAt(head, n, j, false) by {
      OccursAtEnd(x2, n);
      OccursPrefix(x2 + n, c, n, j);
      OccursPrefix(x3, content, n, j);
    }
    assert OccursAt(head, content, k, false) by {
      OccursAtEnd(x3, content);
    }
  }

  /** The whole scoring prompt carries the same five texts verbatim, in the same order. */
  lemma PromptEmbeds(question: Question, content: string, evaluation: string)
    ensures var s := ScoringPromptWith(question, content, evaluation);
      exists g: nat, h: nat, i: nat, j: nat, k: nat ::
        && g < h < i < j < k
        && OccursAt(s, TestTypeName(question.testType), g, false)
        && OccursAt(s, TaskTypeName(question.taskType), h, false)
        && OccursAt(s, question.prompt, i, false)
        && OccursAt(s, question.instructions, j, false)
        && OccursAt(s, content, k, false)
  {
    var head := PromptHead(question, content);
    var g, h, i, j, k := HeadEmbeds(question, content);
    var y1 := head + "\n\n";
    var y2 := y1 + evaluation;
    var y3 := y2 + "\n\n";
    var s := y3 + ReplyFormat();
    assert s == ScoringPromptWith(question, content, evaluation);
    forall pat: string, at: nat | OccursAt(head, pat, at, false) ensures OccursAt(s, pat, at, false) {
      OccursPrefix(head, "\n\n", pat, at);
      OccursPrefix(y1, evaluation, pat, at);
      OccursPrefix(y2, "\n\n", pat, at);
      OccursPrefix(y3, ReplyFormat(), pat, at);
    }
    assert OccursAt(s, TestTypeName(question.testType), g, false);
    assert OccursAt(s, TaskTypeName(question.taskType), h, false);
    assert OccursAt(s, question.prompt, i, false);
    assert OccursAt(s, question.instructions, j, false);
    assert OccursAt(s, content, k, false);
  }

  /** Five format lines after a header show their five tags at the line starts. */
  lemma LinesShowTags(p0: string, t1: string, t2: string, t3: string, t4: string, t5: string,
                      h: string, h5: string)
    returns (i1: nat, i2: nat, i3: nat, i4: nat, i5: nat)
    ensures var f := p0 + FormatLine(t1, h) + FormatLine(t2, h) + FormatLine(t3, h)
                     + FormatLine(t4, h) + FormatLine(t5, h5);
      && OccursAt(f, t1, i1, false) && OccursAt(f, t2, i2, false) && OccursAt(f, t3, i3, false)
      && OccursAt(f, t4, i4, false) && OccursAt(f, t5, i5, false)
  {
    var p1 := p0 + FormatLine(t1, h);
    var p2 := p1 + FormatLine(t2, h);
    var p3 := p2 + FormatLine(t3, h);
    var p4 := p3 + FormatLine(t4, h);
    var l5 := FormatLine(t5, h5);
    var f := p4 + l5;
    i1, i2, i3, i4, i5 := |p0|, |p1|, |p2|, |p3|, |p4|;
    forall pat: string, at: nat | OccursAt(p1, pat, at, false) ensures OccursAt(p2, pat, at, false) {
      OccursPrefix(p1, FormatLine(t2, h), pat, at);
    }
    forall pat: string, at: nat | OccursAt(p2, pat, at, false) ensures OccursAt(p3, pat, at, false) {
      OccursPrefix(p2, FormatLine(t3, h), pat, at);
    }
    forall pat: string, at: nat | OccursAt(p3, pat, at, false) ensures OccursAt(p4, pat, at, false) {
      OccursPrefix(p3, FormatLine(t4, h), pat, at);
    }
    forall pat: string, at: nat | OccursAt(p4, pat, at, false) ensures OccursAt(f, pat, at, false) {
      OccursPrefix(p4, l5, pat, at);
    }
    LineShowsTag(p0, t1, h);
    LineShowsTag(p1, t2, h);
    LineShowsTag(p2, t3, h);
    LineShowsTag(p3, t4, h);
    LineShowsTag(p4, t5, h5);
  }

  /** The prompt names every tag the reply is read for, in its closing format section. */
  lemma PromptListsTags(question: Question, content: string, evaluation: string)
    ensures forall c :: Mentions(ScoringPromptWith(question, content, evaluation), Tag(c))
    ensures Mentions(ScoringPromptWith(question, content, evaluation), FeedbackTag)
  {
    var h := PromptHead(question, content) + "\n\n" + evaluation + "\n\n";
    var f := "Format your response as:\n" + FormatLine(Tag(TaskAchievement), "[score]")
      + FormatLine(Tag(CoherenceCohesion), "[score]") + FormatLine(Tag(LexicalResource), "[score]")
      + FormatLine(Tag(GrammaticalRange), "[score]") + FormatLine(FeedbackTag, "[detailed feedback]");
    assert f == ReplyFormat();
    var s := h + f;
    assert s == ScoringPromptWith(question, content, evaluation);
    var i1, i2, i3, i4, i5 := LinesShowTags("Format your response as:\n",
      Tag(TaskAchievement), Tag(CoherenceCohesion), Tag(LexicalResource), Tag(GrammaticalRange),
      FeedbackTag, "[score]", "[detailed feedback]");
    forall c ensures Mentions(s, Tag(c)) {
      var i := match c
        case TaskAchievement => i1
        case CoherenceCohesion => i2
        case LexicalResource => i3
        case GrammaticalRange => i4;
      OccursShift(h, f, Tag(c), i);
    }
    OccursShift(h, f, FeedbackTag, i5);
  }

  /** A pattern written at the end of `x` occurs there. */
  lemma OccursAtEnd(x: string, pat: string)
    ensures OccursAt(x + pat, pat, |x|, false)
  {
    assert (x + pat)[|x|..|x| + |pat|] == pat;
  }

  /** A line of the reply format shows its tag at its start. */
  lemma LineShowsTag(a: string, tag: string, hint: string)
    ensures OccursAt(a + FormatLine(tag, hint), tag, |a|, false)
  {
    assert a + FormatLine(tag, hint) == a + tag + (" " + hint + "\n");
    OccursAtJoin(a, tag, " " + hint + "\n");
  }

  /** An occurrence in `x` is still one after text is appended. */
  lemma OccursPrefix(x: string, y: string, pat: string, i: nat)
    requires OccursAt(x, pat, i, false)
    ensures OccursAt(x + y, pat, i, false)
  {
    assert (x + y)[i..i + |pat|] == x[i..i + |pat|];
  }

  /** An occurrence in `f` is an occurrence in `h + f`, shifted by `|h|`. */
  lemma OccursShift(h: string, f: string, pat: string, i: nat)
    requires OccursAt(f, pat, i, false)
    ensures OccursAt(h + f, pat, |h| + i, false)
  {
    assert (h + f)[|h| + i..|h| + i + |pat|] == f[i..i + |pat|];
  }

  // ---------------------------------------------------------------------------
  // Reading the reply
  // ---------------------------------------------------------------------------

  /** The score a criterion's label introduces, or 5.0 when the label is not followed
      by whitespace and a number anywhere in the reply. */
  function SubScore(content: string, c: Criterion): (v: real)
    ensures v >= 0.0
  {
    match NumberField(content, Tag(c))
    case Some(x) => x
    case None => 5.0
  }

  const NoFeedback: string := "No detailed feedback available."

  /** The trimmed text after the first `FEEDBACK:` (any case), or a fixed placeholder. */
  function ParsedFeedback(content: string): string {
    match RestAfter(content, FeedbackTag, true)
    case Some(t) => Trim(t)
    case None => NoFeedback
  }

  /** `parseScores`: the four criterion scores and the feedback read out of a reply. */
  function ParseScores(content: string): SubScores {
    SubScores(
      SubScore(content, TaskAchievement),
      SubScore(content, CoherenceCohesion),
      SubScore(content, LexicalResource),
      SubScore(content, GrammaticalRange),
      ParsedFeedback(content))
  }

  /** A criterion's score is the number after the leftmost place where its label
      (in any case) is followed by whitespace and a digit. */
  lemma SubScoreAtFirstMatch(content: string, c: Criterion, i: nat)
    requires NumberFieldAt(content, Tag(c), i)
    requires forall j :: 0 <= j < i ==> !NumberFieldAt(content, Tag(c), j)
    ensures ParseScores(content).Get(c) == NumberAfter(content, Tag(c), i)
  {
    NumberFieldIs(content, Tag(c), i);
  }

  /** A criterion whose label is never followed by whitespace and a digit scores 5.0. */
  lemma SubScoreDefault(content: string, c: Criterion)
    requires forall j: nat :: !NumberFieldAt(content, Tag(c), j)
    ensures ParseScores(content).Get(c) == 5.0
  {
  }

  /** A score written after its label is read back exactly, whatever its size: the
      reader does not clamp to the band scale. */
  lemma SubScoreRoundTrip(pre: string, c: Criterion, ws: string, whole: string, frac: string, rest: string)
    requires AllWhitespace(ws) && IsNumeral(whole, frac)
    requires rest != [] ==> !IsDigit(rest[0]) && rest[0] != '.'
    requires var s := pre + Tag(c) + ws + NumeralText(whole, frac) + rest;
      forall j :: 0 <= j < |pre| ==> !NumberFieldAt(s, Tag(c), j)
    ensures ParseScores(pre + Tag(c) + ws + NumeralText(whole, frac) + rest).Get(c) == NumeralValue(whole, frac)
  {
    NumberFieldRoundTrip(pre, Tag(c), ws, whole, frac, rest);
  }

  /** The feedback is the trimmed text after the first `FEEDBACK:`, in any case. */
  lemma FeedbackAfterFirst(content: string, q: nat)
    requires OccursAt(content, FeedbackTag, q, true)
    requires forall j :: 0 <= j < q ==> !OccursAt(content, FeedbackTag, j, true)
    requires q + |FeedbackTag| < |content|
    ensures ParseScores(content).feedback == Trim(content[q + |FeedbackTag|..])
  {
    RestAfterFirstOccurrence(content, FeedbackTag, true, q);
  }

  /** Without a `FEEDBACK:` followed by at least one character, the placeholder is used. */
  lemma FeedbackAbsent(content: string)
    requires forall q: nat :: OccursAt(content, FeedbackTag, q, true) ==> q + |FeedbackTag| == |content|
    ensures ParseScores(content).feedback == NoFeedback
  {
    RestAfterAbsent(content, FeedbackTag, true);
  }

  /** A reply with no recognisable field gets every default. */
  lemma NothingRecognised(content: string)
    requires forall c, j: nat :: !NumberFieldAt(content, Tag(c), j)
    requires forall q: nat :: OccursAt(content, FeedbackTag, q, true) ==> q + |FeedbackTag| == |content|
    ensures ParseScores(content) == SubScores(5.0, 5.0, 5.0, 5.0, NoFeedback)
  {
    forall c ensures ParseScores(content).Get(c) == 5.0 {
      SubScoreDefault(content, c);
    }
    FeedbackAbsent(content);
  }

  /** In particular the empty reply, which stands for a message without content. */
  lemma EmptyReplyDefaults()
    ensures ParseScores("") == SubScores(5.0, 5.0, 5.0, 5.0, NoFeedback)
  {
    NothingRecognised("");
  }

  /** A whole number after a label is read back as it is, however far above 9 it lies. */
  lemma SubScoreUnclamped(c: Criterion, n: nat)
    ensures ParseScores(Tag(c) + " " + NatToDecimal(n)).Get(c) == n as real
  {
    var d := NatToDecimal(n);
    BareNumeral(Tag(c), d);
    SubScoreRoundTrip([], c, " ", d, [], []);
    assert NumeralValue(d, []) == n as real by {
      WholeNumeralValue(d);
      NatToDecimalRoundTrip(n);
    }
  }

  lemma BareNumeral(tag: string, d: string)
    ensures [] + tag + " " + NumeralText(d, []) + [] == tag + " " + d
  {
  }

  // ---------------------------------------------------------------------------
  // The overall band
  // ---------------------------------------------------------------------------

  /** `Math.round` on an exact value: the nearest integer, halves rounded up. */
  function JsRound(x: real): (n: int)
    ensures n as real - 0.5 <= x < n as real + 0.5
  {
    (x + 0.5).Floor
  }

  /** A whole or half band. */
  predicate IsHalfStep(x: real) {
    (2.0 * x).Floor as real == 2.0 * x
  }

  /** `Math.round(x * 2) / 2`: the nearest half band, quarter points rounded up. */
  function HalfRound(x: real): (r: real)
    ensures IsHalfStep(r)
    ensures r - 0.25 <= x < r + 0.25
  {
    var n := JsRound(x * 2.0);
    assert (2.0 * (n as real / 2.0)).Floor == n;
    n as real / 2.0
  }

  /** The nearest half band is the only half band within a quarter below and above. */
  lemma HalfRoundUnique(x: real, r: real)
    requires IsHalfStep(r) && r - 0.25 <= x < r + 0.25
    ensures HalfRound(x) == r
  {
    var h := HalfRound(x);
    var a := (2.0 * r).Floor;
    var b := (2.0 * h).Floor;
    assert a as real == 2.0 * r && b as real == 2.0 * h;
    assert -1 < a - b < 1;
  }

  /** Rounding to half bands keeps order. */
  lemma HalfRoundMonotone(x: real, y: real)
    requires x <= y
    ensures HalfRound(x) <= HalfRound(y)
  {
    var a := (2.0 * HalfRound(x)).Floor;
    var b := (2.0 * HalfRound(y)).Floor;
    assert a as real == 2.0 * HalfRound(x) && b as real == 2.0 * HalfRound(y);
    assert a - 1 < b + 1;
  }

  /** Shifting by half a band shifts the rounded value by the same amount. */
  lemma HalfRoundShift(x: real, d: real)
    requires IsHalfStep(d)
    ensures HalfRound(x + d) == HalfRound(x) + d
  {
    var r := HalfRound(x);
    assert IsHalfStep(r + d) by {
      var a := (2.0 * r).Floor;
      var b := (2.0 * d).Floor;
      assert (2.0 * (r + d)).Floor == a + b;
    }
    HalfRoundUnique(x + d, r + d);
  }

  /** Rounding keeps a value between two half bands between them. */
  lemma HalfRoundBetween(x: real, lo: real, hi: real)
    requires IsHalfStep(lo) && IsHalfStep(hi) && lo <= x <= hi
    ensures lo <= HalfRound(x) <= hi
  {
    HalfRoundUnique(lo, lo);
    HalfRoundUnique(hi, hi);
    HalfRoundMonotone(lo, x);
    HalfRoundMonotone(x, hi);
  }

  /** The mean of the four criterion scores. */
  function Mean(s: SubScores): real {
    (s.taskAchievement + s.coherenceCohesion + s.lexicalResource + s.grammaticalRange) / 4.0
  }

  /** The overall band: the mean of the four criteria rounded to the nearest half band,
      a mean a quarter above a band rounded up. */
  function OverallBand(s: SubScores): (r: real)
    ensures IsHalfStep(r)
    ensures r - 0.25 <= Mean(s) < r + 0.25
  {
    HalfRound(Mean(s))
  }

  /** Criterion scores between two half bands give an overall band between them; in
      particular scores on the 0-9 scale give a band on that scale, and four equal
      half-band scores give that band. */
  lemma BandWithinBounds(s: SubScores, lo: real, hi: real)
    requires IsHalfStep(lo) && IsHalfStep(hi)
    requires forall c :: lo <= s.Get(c) <= hi
    ensures lo <= OverallBand(s) <= hi
  {
    assert lo <= s.Get(TaskAchievement) && lo <= s.Get(CoherenceCohesion);
    assert lo <= s.Get(LexicalResource) && lo <= s.Get(GrammaticalRange);
    assert s.Get(TaskAchievement) <= hi && s.Get(CoherenceCohesion) <= hi;
    assert s.Get(LexicalResource) <= hi && s.Get(GrammaticalRange) <= hi;
    HalfRoundBetween(Mean(s), lo, hi);
  }

  /** In half-band units: with criterion scores k1/2 .. k4/2 the band is
      floor((k1 + k2 + k3 + k4 + 2) / 4) / 2. */
  lemma BandInHalfUnits(k1: int, k2: int, k3: int, k4: int, feedback: string)
    ensures var s := SubScores(k1 as real / 2.0, k2 as real / 2.0, k3 as real / 2.0, k4 as real / 2.0, feedback);
      OverallBand(s) == ((k1 + k2 + k3 + k4 + 2) / 4) as real / 2.0
  {
    var s := SubScores(k1 as real / 2.0, k2 as real / 2.0, k3 as real / 2.0, k4 as real / 2.0, feedback);
    var t := k1 + k2 + k3 + k4;
    var n := (t + 2) / 4;
    assert Mean(s) == t as real / 8.0;
    assert 4 * n <= t + 2 < 4 * n + 4;
    assert IsHalfStep(n as real / 2.0) by {
      assert (2.0 * (n as real / 2.0)).Floor == n;
    }
    HalfRoundUnique(Mean(s), n as real / 2.0);
  }

  /** Four equal half-band scores give that band: 9, 9, 9 and 9 give 9, and 0, 0, 0 and 0 give 0. */
  lemma EqualScoresBand(x: real, feedback: string)
    requires IsHalfStep(x)
    ensures OverallBand(SubScores(x, x, x, x, feedback)) == x
  {
    HalfRoundUnique(x, x);
  }

  /** A mean of 6.25 is rounded up: 6.5, 7, 5.5 and 6 give 6.5. */
  lemma BandRoundsQuarterUp()
    ensures OverallBand(SubScores(6.5, 7.0, 5.5, 6.0, "")) == 6.5
  {
    BandInHalfUnits(13, 14, 11, 12, "");
    assert SubScores(6.5, 7.0, 5.5, 6.0, "") == SubScores(13 as real / 2.0, 14 as real / 2.0, 11 as real / 2.0, 12 as real / 2.0, "");
  }

  /** A mean just below a quarter above a band is rounded down: 6, 6, 6 and 6.5 give 6. */
  lemma BandRoundsEighthDown()
    ensures OverallBand(SubScores(6.0, 6.0, 6.0, 6.5, "")) == 6.0
  {
    BandInHalfUnits(12, 12, 12, 13, "");
    assert SubScores(6.0, 6.0, 6.0, 6.5, "") == SubScores(12 as real / 2.0, 12 as real / 2.0, 12 as real / 2.0, 13 as real / 2.0, "");
  }

  // ---------------------------------------------------------------------------
  // Mock scores
  // ---------------------------------------------------------------------------

  /** `Math.min(9, Math.max(4, x))`. */
  function Clamp(x: real): (r: real)
    ensures 4.0 <= r <= 9.0
    ensures 4.0 <= x <= 9.0 ==> r == x
  {
    if x < 4.0 then 4.0 else if x > 9.0 then 9.0 else x
  }

  /** The starting band for mock scores: 6.5 for a response of at least 150 words, 5 otherwise. */
  function MockBase(wordCount: int): real {
    if wordCount >= 150 then 6.5 else 5.0
  }

  /** `Math.random() * 1.5 - 0.5` for a draw `random`. */
  function Variance(random: real): real {
    random * 1.5 - 0.5
  }

  const MockFeedbackHead: string := "MOCK FEEDBACK (Development Mode):\n\n"
    + "Task Achievement: Your response addresses the task with "

  const MockFeedbackTail: string := " words. Good attempt at covering the main points.\n\n"
    + "Coherence and Cohesion: The organization of ideas is generally clear. "
    + "Consider using more linking words to improve flow.\n\n"
    + "Lexical Resource: You demonstrate a reasonable range of vocabulary. "
    + "Try to use more varied and precise word choices.\n\n"
    + "Grammatical Range and Accuracy: Your grammar is generally accurate with some complexity. "
    + "Focus on using a wider range of structures.\n\n"
    + "Overall: This is mock feedback for development/testing. "
    + "Enable real AI scoring by setting USE_MOCK_AI=false and adding an OpenAI API key."

  /** The fixed mock feedback, which reports the word count. */
  function MockFeedback(wordCount: int): string {
    MockFeedbackHead + IntToDecimal(wordCount) + MockFeedbackTail
  }

  /** `generateMockScores` for a draw `random` of `Math.random()`; the response text
      is not looked at. */
  function MockScores(content: string, wordCount: int, random: real): SubScores {
    MockScoresWith(wordCount, random, MockFeedback(wordCount))
  }

  /** The mock scores with a given feedback text.  Each score is a half band on the
      4-9 scale, the grammar score equals the task score, and coherence scores at
      least the task score, which is at least the vocabulary score. */
  function MockScoresWith(wordCount: int, random: real, feedback: string): (s: SubScores)
    ensures forall c :: 4.0 <= s.Get(c) <= 9.0 && IsHalfStep(s.Get(c))
    ensures s.grammaticalRange == s.taskAchievement
    ensures s.lexicalResource <= s.taskAchievement <= s.coherenceCohesion
    ensures s.feedback == feedback
  {
    var x := MockBase(wordCount) + Variance(random);
    HalfRoundBetween(Clamp(x), 4.0, 9.0);
    HalfRoundBetween(Clamp(x + 0.5), 4.0, 9.0);
    HalfRoundBetween(Clamp(x - 0.5), 4.0, 9.0);
    HalfRoundMonotone(Clamp(x), Clamp(x + 0.5));
    HalfRoundMonotone(Clamp(x - 0.5), Clamp(x));
    SubScores(
      HalfRound(Clamp(x)),
      HalfRound(Clamp(x + 0.5)),
      HalfRound(Clamp(x - 0.5)),
      HalfRound(Clamp(x)),
      feedback)
  }

  /** For a draw in [0, 1) the clamp never applies: the task score lies between half a
      band below the base and a band above it, coherence is exactly half a band above
      it and vocabulary half a band below, and the overall band is the task score. */
  lemma MockScoresAroundBase(wordCount: int, random: real, feedback: string)
    requires 0.0 <= random < 1.0
    ensures var s := MockScoresWith(wordCount, random, feedback);
      var b := MockBase(wordCount);
      && b - 0.5 <= s.taskAchievement <= b + 1.0
      && s.coherenceCohesion == s.taskAchievement + 0.5
      && s.lexicalResource == s.taskAchievement - 0.5
      && OverallBand(s) == s.taskAchievement
  {
    var s := MockScoresWith(wordCount, random, feedback);
    var b := MockBase(wordCount);
    var x := b + Variance(random);
    assert b - 0.5 <= x < b + 1.0;
    assert s.taskAchievement == HalfRound(x) && s.grammaticalRange == HalfRound(x) by {
      assert Clamp(x) == x;
    }
    assert s.coherenceCohesion == HalfRound(x) + 0.5 by {
      assert Clamp(x + 0.5) == x + 0.5;
      HalfRoundShift(x, 0.5);
    }
    assert s.lexicalResource == HalfRound(x) - 0.5 by {
      assert Clamp(x - 0.5) == x + -0.5;
      HalfRoundShift(x, -0.5);
    }
    assert b - 0.5 <= HalfRound(x) <= b + 1.0 by {
      HalfRoundBetween(x, b - 0.5, b + 1.0);
    }
    assert Mean(s) == s.taskAchievement;
    HalfRoundUnique(Mean(s), s.taskAchievement);
  }

  /** The overall band of mock scores is on the 4-9 scale, and for a draw in [0, 1) it
      is the task score. */
  lemma MockBand(wordCount: int, random: real, feedback: string)
    ensures var s := MockScoresWith(wordCount, random, feedback);
      && 4.0 <= OverallBand(s) <= 9.0
      && (0.0 <= random < 1.0 ==> OverallBand(s) == s.taskAchievement)
  {
    var s := MockScoresWith(wordCount, random, feedback);
    BandWithinBounds(s, 4.0, 9.0);
    if 0.0 <= random < 1.0 {
      MockScoresAroundBase(wordCount, random, feedback);
    }
  }

  /** The same for the mock scores of a response. */
  lemma MockScoresBand(content: string, wordCount: int, random: real)
    ensures var s := MockScores(content, wordCount, random);
      && (forall c :: 4.0 <= s.Get(c) <= 9.0)
      && 4.0 <= OverallBand(s) <= 9.0
      && (0.0 <= random < 1.0 ==> OverallBand(s) == s.taskAchievement)
  {
    MockBand(wordCount, random, MockFeedback(wordCount));
  }

  /** The mock scores do not depend on the response text. */
  lemma MockIgnoresContent(content1: string, content2: string, wordCount: int, random: real)
    ensures MockScores(content1, wordCount, random) == MockScores(content2, wordCount, random)
  {
  }

  /** The mock feedback reports the word count in decimal. */
  lemma MockFeedbackReportsCount(wordCount: nat)
    ensures Mentions(MockFeedback(wordCount), NatToDecimal(wordCount))
    ensures DigitsValue(NatToDecimal(wordCount)) == wordCount
  {
    ShowsNumber(MockFeedbackHead, wordCount, MockFeedbackTail);
  }

  lemma ShowsNumber(head: string, n: nat, tail: string)
    ensures Mentions(head + IntToDecimal(n) + tail, NatToDecimal(n))
    ensures DigitsValue(NatToDecimal(n)) == n
  {
    var d := NatToDecimal(n);
    assert (head + d + tail)[|head|..|head| + |d|] == d;
    assert OccursAt(head + d + tail, d, |head|, false);
    NatToDecimalRoundTrip(n);
  }
}
