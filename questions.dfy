/**
 * `POST /api/questions`: builds a question-writing prompt for the requested
 * (test type, task type), asks the completion service for a question (or takes a
 * fixed mock question), reads the `PROMPT:` and `INSTRUCTIONS:` fields out of the
 * reply and stores the question with the word count and time limit of its task.
 */
module Questions {
  import opened Wrappers
  import opened Text
  import opened Patterns
  import opened Types
  import opened Store

  // ---------------------------------------------------------------------------
  // Prompt builder
  // ---------------------------------------------------------------------------

  const PromptMarker: string := "PROMPT:"
  const InstructionsMarker: string := "INSTRUCTIONS:"

  /** The shape shared by the four prompts: a task line, two items to provide, and
      the reply format, with each continuation line indented by six spaces. */
  function PromptTemplate(task: string, item1: string, item2: string, promptHint: string,
                          instructionsHint: string): string
  {
    task + "\n\n      Provide:\n      1. " + item1 + "\n      2. " + item2
    + "\n\n      Format your response as:\n      "
    + PromptMarker + " " + promptHint + "\n      " + InstructionsMarker + " " + instructionsHint
  }

  /** `generatePromptForQuestion`: the request sent to the completion service, the
      template filled with the pieces of the requested test and task. */
  function GeneratePromptForQuestion(test: TestType, task: TaskType): string {
    PromptTemplate(TaskLine(test, task), FirstItem(test, task), SecondItem(test, task),
                   PromptHint(test, task), InstructionsHint(test, task))
  }

  /** The opening line of each prompt. */
  function TaskLine(test: TestType, task: TaskType): string {
    match (test, task)
    case (Academic, Task1) =>
      "Generate an IELTS Academic Writing Task 1 question. "
        + "This should describe visual information (a graph, table, chart, or diagram)."
    case (Academic, Task2) =>
      "Generate an IELTS Academic Writing Task 2 essay question on a relevant contemporary topic."
    case (General, Task1) =>
      "Generate an IELTS General Training Writing Task 1 letter question."
    case (General, Task2) =>
      "Generate an IELTS General Training Writing Task 2 essay question on a topic of general interest."
  }

  /** What the question itself must provide. */
  function FirstItem(test: TestType, task: TaskType): string {
    match (test, task)
    case (Academic, Task1) => "A clear description of what visual data the candidate should describe"
    case (Academic, Task2) => "A clear essay question that presents a point of view, argument, or problem"
    case (General, Task1) =>
      "A scenario requiring the candidate to write a letter (formal, semi-formal, or informal)"
    case (General, Task2) => "A clear essay question"
  }

  /** What the instructions must provide. */
  function SecondItem(test: TestType, task: TaskType): string {
    if (test, task) == (General, Task1) then
      "Instructions that match official IELTS format including bullet points of what to include"
    else
      "Instructions that match official IELTS format"
  }

  /** The placeholder shown after `PROMPT:`. */
  function PromptHint(test: TestType, task: TaskType): string {
    match (test, task)
    case (Academic, Task1) => "[description of the visual]"
    case (General, Task1) => "[the letter scenario]"
    case (_, Task2) => "[the essay question]"
  }

  /** The placeholder shown after `INSTRUCTIONS:`. */
  function InstructionsHint(test: TestType, task: TaskType): string {
    if (test, task) == (General, Task1) then "[the official-style instructions with bullet points]"
    else "[the official-style instructions]"
  }

  /** Every prompt is non-empty and asks for a `PROMPT:` field followed by an
      `INSTRUCTIONS:` field. */
  lemma PromptHasMarkers(test: TestType, task: TaskType)
    ensures GeneratePromptForQuestion(test, task) != []
    ensures exists i: nat, j: nat ::
      && i < j
      && OccursAt(GeneratePromptForQuestion(test, task), PromptMarker, i, false)
      && OccursAt(GeneratePromptForQuestion(test, task), InstructionsMarker, j, false)
  {
    TemplateHasMarkers(TaskLine(test, task), FirstItem(test, task), SecondItem(test, task),
                       PromptHint(test, task), InstructionsHint(test, task));
  }

  lemma TemplateHasMarkers(task: string, item1: string, item2: string, promptHint: string,
                           instructionsHint: string)
    ensures PromptTemplate(task, item1, item2, promptHint, instructionsHint) != []
    ensures exists i: nat, j: nat ::
      && i < j
      && OccursAt(PromptTemplate(task, item1, item2, promptHint, instructionsHint), PromptMarker, i, false)
      && OccursAt(PromptTemplate(task, item1, item2, promptHint, instructionsHint), InstructionsMarker, j, false)
  {
    var s := PromptTemplate(task, item1, item2, promptHint, instructionsHint);
    var a := task + "\n\n      Provide:\n      1. " + item1 + "\n      2. " + item2
      + "\n\n      Format your response as:\n      ";
    var b := " " + promptHint + "\n      ";
    var c := " " + instructionsHint;
    assert s == a + PromptMarker + (b + InstructionsMarker + c);
    assert s == (a + PromptMarker + b) + InstructionsMarker + c;
    OccursAtJoin(a, PromptMarker, b + InstructionsMarker + c);
    OccursAtJoin(a + PromptMarker + b, InstructionsMarker, c);
    assert |a| < |a + PromptMarker + b|;
  }

  // ---------------------------------------------------------------------------
  // Static tables
  // ---------------------------------------------------------------------------

  /** The prompt and instructions of a question, before it is stored. */
  datatype QuestionText = QuestionText(prompt: string, instructions: string)

  /** The minimum word count stored with a question: 150 for task 1, 250 for task 2. */
  function MinimumWords(task: TaskType): int {
    if task == Task1 then 150 else 250
  }

  /** The time limit in minutes stored with a question: 20 for task 1, 40 for task 2. */
  function TimeLimit(task: TaskType): int {
    if task == Task1 then 20 else 40
  }

  /** `getDefaultInstructions`. */
  function DefaultInstructions(test: TestType, task: TaskType): string {
    if task == Task2 then
      "Give reasons for your answer and include any relevant examples from your own knowledge or experience. "
        + "Write at least 250 words."
    else if test == Academic then
      "Summarise the information by selecting and reporting the main features, and make comparisons where relevant. "
        + "Write at least 150 words."
    else
      "Write at least 150 words. "
        + "You do NOT need to write any addresses. "
        + "Begin your letter as follows: Dear..."
  }

  /** `generateMockQuestion`: a fixed question per (test type, task type). */
  function MockQuestion(test: TestType, task: TaskType): QuestionText {
    QuestionText(MockPrompt(test, task), MockInstructions(test, task))
  }

  function MockPrompt(test: TestType, task: TaskType): string {
    if test == Academic then
      if task == Task1 then
        "The bar chart shows the percentage of adults in different age groups who used the internet in the UK between 2000 and 2020. "
          + "Summarise the information by selecting and reporting the main features, and make comparisons where relevant."
      else
        "Some people believe that university students should be required to attend classes. "
          + "Others believe that going to classes should be optional for students. "
          + "Discuss both these views and give your own opinion."
    else
      if task == Task1 then
        "You recently bought a product online, but when it arrived, it was damaged. "
          + "Write a letter to the company. "
          + "In your letter:\n"
          + "- Explain what the product was\n"
          + "- Describe the damage\n"
          + "- Say what you want the company to do about it"
      else
        "In many countries, people are now living longer than ever before. "
          + "Some people say an ageing population creates problems for governments. "
          + "Other people think there are benefits if society has more elderly people. "
          + "To what extent do the advantages of having an ageing population outweigh the disadvantages?"
  }

  function MockInstructions(test: TestType, task: TaskType): string {
    if task == Task2 then
      "Give reasons for your answer and include any relevant examples from your own knowledge or experience. "
        + "Write at least 250 words."
    else if test == Academic then "Write at least 150 words."
    else
      "Write at least 150 words. "
      + "You do NOT need to write any addresses. "
      + "Begin your letter as follows: Dear Sir or Madam,"
  }

  /** The mock task 2 questions carry the default task 2 instructions. */
  lemma MockEssayInstructions(test: TestType)
    ensures MockInstructions(test, Task2) == DefaultInstructions(test, Task2)
    ensures DefaultInstructions(Academic, Task2) == DefaultInstructions(General, Task2)
  {
  }

  // ---------------------------------------------------------------------------
  // Reading the completion
  // ---------------------------------------------------------------------------

  /** `parseQuestionResponse`: the prompt and instructions read out of a reply. */
  function ParseQuestionResponse(content: string, test: TestType, task: TaskType): QuestionText {
    QuestionText(ParsedPrompt(content), ParsedInstructions(content, test, task))
  }

  /** The trimmed capture of `PROMPT:\s*(.+?)(?=INSTRUCTIONS:|$)`, or the whole text
      when that does not match. */
  function ParsedPrompt(content: string): string {
    match SpanUntil(content, PromptMarker, InstructionsMarker)
    case Some(x) => Trim(x)
    case None => content
  }

  /** The trimmed capture of `INSTRUCTIONS:\s*(.+?)$`, or the default instructions of
      the task when that does not match. */
  function ParsedInstructions(content: string, test: TestType, task: TaskType): string {
    match RestAfter(content, InstructionsMarker, false)
    case Some(x) => Trim(x)
    case None => DefaultInstructions(test, task)
  }

  /** Without a `PROMPT:` that has text after it, the prompt is the whole reply, unchanged. */
  lemma PromptFallback(content: string, test: TestType, task: TaskType)
    requires forall p: nat :: OccursAt(content, PromptMarker, p, false) ==> p + |PromptMarker| == |content|
    ensures ParseQuestionResponse(content, test, task).prompt == content
  {
    SpanUntilAbsent(content, PromptMarker, InstructionsMarker);
  }

  /** Without an `INSTRUCTIONS:` that has text after it, the instructions are the defaults. */
  lemma InstructionsFallback(content: string, test: TestType, task: TaskType)
    requires forall q: nat :: OccursAt(content, InstructionsMarker, q, false) ==> q + |InstructionsMarker| == |content|
    ensures ParseQuestionResponse(content, test, task).instructions == DefaultInstructions(test, task)
  {
    assert RestAfter(content, InstructionsMarker, false).None? by {
      RestAfterAbsent(content, InstructionsMarker, false);
    }
  }

  /** The prompt is the trimmed text from the first `PROMPT:` to the next `INSTRUCTIONS:`
      (or the end), when that text is not blank. */
  lemma PromptSpan(content: string, test: TestType, task: TaskType, p: nat, q: nat)
    requires OccursAt(content, PromptMarker, p, false)
    requires forall j :: 0 <= j < p ==> !OccursAt(content, PromptMarker, j, false)
    requires p + |PromptMarker| < q <= |content|
    requires q == |content| || OccursAt(content, InstructionsMarker, q, false)
    requires forall j :: p + |PromptMarker| < j < q ==> !OccursAt(content, InstructionsMarker, j, false)
    requires exists w :: p + |PromptMarker| <= w < q && !IsWhitespace(content[w])
    ensures ParseQuestionResponse(content, test, task).prompt == Trim(content[p + |PromptMarker|..q])
  {
    SpanUntilFirstOccurrence(content, PromptMarker, InstructionsMarker, p, q);
  }

  /** The prompt in general: the trimmed text from the first non-whitespace character after
      the first `PROMPT:` up to the next `INSTRUCTIONS:` that begins after that character, or
      the end.  A blank prompt line therefore takes the `INSTRUCTIONS:` marker into the prompt. */
  lemma PromptAfterGap(content: string, test: TestType, task: TaskType, p: nat, b: nat, q: nat)
    requires OccursAt(content, PromptMarker, p, false)
    requires forall j :: 0 <= j < p ==> !OccursAt(content, PromptMarker, j, false)
    requires p + |PromptMarker| <= b < q <= |content|
    requires AllWhitespace(content[p + |PromptMarker|..b]) && !IsWhitespace(content[b])
    requires q == |content| || OccursAt(content, InstructionsMarker, q, false)
    requires forall j :: b < j < q ==> !OccursAt(content, InstructionsMarker, j, false)
    ensures ParseQuestionResponse(content, test, task).prompt == Trim(content[b..q])
  {
    SpanUntilFrom(content, PromptMarker, InstructionsMarker, p, b, q);
  }

  /** When only whitespace follows the first `PROMPT:`, the prompt is empty. */
  lemma PromptBlank(content: string, test: TestType, task: TaskType, p: nat)
    requires OccursAt(content, PromptMarker, p, false)
    requires forall j :: 0 <= j < p ==> !OccursAt(content, PromptMarker, j, false)
    requires p + |PromptMarker| < |content|
    requires AllWhitespace(content[p + |PromptMarker|..])
    ensures ParseQuestionResponse(content, test, task).prompt == ""
  {
    SpanUntilBlank(content, PromptMarker, InstructionsMarker, p);
  }

  /** A reply whose prompt line is blank: `PROMPT:`, whitespace, then a text `t` that starts
      with a non-whitespace character and has no later `INSTRUCTIONS:`.  Its prompt is the
      trimmed `t`, even when `t` itself starts with `INSTRUCTIONS:`. */
  lemma BlankPromptLine(gap: string, t: string, test: TestType, task: TaskType)
    requires AllWhitespace(gap)
    requires t != [] && !IsWhitespace(t[0])
    requires forall j :: 0 < j < |t| ==> !OccursAt(t, InstructionsMarker, j, false)
    ensures ParseQuestionResponse(PromptMarker + gap + t, test, task).prompt == Trim(t)
  {
    var x := PromptMarker + gap;
    var s := x + t;
    assert OccursAt(s, PromptMarker, 0, false) by {
      assert s[0..|PromptMarker|] == PromptMarker;
    }
    assert AllWhitespace(s[0 + |PromptMarker|..|x|]) by {
      assert s[0 + |PromptMarker|..|x|] == gap;
    }
    assert s[|x|] == t[0];
    forall j | |x| < j < |s| ensures !OccursAt(s, InstructionsMarker, j, false) {
      if j + |InstructionsMarker| <= |s| {
        assert s[j..j + |InstructionsMarker|] == t[j - |x|..j - |x| + |InstructionsMarker|];
        assert !OccursAt(t, InstructionsMarker, j - |x|, false);
      }
    }
    PromptAfterGap(s, test, task, 0, |x|, |s|);
    assert s[|x|..|s|] == t by {
      SuffixAfter(x, t);
    }
  }


  /** The blank prompt line of `PROMPT:  INSTRUCTIONS: y` takes the marker into the prompt. */
  lemma BlankPromptRunsOn(test: TestType, task: TaskType)
    ensures var t := InstructionsMarker + " y";
      ParseQuestionResponse(PromptMarker + "  " + t, test, task).prompt == t
  {
    var t := InstructionsMarker + " y";
    assert (forall j :: 0 < j < |t| ==> !OccursAt(t, InstructionsMarker, j, false)) && Trim(t) == t by {
      MarkerLine(" y");
    }
    BlankPromptLine("  ", t, test, task);
  }

  /** `INSTRUCTIONS: y` has no later `INSTRUCTIONS:` and nothing to trim. */
  lemma MarkerLine(y: string)
    requires y == " y"
    ensures var t := InstructionsMarker + y;
      && (forall j :: 0 < j < |t| ==> !OccursAt(t, InstructionsMarker, j, false))
      && Trim(t) == t
  {
    var t := InstructionsMarker + y;
    forall j | 0 < j < |t| ensures !OccursAt(t, InstructionsMarker, j, false) {
      if j + |InstructionsMarker| <= |t| {
        assert j == 1 || j == 2;
        assert t[j] != InstructionsMarker[0];
        assert t[j..j + |InstructionsMarker|][0] == t[j];
      }
    }
    assert t[..0] == [] && t[|t|..] == [];
    TrimIsCore(t, 0, |t|);
  }




  /** The instructions are the trimmed text after the first `INSTRUCTIONS:`. */
  lemma InstructionsSpan(content: string, test: TestType, task: TaskType, q: nat)
    requires OccursAt(content, InstructionsMarker, q, false)
    requires forall j :: 0 <= j < q ==> !OccursAt(content, InstructionsMarker, j, false)
    requires q + |InstructionsMarker| < |content|
    ensures ParseQuestionResponse(content, test, task).instructions == Trim(content[q + |InstructionsMarker|..])
  {
    RestAfterFirstOccurrence(content, InstructionsMarker, false, q);
  }

  /** A reply in the requested format: `PROMPT: ` X, a whitespace separator, `INSTRUCTIONS: ` Y. */
  function FormattedReply(x: string, sep: string, y: string): string {
    PromptMarker + " " + x + sep + InstructionsMarker + " " + y
  }

  /** A reply in the requested format reads back as its two fields, trimmed, provided
      the prompt is not blank and does not itself contain `INSTRUCTIONS:`. */
  lemma FormattedReplyRoundTrip(x: string, sep: string, y: string, test: TestType, task: TaskType)
    requires Trim(x) != []
    requires forall j: nat :: !OccursAt(x, InstructionsMarker, j, false)
    requires sep != [] && AllWhitespace(sep)
    ensures ParseQuestionResponse(FormattedReply(x, sep, y), test, task) == QuestionText(Trim(x), Trim(y))
  {
    ReplyPrompt(x, sep, y);
    ReplyInstructions(x, sep, y, test, task);
  }

  lemma ReplyPrompt(x: string, sep: string, y: string)
    requires Trim(x) != []
    requires forall j: nat :: !OccursAt(x, InstructionsMarker, j, false)
    requires sep != [] && AllWhitespace(sep)
    ensures ParsedPrompt(FormattedReply(x, sep, y)) == Trim(x)
  {
    ReplyPromptCapture(x, sep, y);
    ReplyPromptSlice(x, sep, y);
  }

  lemma ReplyPromptCapture(x: string, sep: string, y: string)
    requires Trim(x) != []
    requires forall j: nat :: !OccursAt(x, InstructionsMarker, j, false)
    requires sep != [] && AllWhitespace(sep)
    ensures var s := FormattedReply(x, sep, y);
      && 8 + |x| + |sep| <= |s|
      && SpanUntil(s, PromptMarker, InstructionsMarker).Some?
      && Trim(SpanUntil(s, PromptMarker, InstructionsMarker).value) == Trim(s[7..8 + |x| + |sep|])
  {
    var s := FormattedReply(x, sep, y);
    var q := 8 + |x| + |sep|;
    assert OccursAt(s, PromptMarker, 0, false) && 7 < q <= |s| && OccursAt(s, InstructionsMarker, q, false) by {
      ReplyLayout(x, sep, y);
    }
    assert forall j :: 0 <= j < q ==> !OccursAt(s, InstructionsMarker, j, false) by {
      ReplyNoStop(x, sep, y);
    }
    assert exists w :: 7 <= w < q <= |s| && !IsWhitespace(s[w]) by {
      ReplyPromptNotBlank(x, sep, y);
    }
    PromptCapture(s, q);
  }

  /** The capture of a reply whose first `PROMPT:` opens it. */
  lemma PromptCapture(s: string, q: nat)
    requires OccursAt(s, PromptMarker, 0, false)
    requires 7 < q <= |s|
    requires q == |s| || OccursAt(s, InstructionsMarker, q, false)
    requires forall j :: 0 <= j < q ==> !OccursAt(s, InstructionsMarker, j, false)
    requires exists w :: 7 <= w < q <= |s| && !IsWhitespace(s[w])
    ensures SpanUntil(s, PromptMarker, InstructionsMarker).Some?
    ensures Trim(SpanUntil(s, PromptMarker, InstructionsMarker).value) == Trim(s[7..q])
  {
    SpanUntilFirstOccurrence(s, PromptMarker, InstructionsMarker, 0, q);
  }

  lemma ReplyPromptNotBlank(x: string, sep: string, y: string)
    requires Trim(x) != []
    ensures var s := FormattedReply(x, sep, y);
      exists w :: 7 <= w < 8 + |x| + |sep| <= |s| && !IsWhitespace(s[w])
  {
    var s := FormattedReply(x, sep, y);
    ReplyPromptSpan(x, sep, y);
    var k := NonBlankWitness(x);
    assert s == "PROMPT: " + x + (sep + InstructionsMarker + " " + y);
    assert s[8 + k] == x[k];
  }

  lemma ReplyPromptSlice(x: string, sep: string, y: string)
    requires AllWhitespace(sep)
    ensures var s := FormattedReply(x, sep, y);
      8 + |x| + |sep| <= |s| && Trim(s[7..8 + |x| + |sep|]) == Trim(x)
  {
    var s := FormattedReply(x, sep, y);
    assert s == PromptMarker + (" " + x + sep) + (InstructionsMarker + " " + y);
    assert s[7..8 + |x| + |sep|] == " " + x + sep;
    TrimIgnoresPadding(" ", x, sep);
  }

  lemma ReplyInstructions(x: string, sep: string, y: string, test: TestType, task: TaskType)
    requires forall j: nat :: !OccursAt(x, InstructionsMarker, j, false)
    requires sep != [] && AllWhitespace(sep)
    ensures ParsedInstructions(FormattedReply(x, sep, y), test, task) == Trim(y)
  {
    ReplyInstructionsCapture(x, sep, y);
    ReplyInstructionsSlice(x, sep, y);
  }

  lemma ReplyInstructionsCapture(x: string, sep: string, y: string)
    requires forall j: nat :: !OccursAt(x, InstructionsMarker, j, false)
    requires sep != [] && AllWhitespace(sep)
    ensures var s, q := FormattedReply(x, sep, y), 8 + |x| + |sep|;
      && q + 13 < |s|
      && RestAfter(s, InstructionsMarker, false).Some?
      && Trim(RestAfter(s, InstructionsMarker, false).value) == Trim(s[q + 13..])
  {
    var s := FormattedReply(x, sep, y);
    var q := 8 + |x| + |sep|;
    assert OccursAt(s, InstructionsMarker, q, false) && q + 13 < |s| by {
      ReplyLayout(x, sep, y);
    }
    assert forall j :: 0 <= j < q ==> !OccursAt(s, InstructionsMarker, j, false) by {
      ReplyNoStop(x, sep, y);
    }
    InstructionsCapture(s, q);
  }

  /** The capture after the first `INSTRUCTIONS:`, at `q`, is the rest of the text. */
  lemma InstructionsCapture(s: string, q: nat)
    requires OccursAt(s, InstructionsMarker, q, false)
    requires forall j :: 0 <= j < q ==> !OccursAt(s, InstructionsMarker, j, false)
    requires q + 13 < |s|
    ensures RestAfter(s, InstructionsMarker, false).Some?
    ensures Trim(RestAfter(s, InstructionsMarker, false).value) == Trim(s[q + 13..])
  {
    RestAfterFirstOccurrence(s, InstructionsMarker, false, q);
  }

  lemma ReplyInstructionsSlice(x: string, sep: string, y: string)
    ensures var s, q := FormattedReply(x, sep, y), 8 + |x| + |sep|;
      q + 13 <= |s| && Trim(s[q + 13..]) == Trim(y)
  {
    var s := FormattedReply(x, sep, y);
    assert s == (PromptMarker + " " + x + sep + InstructionsMarker) + (" " + y);
    assert s[8 + |x| + |sep| + 13..] == " " + y + "";
    TrimIgnoresPadding(" ", y, "");
  }

  /** A string that does not trim to nothing has a non-whitespace character. */
  lemma NonBlankWitness(x: string) returns (k: nat)
    requires Trim(x) != []
    ensures k < |x| && !IsWhitespace(x[k])
  {
    TrimShape(x);
    var b := SkipWhitespace(x, 0);
    k := b;
    assert x[k] == Trim(x)[0];
  }

  /** Where the markers of a formatted reply sit. */
  lemma ReplyLayout(x: string, sep: string, y: string)
    ensures var s, q := FormattedReply(x, sep, y), 8 + |x| + |sep|;
      && q + 13 < |s|
      && OccursAt(s, PromptMarker, 0, false)
      && OccursAt(s, InstructionsMarker, q, false)
  {
    var s := FormattedReply(x, sep, y);
    var rest := " " + x + sep + InstructionsMarker + " " + y;
    assert s == [] + PromptMarker + rest;
    OccursAtJoin([], PromptMarker, rest);
    var head := PromptMarker + " " + x + sep;
    assert s == head + InstructionsMarker + (" " + y);
    OccursAtJoin(head, InstructionsMarker, " " + y);
  }

  /** In a formatted reply, positions 0 to 7 hold `PROMPT: `. */
  lemma ReplyPromptSpan(x: string, sep: string, y: string)
    ensures var s := FormattedReply(x, sep, y); 8 <= |s| && s[..8] == "PROMPT: "
  {
    var s := FormattedReply(x, sep, y);
    assert s == "PROMPT: " + (x + sep + InstructionsMarker + " " + y);
  }

  /** No `INSTRUCTIONS:` starts before the one after the separator. */
  lemma ReplyNoStop(x: string, sep: string, y: string)
    requires forall j: nat :: !OccursAt(x, InstructionsMarker, j, false)
    requires sep != [] && AllWhitespace(sep)
    ensures var s := FormattedReply(x, sep, y);
      forall j :: 0 <= j < 8 + |x| + |sep| ==> !OccursAt(s, InstructionsMarker, j, false)
  {
    var s := FormattedReply(x, sep, y);
    var pre := "PROMPT: ";
    var post := sep + InstructionsMarker + " " + y;
    assert s == pre + x + post;
    ReplyPromptSpan(x, sep, y);
    forall j | 0 <= j < 8 + |x| + |sep| ensures !OccursAt(s, InstructionsMarker, j, false) {
      if j < 8 {
        OccursCovers(s, InstructionsMarker, j, j, false);
        assert s[j] == pre[j];
        assert 'I' !in pre;
      } else if j + 13 <= 8 + |x| {
        OccursInside(pre, x, post, InstructionsMarker, j, false);
      } else if j < 8 + |x| {
        var k := 8 + |x|;
        OccursCovers(s, InstructionsMarker, j, k, false);
        assert s[k] == sep[0];
        MarkerHasNoWhitespace(k - j);
      } else {
        var k := j;
        OccursCovers(s, InstructionsMarker, j, k, false);
        assert s[k] == sep[k - 8 - |x|];
        MarkerHasNoWhitespace(0);
      }
    }
  }

  lemma MarkerHasNoWhitespace(i: nat)
    requires i < |InstructionsMarker|
    ensures !IsWhitespace(InstructionsMarker[i])
  {
  }

  // ---------------------------------------------------------------------------
  // The request handler
  // ---------------------------------------------------------------------------

  /** The body accepted by the request schema. */
  datatype QuestionRequest = QuestionRequest(testType: TestType, taskType: TaskType)

  /** The issues of one enum field: absent or not a string, or a string outside the enum. */
  function EnumIssues(key: string, v: Option<Json>, known: bool): (r: seq<Issue>)
    ensures r == [] <==> v.Some? && v.value.JStr? && known
  {
    if v.None? || !v.value.JStr? then [Issue(key, InvalidType)]
    else if !known then [Issue(key, InvalidEnumValue)]
    else []
  }

  /** `requestSchema.parse(body)`: an object whose `test_type` is "academic" or
      "general" and whose `task_type` is "task1" or "task2"; other members are ignored. */
  function ValidateQuestionRequest(body: Json): Validated<QuestionRequest> {
    if !body.JObj? then Invalid([Issue("", InvalidType)])
    else
      var tv, kv := Member(body.fields, "test_type"), Member(body.fields, "task_type");
      var t := if tv.Some? && tv.value.JStr? then TestTypeOf(tv.value.s) else None;
      var k := if kv.Some? && kv.value.JStr? then TaskTypeOf(kv.value.s) else None;
      var issues := EnumIssues("test_type", tv, t.Some?) + EnumIssues("task_type", kv, k.Some?);
      if issues == [] then Valid(QuestionRequest(t.value, k.value)) else Invalid(issues)
  }

  /** The schema accepts exactly the objects that name a test type and a task type,
      and every rejection reports at least one issue. */
  lemma ValidateQuestionRequestSpec(body: Json, test: TestType, task: TaskType)
    ensures ValidateQuestionRequest(body) == Valid(QuestionRequest(test, task)) <==>
      && body.JObj?
      && Member(body.fields, "test_type") == Some(JStr(TestTypeName(test)))
      && Member(body.fields, "task_type") == Some(JStr(TaskTypeName(task)))
    ensures ValidateQuestionRequest(body).Invalid? ==> ValidateQuestionRequest(body).issues != []
  {
  }

  const QuestionSystemMessage: string :=
    "You are an IELTS examiner creating authentic IELTS writing questions. "
      + "Generate realistic, varied questions that match official IELTS standards."

  /** The chat request the handler sends to have a question written: the examiner
      system message and the prompt for the requested test and task types. */
  datatype QuestionChat = QuestionChat(testType: TestType, taskType: TaskType)
  {
    function System(): string {
      QuestionSystemMessage
    }

    function User(): string {
      GeneratePromptForQuestion(testType, taskType)
    }
  }

  /** The text of the new question: the mock question, or the parsed completion
      (empty when the completion has no content); `None` when the service fails. */
  function QuestionTextFor(req: QuestionRequest, mockAi: bool, complete: QuestionChat -> Completion)
    : Option<QuestionText>
  {
    if mockAi then Some(MockQuestion(req.testType, req.taskType))
    else match complete(QuestionChat(req.testType, req.taskType))
      case ServiceError => None
      case Reply(c) => Some(ParseQuestionResponse(c.GetOr(""), req.testType, req.taskType))
  }

  /** The row handed to the insert; the store fills in the id and the timestamp. */
  function QuestionRow(req: QuestionRequest, text: QuestionText): Question {
    Question("", req.testType, req.taskType, text.prompt, text.instructions,
             MinimumWords(req.taskType), TimeLimit(req.taskType), "")
  }

  /** What a request does: the response and the question stored, if any. */
  datatype QuestionOutcome = QuestionOutcome(response: Response<Question>, stored: Option<Question>)

  /** `POST` as a function of the caller, the body (`None` when it is not JSON), the
      mock setting, the completion service, the questions already stored and the
      store's reply to the insert. */
  function QuestionResult(auth: Auth, body: Option<Json>, mockSetting: Option<string>,
                          complete: QuestionChat -> Completion,
                          existing: seq<Question>, reply: InsertReply): QuestionOutcome
  {
    if auth.Unauthenticated? then QuestionOutcome(Err(401, "Unauthorized", []), None)
    else if body.None? then QuestionOutcome(Err(500, "Internal server error", []), None)
    else match ValidateQuestionRequest(body.value)
      case Invalid(issues) => QuestionOutcome(Err(400, "Invalid request data", issues), None)
      case Valid(req) =>
        SaveQuestion(req, QuestionTextFor(req, UseMockAi(mockSetting), complete), existing, reply)
  }

  /** The steps after validation: a failed generation is a 500, then the insert. */
  function SaveQuestion(req: QuestionRequest, text: Option<QuestionText>, existing: seq<Question>,
                        reply: InsertReply): (o: QuestionOutcome)
    ensures o.stored.Some? <==> o.response.Ok?
    ensures o.response.Ok? ==> o.stored == Some(o.response.body)
    ensures o.response.Status() in {200, 500}
    ensures o.response.Status() == 500 <==>
      text.None? || NewQuestion(existing, QuestionRow(req, text.value), reply).None?
    ensures o.stored.Some? ==> o.stored == NewQuestion(existing, QuestionRow(req, text.value), reply)
  {
    match text
    case None => QuestionOutcome(Err(500, "Internal server error", []), None)
    case Some(t) =>
      match NewQuestion(existing, QuestionRow(req, t), reply)
      case None => QuestionOutcome(Err(500, "Failed to save question", []), None)
      case Some(q) => QuestionOutcome(Ok(q), Some(q))
  }

  /** The request that got past validation; `None` when the caller is unknown or the
      body is not (valid) JSON. */
  function AcceptedRequest(auth: Auth, body: Option<Json>): Option<QuestionRequest> {
    if auth.User? && body.Some? && ValidateQuestionRequest(body.value).Valid? then
      Some(ValidateQuestionRequest(body.value).value)
    else None
  }

  /** Past validation, the outcome is that of generating and saving the question. */
  lemma AcceptedRequestIsSaved(auth: Auth, body: Option<Json>, mockSetting: Option<string>,
                               complete: QuestionChat -> Completion,
                               existing: seq<Question>, reply: InsertReply)
    ensures var req := AcceptedRequest(auth, body);
      && (req.None? ==> QuestionResult(auth, body, mockSetting, complete, existing, reply).stored.None?)
      && (req.Some? ==>
            QuestionResult(auth, body, mockSetting, complete, existing, reply)
            == SaveQuestion(req.value, QuestionTextFor(req.value, UseMockAi(mockSetting), complete), existing, reply))
  {
  }

  /** An unauthenticated request fails with 401 and stores nothing, whatever its body
      and whatever the services would have done. */
  lemma UnauthorizedFirst(body: Option<Json>, mockSetting: Option<string>,
                          complete: QuestionChat -> Completion,
                          existing: seq<Question>, reply: InsertReply)
    ensures QuestionResult(Unauthenticated, body, mockSetting, complete, existing, reply)
      == QuestionOutcome(Err(401, "Unauthorized", []), None)
  {
  }

  /** A question is stored exactly when the response is 200, and it is the question returned. */
  lemma StoredIffOk(auth: Auth, body: Option<Json>, mockSetting: Option<string>,
                    complete: QuestionChat -> Completion,
                    existing: seq<Question>, reply: InsertReply)
    ensures var o := QuestionResult(auth, body, mockSetting, complete, existing, reply);
      (o.stored.Some? <==> o.response.Ok?) && (o.response.Ok? ==> o.stored == Some(o.response.body))
  {
    AcceptedRequestIsSaved(auth, body, mockSetting, complete, existing, reply);
  }

  /** The status codes: 401 without a user, 400 exactly for a body the schema rejects
      (with its issues), 500 for a body that is not JSON, a failed completion or a
      failed insert, and 200 otherwise. */
  lemma QuestionStatus(auth: Auth, body: Option<Json>, mockSetting: Option<string>,
                       complete: QuestionChat -> Completion,
                       existing: seq<Question>, reply: InsertReply)
    ensures var o := QuestionResult(auth, body, mockSetting, complete, existing, reply);
      && (o.response.Status() == 401 <==> auth.Unauthenticated?)
      && (o.response.Status() == 400 <==>
            auth.User? && body.Some? && ValidateQuestionRequest(body.value).Invalid?)
      && (o.response.Status() == 400 ==>
            o.response.details == ValidateQuestionRequest(body.value).issues)
      && (o.response.Status() == 500 <==>
            auth.User? && (body.None? ||
              (ValidateQuestionRequest(body.value).Valid? &&
               var req := ValidateQuestionRequest(body.value).value;
               var text := QuestionTextFor(req, UseMockAi(mockSetting), complete);
               text.None? || NewQuestion(existing, QuestionRow(req, text.value), reply).None?)))
  {
    AcceptedRequestIsSaved(auth, body, mockSetting, complete, existing, reply);
  }

  /** A stored question has the requested test and task types, the word count and time
      limit of its task, the id and timestamp the store generated, and the mock text
      in mock mode or the parsed completion otherwise. */
  lemma StoredQuestion(auth: Auth, body: Option<Json>, mockSetting: Option<string>,
                       complete: QuestionChat -> Completion,
                       existing: seq<Question>, reply: InsertReply)
    requires QuestionResult(auth, body, mockSetting, complete, existing, reply).stored.Some?
    ensures body.Some? && ValidateQuestionRequest(body.value).Valid?
    ensures var q := QuestionResult(auth, body, mockSetting, complete, existing, reply).stored.value;
      var req := ValidateQuestionRequest(body.value).value;
      && q.testType == req.testType && q.taskType == req.taskType
      && q.wordCount == (if req.taskType == Task1 then 150 else 250)
      && q.timeLimit == (if req.taskType == Task1 then 20 else 40)
      && reply == Inserted(q.id, q.createdAt) && q.id !in QuestionIds(existing)
      && Some(QuestionText(q.prompt, q.instructions)) == QuestionTextFor(req, UseMockAi(mockSetting), complete)
  {
    AcceptedRequestIsSaved(auth, body, mockSetting, complete, existing, reply);
    var req := AcceptedRequest(auth, body).value;
    var text := QuestionTextFor(req, UseMockAi(mockSetting), complete);
    var o := QuestionResult(auth, body, mockSetting, complete, existing, reply);
    assert text.Some? && o.stored == NewQuestion(existing, QuestionRow(req, text.value), reply);
    SavedQuestion(req, text.value, existing, reply);
  }

  /** In mock mode the question is the mock question of the requested types, whatever
      the completion service would answer. */
  lemma MockTextIgnoresService(req: QuestionRequest, f: QuestionChat -> Completion, g: QuestionChat -> Completion)
    ensures QuestionTextFor(req, true, f) == QuestionTextFor(req, true, g)
    ensures QuestionTextFor(req, true, f) == Some(MockQuestion(req.testType, req.taskType))
  {
  }

  /** With the service, the question depends on nothing but the reply to the one chat the
      route sends, the one built from the requested test and task type. */
  lemma TextDependsOnReply(req: QuestionRequest, f: QuestionChat -> Completion, g: QuestionChat -> Completion)
    requires f(QuestionChat(req.testType, req.taskType)) == g(QuestionChat(req.testType, req.taskType))
    ensures QuestionTextFor(req, false, f) == QuestionTextFor(req, false, g)
  {
  }

  /** A failed call yields no question, and a reply without content yields an empty prompt
      with the default instructions. */
  lemma TextWithoutReply(req: QuestionRequest, complete: QuestionChat -> Completion)
    ensures complete(QuestionChat(req.testType, req.taskType)).ServiceError?
      ==> QuestionTextFor(req, false, complete) == None
    ensures complete(QuestionChat(req.testType, req.taskType)) == Reply(None)
      ==> QuestionTextFor(req, false, complete) == Some(QuestionText("", DefaultInstructions(req.testType, req.taskType)))
  {
    if complete(QuestionChat(req.testType, req.taskType)) == Reply(None) {
      PromptFallback("", req.testType, req.taskType);
      InstructionsFallback("", req.testType, req.taskType);
    }
  }


  /** The question the insert stores, field by field. */
  lemma SavedQuestion(req: QuestionRequest, text: QuestionText, existing: seq<Question>, reply: InsertReply)
    requires NewQuestion(existing, QuestionRow(req, text), reply).Some?
    ensures var q := NewQuestion(existing, QuestionRow(req, text), reply).value;
      && q.testType == req.testType && q.taskType == req.taskType
      && q.wordCount == (if req.taskType == Task1 then 150 else 250)
      && q.timeLimit == (if req.taskType == Task1 then 20 else 40)
      && reply == Inserted(q.id, q.createdAt) && q.id !in QuestionIds(existing)
      && QuestionText(q.prompt, q.instructions) == text
  {
  }

  /** `POST /api/questions`, step by step, against the store. */
  method PostQuestion(db: Database, auth: Auth, body: Option<Json>, mockSetting: Option<string>,
                      complete: QuestionChat -> Completion, reply: InsertReply)
    returns (response: Response<Question>)
    requires db.Valid()
    modifies db
    ensures db.Valid()
    ensures var o := QuestionResult(auth, body, mockSetting, complete, old(db.questions), reply);
      response == o.response && db.questions == Appended(old(db.questions), o.stored)
    ensures db.submissions == old(db.submissions) && db.scores == old(db.scores)
  {
    if auth.Unauthenticated? {
      return Err(401, "Unauthorized", []);
    }
    if body.None? {
      return Err(500, "Internal server error", []);
    }
    var validated := ValidateQuestionRequest(body.value);
    if validated.Invalid? {
      return Err(400, "Invalid request data", validated.issues);
    }
    var req := validated.value;
    var text: QuestionText;
    if UseMockAi(mockSetting) {
      text := MockQuestion(req.testType, req.taskType);
    } else {
      var completion := complete(QuestionChat(req.testType, req.taskType));
      if completion.ServiceError? {
        return Err(500, "Internal server error", []);
      }
      text := ParseQuestionResponse(completion.content.GetOr(""), req.testType, req.taskType);
    }
    var question := db.InsertQuestion(QuestionRow(req, text), reply);
    if question.None? {
      return Err(500, "Failed to save question", []);
    }
    return Ok(question.value);
  }
}
