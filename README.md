# IELTS question generation and scoring, modelled in Dafny

This project models the two API routes of the IELTS practice application that hold
logic of their own, together with the shared entity types.

- `POST /api/questions` does the following in order:
  - authenticates the caller;
  - validates `{test_type, task_type}`;
  - obtains the question text, either from a fixed mock table or by asking a chat-completion service with a fixed prompt and parsing its `PROMPT:` / `INSTRUCTIONS:` reply;
  - stores the question with the word count and time limit of its task;
  - answers with the stored row.
- `POST /api/submissions` does the following in order:
  - authenticates the caller;
  - validates `{question_id, content, word_count, time_taken}`;
  - looks up the question;
  - stores the submission;
  - scores it, with mock scores or by parsing the `TASK_ACHIEVEMENT:` … `FEEDBACK:` reply of the completion service;
  - computes the overall band;
  - stores the score row;
  - answers with the submission id and the score.

Modules:

- `Wrappers`: `Option`.
- `Text`: the whitespace set, trimming, search with and without ASCII case folding, decimal digits.
- `Patterns`: the three regular-expression shapes the routes use, written as explicit searches with the JavaScript semantics:
  - `M\s*(.+)$` is `RestAfter`;
  - `M\s*(.+?)(?=S|$)` is `SpanUntil`;
  - `L\s*(\d+(?:\.\d+)?)` with `i` is `NumberField`.
- `Types`: test and task types, the `questions` / `submissions` / `scores` rows, the JSON body, the auth result, the completion result, the store's insert reply, validation issues and HTTP responses.
- `Store`: the database as a class with three append-only tables, whose insert methods keep ids unique and keep every submission linked to a question and every score linked to a submission.
- `Questions`: `apps/web/app/api/questions/route.ts`.
- `Scoring`: the pure half of `apps/web/app/api/submissions/route.ts`: the prompt, `parseScores`, the band formula and `generateMockScores`.
- `Submissions`: the request schema and the handler of `apps/web/app/api/submissions/route.ts`.

Each handler is modelled twice:

- as a pure outcome function (`Questions.QuestionResult`, `Submissions.SubmissionResult`) over the stored rows and the store's replies, with lemmas about statuses, ordering and stored rows;
- as a method on the `Store.Database` object (`Questions.PostQuestion`, `Submissions.PostSubmission`) that performs the inserts in the source's order and is proved to leave exactly the state the outcome function describes.

Environment inputs become parameters:

- The caller's identity is an `Auth` value.
- The parsed JSON body is an `Option<Json>`: `None` when `request.json()` throws.
- The `USE_MOCK_AI` setting is an `Option<string>`.
- The completion service is a function from a chat-request value (`QuestionChat`, `ScoringChat`) to a `Completion`. The chat value's `System()` and `User()` are the exact system and user messages the route sends.
- The value of `Math.random()` is a `real`.
- The store's answer to each insert is an `InsertReply`.
- The uuid format check is a predicate `isUuid`.

## Model

| member | source | states |
|---|---|---|
| Questions.GeneratePromptForQuestion | apps/web/app/api/questions/route.ts:105-154 | defines the prompt sent for a test and task type; its properties are the rows Questions.PromptHasMarkers and Questions.TemplateHasMarkers |
| Questions.DefaultInstructions | apps/web/app/api/questions/route.ts:172-187 | defines the fallback instructions of each task; its properties are the rows Questions.InstructionsFallback and Questions.MockEssayInstructions |
| Questions.MockQuestion | apps/web/app/api/questions/route.ts:189-221 | defines the mock question of each test and task type; its properties are the rows Questions.MockEssayInstructions and Questions.MockTextIgnoresService |
| Questions.ParseQuestionResponse | apps/web/app/api/questions/route.ts:156-170 | defines how a reply is read into prompt and instructions; its properties are the rows Questions.PromptFallback to Questions.ReplyInstructions |
| Questions.ValidateQuestionRequest | apps/web/app/api/questions/route.ts:11-14 | defines the request schema of the questions route; its properties are the rows Questions.EnumIssues and Questions.ValidateQuestionRequestSpec |
| Questions.QuestionTextFor | apps/web/app/api/questions/route.ts:37-65 | defines the text generated for an accepted request; its properties are the rows Questions.MockTextIgnoresService, Questions.TextDependsOnReply and Questions.TextWithoutReply |
| Questions.QuestionResult | apps/web/app/api/questions/route.ts:16-103 | defines the questions handler on values; its properties are the rows Questions.AcceptedRequestIsSaved to Questions.SavedQuestion and Questions.PostQuestion |
| Scoring.GenerateScoringPrompt | apps/web/app/api/submissions/route.ts:130-173 | defines the scoring prompt; its properties are the rows Scoring.HeadEmbeds, Scoring.PromptEmbeds and Scoring.PromptListsTags |
| Scoring.ParseScores | apps/web/app/api/submissions/route.ts:175-189 | defines how a scoring reply is read; its properties are the rows Scoring.SubScore to Scoring.EmptyReplyDefaults |
| Scoring.MockScores | apps/web/app/api/submissions/route.ts:191-208 | defines the mock scores; its properties are the rows Scoring.MockScoresWith to Scoring.MockFeedbackReportsCount |
| Submissions.ValidateSubmission | apps/web/app/api/submissions/route.ts:7-12 | defines the request schema of the submissions route; its properties are the rows Submissions.UuidIssues to Submissions.NegativeFractionTwice |
| Submissions.Assess | apps/web/app/api/submissions/route.ts:58-90 | defines the scores obtained for a submission, from the mock or the service; its properties are the rows Submissions.MockModeScore, Submissions.StoredScore and Submissions.MockAssessmentIgnoresService to Submissions.AssessmentWithoutReply |
| Submissions.SubmissionResult | apps/web/app/api/submissions/route.ts:14-128 | defines the submissions handler on values; its properties are the rows Submissions.AnswerQuestion to Submissions.PostSubmission |
| Patterns.RestAfter | apps/web/app/api/questions/route.ts:162 | defines the capture of a marker, optional whitespace and the rest of the text (flag s, case folding optional); its properties are the rows Questions.InstructionsSpan, Questions.InstructionsFallback and Scoring.FeedbackAfterFirst |
| Patterns.SpanUntil | apps/web/app/api/questions/route.ts:161 | defines the capture of `PROMPT:`, optional whitespace and the shortest text up to the next `INSTRUCTIONS:` or the end (flag s); its properties are the rows Patterns.SpanUntilFrom, Questions.PromptSpan, Questions.PromptAfterGap, Questions.PromptBlank and Questions.PromptFallback |
| Patterns.NumberField | apps/web/app/api/submissions/route.ts:176-179 | defines the capture of a label, optional whitespace and a numeral with an optional decimal part (flag i); its properties are the rows Scoring.SubScoreAtFirstMatch to Scoring.SubScoreUnclamped |
| Submissions.MockAssessmentIgnoresService | apps/web/app/api/submissions/route.ts:61-63 | in mock mode the assessment is the mock scores, whatever the service would answer and whatever the question |
| Submissions.AssessmentDependsOnReply | apps/web/app/api/submissions/route.ts:64-89 | with the service, the assessment depends on nothing but the reply to the one chat built from the question and the response |
| Submissions.AssessmentWithoutReply | apps/web/app/api/submissions/route.ts:64-89 | a failed call gives no assessment; a reply without content gives four 5.0 scores and the placeholder feedback |
| Types.TestTypeOf | packages/types/index.ts:2 | a name denotes a test type exactly when it is that type's wire name |
| Types.TaskTypeOf | packages/types/index.ts:3 | a name denotes a task type exactly when it is that type's wire name |
| Questions.PromptHasMarkers | apps/web/app/api/questions/route.ts:105-154 | each of the four question prompts is non-empty and contains `PROMPT:` before `INSTRUCTIONS:` |
| Questions.TemplateHasMarkers | apps/web/app/api/questions/route.ts:117-119 | the shared prompt layout asks for a `PROMPT:` line and then an `INSTRUCTIONS:` line, whatever is filled into it |
| Questions.MockEssayInstructions | apps/web/app/api/questions/route.ts:180-185 | the mock task 2 questions carry the default task 2 instructions, which are the same for both test types |
| Questions.PromptFallback | apps/web/app/api/questions/route.ts:161-165 | when no `PROMPT:` has text after it, the parsed prompt is the whole reply, untrimmed |
| Questions.InstructionsFallback | apps/web/app/api/questions/route.ts:162-168 | when no `INSTRUCTIONS:` has text after it, the instructions are the task's default instructions |
| Questions.PromptSpan | apps/web/app/api/questions/route.ts:161-165 | when that text is not blank, the prompt is the trimmed text from the first `PROMPT:` up to the next `INSTRUCTIONS:` or the end of the reply |
| Patterns.SpanUntilFrom | apps/web/app/api/questions/route.ts:161 | the capture starts at the first non-whitespace character after the first marker and runs to the first stop marker beginning after that character, or the end |
| Questions.PromptAfterGap | apps/web/app/api/questions/route.ts:161-165 | the prompt is the trimmed text from the first non-whitespace character after the first `PROMPT:` up to the next `INSTRUCTIONS:` beginning after it, or the end; a blank prompt line runs on past `INSTRUCTIONS:` |
| Questions.PromptBlank | apps/web/app/api/questions/route.ts:161-165 | when only whitespace follows the first `PROMPT:`, the prompt is empty |
| Questions.BlankPromptLine | apps/web/app/api/questions/route.ts:161-165 | `PROMPT:`, whitespace and a text t with no later `INSTRUCTIONS:` give the prompt trim t, even when t starts with `INSTRUCTIONS:` |
| Questions.BlankPromptRunsOn | apps/web/app/api/questions/route.ts:161-165 | `PROMPT:  INSTRUCTIONS: y` gives the prompt `INSTRUCTIONS: y` |
| Questions.InstructionsSpan | apps/web/app/api/questions/route.ts:162-167 | the instructions are the trimmed text after the first `INSTRUCTIONS:` |
| Questions.FormattedReplyRoundTrip | apps/web/app/api/questions/route.ts:117-119 | a reply `PROMPT: x` + whitespace + `INSTRUCTIONS: y` (non-blank x without `INSTRUCTIONS:`) parses to (trim x, trim y) |
| Questions.ReplyPrompt | apps/web/app/api/questions/route.ts:161 | the prompt read from such a reply is trim x |
| Questions.ReplyInstructions | apps/web/app/api/questions/route.ts:162 | the instructions read from such a reply are trim y |
| Questions.EnumIssues | apps/web/app/api/questions/route.ts:12-13 | an enum field has no issue exactly when it is a known wire name |
| Questions.ValidateQuestionRequestSpec | apps/web/app/api/questions/route.ts:11-14 | the schema accepts exactly the objects naming a test type and a task type; every rejection carries an issue |
| Questions.SaveQuestion | apps/web/app/api/questions/route.ts:67-89 | the insert gives 200 with the stored row or 500 "Failed to save question"; a row is stored exactly when the answer is 200 |
| Questions.AcceptedRequestIsSaved | apps/web/app/api/questions/route.ts:25-79 | past authentication and validation the handler generates the text and saves the question; otherwise nothing is stored |
| Questions.UnauthorizedFirst | apps/web/app/api/questions/route.ts:25-27 | an unauthenticated request gets 401 "Unauthorized" and stores nothing |
| Questions.StoredIffOk | apps/web/app/api/questions/route.ts:81-89 | a question is stored exactly when the response is 200, and the response carries it |
| Questions.QuestionStatus | apps/web/app/api/questions/route.ts:25-101 | 401 iff unauthenticated; 400 iff the body fails the schema, with the schema's issues; 500 iff the body is not JSON, the completion fails or the insert fails |
| Questions.StoredQuestion | apps/web/app/api/questions/route.ts:68-79 | the stored question has the requested types, 150/20 for task1 and 250/40 for task2, the store's fresh id, and the generated text |
| Questions.MockTextIgnoresService | apps/web/app/api/questions/route.ts:37-39 | in mock mode the text is the mock question of the requested types, whatever the completion service would answer |
| Questions.TextDependsOnReply | apps/web/app/api/questions/route.ts:40-65 | with the service, the text depends on nothing but the reply to the one chat built from the requested test and task type |
| Questions.TextWithoutReply | apps/web/app/api/questions/route.ts:40-65 | a failed call gives no text; a reply without content gives an empty prompt with the task's default instructions |
| Questions.SavedQuestion | apps/web/app/api/questions/route.ts:70-77 | a saved row has the request's types, the task's word count and time limit, and the text it was given |
| Questions.PostQuestion | apps/web/app/api/questions/route.ts:16-103 | the method answers as `QuestionResult` does and appends exactly the stored question to the store |
| Scoring.HeadEmbeds | apps/web/app/api/submissions/route.ts:131-139 | the prompt's opening embeds the test type, the task type, the question prompt, its instructions and the candidate's text verbatim, in that order |
| Scoring.PromptEmbeds | apps/web/app/api/submissions/route.ts:130-173 | the whole scoring prompt embeds those five texts verbatim, in that order |
| Scoring.PromptListsTags | apps/web/app/api/submissions/route.ts:166-171 | the scoring prompt mentions each of the five tags that the reply is parsed for |
| Scoring.SubScore | apps/web/app/api/submissions/route.ts:176-186 | a parsed sub-score is never negative |
| Scoring.SubScoreAtFirstMatch | apps/web/app/api/submissions/route.ts:176-186 | a sub-score is the number after the leftmost label (any case) followed by whitespace and a digit |
| Scoring.SubScoreDefault | apps/web/app/api/submissions/route.ts:183-186 | with no such match the sub-score is 5.0 |
| Scoring.SubScoreRoundTrip | apps/web/app/api/submissions/route.ts:176-186 | a label, whitespace and a numeral `d[.d]` read back as the numeral's exact value |
| Scoring.SubScoreUnclamped | apps/web/app/api/submissions/route.ts:183-186 | any whole number after a label is read back unchanged, including numbers above 9 |
| Scoring.FeedbackAfterFirst | apps/web/app/api/submissions/route.ts:180-187 | the feedback is the trimmed rest of the reply after the first `FEEDBACK:` (any case), across lines |
| Scoring.FeedbackAbsent | apps/web/app/api/submissions/route.ts:180-187 | with no `FEEDBACK:` followed by text, the feedback is "No detailed feedback available." |
| Scoring.NothingRecognised | apps/web/app/api/submissions/route.ts:182-188 | a reply with no recognisable field gives four 5.0 scores and the placeholder feedback |
| Scoring.EmptyReplyDefaults | apps/web/app/api/submissions/route.ts:88-89 | the empty reply (what a contentless completion becomes) gives the defaults |
| Scoring.JsRound | apps/web/app/api/submissions/route.ts:93-95 | `Math.round` gives the integer within half of its argument, halves rounded up |
| Scoring.HalfRound | apps/web/app/api/submissions/route.ts:93-95 | `Math.round(x*2)/2` is a multiple of 0.5 within a quarter of x, quarter points rounded up |
| Scoring.HalfRoundUnique | apps/web/app/api/submissions/route.ts:93-95 | that half band is the only multiple of 0.5 in that window |
| Scoring.HalfRoundMonotone | apps/web/app/api/submissions/route.ts:93-95 | the rounding is monotone |
| Scoring.HalfRoundShift | apps/web/app/api/submissions/route.ts:93-95 | shifting by a multiple of 0.5 shifts the rounded result by the same amount |
| Scoring.HalfRoundBetween | apps/web/app/api/submissions/route.ts:93-95 | a value between two half bands rounds to a value between them |
| Scoring.OverallBand | apps/web/app/api/submissions/route.ts:93-95 | the overall band is a multiple of 0.5 within a quarter of the mean of the four sub-scores |
| Scoring.BandWithinBounds | apps/web/app/api/submissions/route.ts:93-95 | when all four sub-scores lie between two half bands (e.g. 0 and 9), so does the overall band |
| Scoring.BandInHalfUnits | apps/web/app/api/submissions/route.ts:93-95 | for sub-scores k1/2 … k4/2 the band is floor((k1+k2+k3+k4+2)/4)/2 |
| Scoring.EqualScoresBand | apps/web/app/api/submissions/route.ts:93-95 | four equal half-band sub-scores (such as 9 or 0) give that band |
| Scoring.BandRoundsQuarterUp | apps/web/app/api/submissions/route.ts:93-95 | (6.5, 7, 5.5, 6) gives 6.5 |
| Scoring.BandRoundsEighthDown | apps/web/app/api/submissions/route.ts:93-95 | (6, 6, 6, 6.5) gives 6 |
| Scoring.Clamp | apps/web/app/api/submissions/route.ts:196-199 | `min(9, max(4, x))` lies in [4, 9] and leaves values already there unchanged |
| Scoring.MockScoresWith | apps/web/app/api/submissions/route.ts:191-207 | every mock sub-score is a multiple of 0.5 in [4, 9]; grammar equals task; vocabulary ≤ task ≤ coherence |
| Scoring.MockScoresAroundBase | apps/web/app/api/submissions/route.ts:193-205 | for a draw in [0, 1) the task score lies in [base − 0.5, base + 1] (base 6.5 from 150 words, else 5); coherence is half a band above it, vocabulary half below; the overall band equals the task score |
| Scoring.MockBand | apps/web/app/api/submissions/route.ts:93-95 | the overall band of mock scores lies in [4, 9] |
| Scoring.MockScoresBand | apps/web/app/api/submissions/route.ts:191-207 | `generateMockScores` yields sub-scores and an overall band in [4, 9] |
| Scoring.MockIgnoresContent | apps/web/app/api/submissions/route.ts:191 | the mock scores do not depend on the response text |
| Scoring.MockFeedbackReportsCount | apps/web/app/api/submissions/route.ts:206 | the mock feedback contains the decimal digits of the word count |
| Submissions.UuidIssues | apps/web/app/api/submissions/route.ts:8 | `question_id` has no issue exactly when it is a uuid string; at most one issue |
| Submissions.NonEmptyIssues | apps/web/app/api/submissions/route.ts:9 | `content` has no issue exactly when it is a non-empty string; at most one issue |
| Submissions.PositiveIntIssues | apps/web/app/api/submissions/route.ts:10-11 | a count has no issue exactly when it is a positive whole number; every issue names the field |
| Submissions.ValidateSubmissionSpec | apps/web/app/api/submissions/route.ts:7-27 | the schema accepts exactly a uuid `question_id`, non-empty `content` and positive whole `word_count` and `time_taken`, and hands those values on |
| Submissions.RejectionIssues | apps/web/app/api/submissions/route.ts:124 | a rejection reports at least one issue, each naming the body or one of the four fields |
| Submissions.NegativeFractionTwice | apps/web/app/api/submissions/route.ts:10 | −1.5 as a count is reported twice, as not an integer and as not positive |
| Submissions.AnswerQuestion | apps/web/app/api/submissions/route.ts:30-56 | 404 exactly when the question is not the single row with that id; a submission is stored exactly when the question is found and the insert succeeds; no score without a submission |
| Submissions.SaveScore | apps/web/app/api/submissions/route.ts:58-120 | the submission stays stored; a score is stored exactly when the answer is 200, which carries the submission id and the score; otherwise 500 |
| Submissions.AcceptedSubmissionIsAnswered | apps/web/app/api/submissions/route.ts:19-27 | a request refused by authentication or validation stores nothing; past them the handler looks up and answers the question |
| Submissions.UnauthorizedFirst | apps/web/app/api/submissions/route.ts:19-22 | an unauthenticated request gets 401 "Unauthorized" and stores nothing |
| Submissions.SubmissionStatus | apps/web/app/api/submissions/route.ts:14-128 | the status is one of 200/400/401/404/500; exact conditions for 401, 400 (with the schema's issues) and 404; nothing is stored on 400, 401 or 404 |
| Submissions.NotFoundIffUnknown | apps/web/app/api/submissions/route.ts:30-38 | with unique ids, the lookup fails exactly when no question has the id |
| Submissions.ScoreIffOk | apps/web/app/api/submissions/route.ts:98-120 | a score is stored exactly when the answer is 200, and it belongs to the stored submission the answer names |
| Submissions.SubmissionKeptOnLaterFailure | apps/web/app/api/submissions/route.ts:53-115 | a stored submission without a stored score means the answer is 500, and the submission is not removed |
| Submissions.StoredSubmission | apps/web/app/api/submissions/route.ts:41-51 | the stored submission belongs to the caller, names an existing question, carries the validated fields and the store's fresh id |
| Submissions.StoredScore | apps/web/app/api/submissions/route.ts:92-110 | the stored score carries the assessment's four scores and feedback, their overall band, and the store's fresh id |
| Submissions.MockModeScore | apps/web/app/api/submissions/route.ts:61-63 | in mock mode a stored score has all four sub-scores and the band in [4, 9]; for a draw in [0, 1) the band equals the task score |
| Submissions.MockAnswerScore | apps/web/app/api/submissions/route.ts:61-115 | the same for the steps after validation |
| Submissions.SavedMockScore | apps/web/app/api/submissions/route.ts:93-205 | a score row saved from mock scores has its four sub-scores and its band in [4, 9], and for a draw in [0, 1) the band is the task score |
| Submissions.SavedScoreHolds | apps/web/app/api/submissions/route.ts:98-110 | the score row stored holds the assessment's scores, its overall band and its feedback |
| Submissions.PostSubmission | apps/web/app/api/submissions/route.ts:14-128 | the method answers as `SubmissionResult` does, appending the submission before the score and leaving the questions unchanged |
| Submissions.RecordScore | apps/web/app/api/submissions/route.ts:98-120 | the score insert appends exactly the score `SaveScore` stores |
| Store.QuestionsWithId | apps/web/app/api/submissions/route.ts:30-34 | the rows with a given id are exactly the question rows carrying it, each as often as it occurs in the table, and no others |
| Store.SingleQuestion | apps/web/app/api/submissions/route.ts:30-38 | `.single()` finds a row exactly when one row has the id |
| Store.SingleQuestionAbsent | apps/web/app/api/submissions/route.ts:36-38 | an unknown id is not found |
| Store.SingleQuestionPresent | apps/web/app/api/submissions/route.ts:30-34 | with unique ids, a stored question is found by its id |
| Store.NewQuestion | apps/web/app/api/questions/route.ts:68-79 | defines the store's answer to a question insert, the row with the generated id and timestamp or a failure; its properties are the rows Store.AppendKeepsDistinct, Store.InsertedQuestionIsFound and Store.Database.InsertQuestion |
| Store.NewSubmission | apps/web/app/api/submissions/route.ts:41-51 | defines the store's answer to a submission insert; its properties are the rows Store.Database.InsertSubmission and Submissions.StoredSubmission |
| Store.NewScore | apps/web/app/api/submissions/route.ts:98-110 | defines the store's answer to a score insert; its properties are the rows Store.Database.InsertScore, Submissions.StoredScore and Submissions.SavedScoreHolds |
| Store.AppendKeepsDistinct | apps/web/app/api/questions/route.ts:68-79 | appending a row with a fresh id keeps the ids unique |
| Store.InsertedQuestionIsFound | apps/web/app/api/questions/route.ts:68-79 | a question just inserted is then the single row with its id |
| Store.Database.InsertQuestion | apps/web/app/api/questions/route.ts:68-79 | appends the new question, if any, and keeps the store valid |
| Store.Database.InsertSubmission | apps/web/app/api/submissions/route.ts:41-51 | appends the new submission, if any, and keeps the store valid |
| Store.Database.InsertScore | apps/web/app/api/submissions/route.ts:98-110 | appends the new score, if any, and keeps the store valid |

## Left out

- I/O and frameworks:
  - HTTP plumbing, `createClient`, and the internals of the Supabase auth call are not modelled; the caller is an `Auth` value.
- Logging:
  - the `console.error` calls are not modelled.
- The completion service:
  - the model name, the temperature and the choice of `choices[0]` are not modelled.
  - the completion is a function of the chat request.
  - the chat request's `System()` and `User()` are the messages sent.
- The store is an append-only set of tables.
  - An insert fails unless the store's reply brings a fresh id.
  - The select-by-id of a question finds exactly the single row with that id.
  - Row timestamps come from the reply.
  - Network and permission failures are covered by the `InsertFailed` reply.
- Zod:
  - issue messages and the extra details Zod attaches are left out; the model keeps each issue's path and kind.
  - the uuid format check is the predicate `isUuid`.
  - fields beyond the four are ignored, as the schema does.
- Numbers:
  - JavaScript numbers and `parseFloat` are modelled as exact reals, so IEEE rounding of long numerals is not modelled.
  - A JSON number is a `real`.
- Text.IntToDecimal: it writes the word count without the exponent form JavaScript uses from 1e21 upwards.
- Whitespace:
  - `\s` and `trim` are modelled with the ASCII whitespace set (space, tab, line feed, vertical tab, form feed, carriage return).
  - The Unicode spaces JavaScript also counts are not modelled.
- Scoring.PromptEmbeds, Scoring.PromptListsTags: these are stated for any middle part of the prompt, and applied to `EvaluationRequest()`.
- Questions.FormattedReplyRoundTrip: it requires the prompt text x to be non-blank.
- Questions.PromptSpan: it requires a non-whitespace character before the next `INSTRUCTIONS:`. When that stretch is blank, the lazy group runs on past the marker. Questions.PromptAfterGap, Questions.PromptBlank and Questions.BlankPromptLine state what the prompt is then.
  - For an all-whitespace x the regex's `\s*` swallows the separator.
  - The capture then begins at `INSTRUCTIONS:`, so the round trip does not hold there.
- `Math.random()`:
  - it is the parameter `random`; the lemmas that depend on its range require 0 ≤ random < 1.
- Submissions.PostSubmission: the mock-or-completion step is computed by the function `Assess` inside the method rather than by separate statements.
- Other parts of the repository are not part of this model:
  - the UI pages and components, including the profile page's average;
  - the results and logout routes;
  - the database client wrapper.
