/**
 * `POST /api/submissions`: a signed-in candidate submits a response to a stored
 * question.  The handler validates the body, looks the question up, saves the
 * submission, obtains the four criterion scores (from the completion service or, in
 * development, from the mock generator), computes the overall band and saves the
 * score.  The submission is saved before scoring starts and is not taken back when
 * a later step fails.
 */
module Submissions {
  import opened Wrappers
  import opened Types
  import opened Store
  import opened Scoring

  // ---------------------------------------------------------------------------
  // The request schema
  // ---------------------------------------------------------------------------

  /** A request body the schema accepted. */
  datatype SubmissionRequest = SubmissionRequest(
    questionId: string,
    content: string,
    wordCount: int,
    timeTaken: int)

  /** `z.string().uuid()`: a string, of the uuid shape `isUuid` recognises. */
  function UuidIssues(key: string, v: Option<Json>, isUuid: string -> bool): (r: seq<Issue>)
    ensures r == [] <==> v.Some? && v.value.JStr? && isUuid(v.value.s)
    ensures |r| <= 1
  {
    if v.None? || !v.value.JStr? then [Issue(key, InvalidType)]
    else if !isUuid(v.value.s) then [Issue(key, InvalidString)]
    else []
  }

  /** `z.string().min(1)`: a string of at least one character. */
  function NonEmptyIssues(key: string, v: Option<Json>): (r: seq<Issue>)
    ensures r == [] <==> v.Some? && v.value.JStr? && v.value.s != []
    ensures |r| <= 1
  {
    if v.None? || !v.value.JStr? then [Issue(key, InvalidType)]
    else if v.value.s == [] then [Issue(key, TooSmall)]
    else []
  }

  /** `z.number().int().positive()`: a number, and then both checks run, so a negative
      fraction is reported twice. */
  function PositiveIntIssues(key: string, v: Option<Json>): (r: seq<Issue>)
    ensures r == [] <==> v.Some? && v.value.JNum? && v.value.n.Floor as real == v.value.n && v.value.n > 0.0
    ensures forall i :: 0 <= i < |r| ==> r[i].path == key
  {
    if v.None? || !v.value.JNum? then [Issue(key, InvalidType)]
    else
      var n := v.value.n;
      (if n.Floor as real != n then [Issue(key, InvalidType)] else [])
      + (if n <= 0.0 then [Issue(key, TooSmall)] else [])
  }

  /** The schema's four fields, in order. */
  const QuestionIdKey: string := "question_id"
  const ContentKey: string := "content"
  const WordCountKey: string := "word_count"
  const TimeTakenKey: string := "time_taken"

  /** `requestSchema.parse(body)`: every issue of the four fields, in the schema's order;
      other members are ignored.  `isUuid` stands for the schema's uuid pattern. */
  function ValidateSubmission(body: Json, isUuid: string -> bool): Validated<SubmissionRequest> {
    if !body.JObj? then Invalid([Issue("", InvalidType)])
    else
      var q, c := Member(body.fields, QuestionIdKey), Member(body.fields, ContentKey);
      var w, t := Member(body.fields, WordCountKey), Member(body.fields, TimeTakenKey);
      var issues := UuidIssues(QuestionIdKey, q, isUuid) + NonEmptyIssues(ContentKey, c)
        + PositiveIntIssues(WordCountKey, w) + PositiveIntIssues(TimeTakenKey, t);
      if issues == [] then
        Valid(SubmissionRequest(q.value.s, c.value.s, w.value.n.Floor, t.value.n.Floor))
      else Invalid(issues)
  }

  /** The schema accepts exactly an object whose `question_id` is a uuid string, whose
      `content` is a non-empty string and whose `word_count` and `time_taken` are
      positive integers, and it hands those four values on. */
  lemma ValidateSubmissionSpec(body: Json, isUuid: string -> bool, req: SubmissionRequest)
    ensures ValidateSubmission(body, isUuid) == Valid(req) <==>
      && body.JObj?
      && Member(body.fields, QuestionIdKey) == Some(JStr(req.questionId)) && isUuid(req.questionId)
      && Member(body.fields, ContentKey) == Some(JStr(req.content)) && req.content != []
      && Member(body.fields, WordCountKey) == Some(JNum(req.wordCount as real)) && req.wordCount > 0
      && Member(body.fields, TimeTakenKey) == Some(JNum(req.timeTaken as real)) && req.timeTaken > 0
  {
  }

  /** Every rejection reports at least one issue, and each issue names the body itself or
      one of the four fields. */
  lemma RejectionIssues(body: Json, isUuid: string -> bool)
    requires ValidateSubmission(body, isUuid).Invalid?
    ensures var issues := ValidateSubmission(body, isUuid).issues;
      && issues != []
      && forall i :: 0 <= i < |issues| ==>
           issues[i].path in {"", QuestionIdKey, ContentKey, WordCountKey, TimeTakenKey}
  {
    if body.JObj? {
      var q, c := Member(body.fields, QuestionIdKey), Member(body.fields, ContentKey);
      var w, t := Member(body.fields, WordCountKey), Member(body.fields, TimeTakenKey);
      var a := UuidIssues(QuestionIdKey, q, isUuid);
      var b := NonEmptyIssues(ContentKey, c);
      var x := PositiveIntIssues(WordCountKey, w);
      var y := PositiveIntIssues(TimeTakenKey, t);
      assert forall i :: 0 <= i < |a| ==> a[i].path == QuestionIdKey;
      assert forall i :: 0 <= i < |b| ==> b[i].path == ContentKey;
      var issues := a + b + x + y;
      forall i | 0 <= i < |issues|
        ensures issues[i].path in {"", QuestionIdKey, ContentKey, WordCountKey, TimeTakenKey}
      {
        if i < |a| {
          assert issues[i] == a[i];
        } else if i < |a| + |b| {
          assert issues[i] == b[i - |a|];
        } else if i < |a| + |b| + |x| {
          assert issues[i] == x[i - |a| - |b|];
        } else {
          assert issues[i] == y[i - |a| - |b| - |x|];
        }
      }
    }
  }

  /** A negative fractional word count draws two issues on that field. */
  lemma NegativeFractionTwice()
    ensures PositiveIntIssues(WordCountKey, Some(JNum(-1.5)))
      == [Issue(WordCountKey, InvalidType), Issue(WordCountKey, TooSmall)]
  {
    assert (-1.5).Floor == -2;
  }

  // ---------------------------------------------------------------------------
  // The handler
  // ---------------------------------------------------------------------------

  /** The body of a successful response: the new submission's id and the stored score. */
  datatype SubmissionBody = SubmissionBody(submissionId: string, score: Score)

  /** What a request does: the response, and the submission and score stored, if any. */
  datatype SubmissionOutcome = SubmissionOutcome(
    response: Response<SubmissionBody>,
    submission: Option<Submission>,
    score: Option<Score>)

  /** A failure that stores nothing. */
  function Refused(status: int, message: string, details: seq<Issue>): SubmissionOutcome {
    SubmissionOutcome(Err(status, message, details), None, None)
  }

  /** The row handed to the submission insert. */
  function SubmissionRow(userId: string, req: SubmissionRequest): Submission {
    Submission("", userId, req.questionId, req.content, req.wordCount, req.timeTaken, "")
  }

  /** The row handed to the score insert: the four criterion scores, the overall band
      computed from them and the feedback. */
  function ScoreRow(submissionId: string, s: SubScores): Score {
    Score("", submissionId, s.taskAchievement, s.coherenceCohesion, s.lexicalResource,
          s.grammaticalRange, OverallBand(s), s.feedback, "")
  }

  /** The assessment of a response: the mock scores in mock mode; otherwise the scores
      read from the completion's reply (the empty reply when it has no content), or
      `None` when the service fails. */
  function Assess(question: Question, req: SubmissionRequest, mockAi: bool,
                  complete: ScoringChat -> Completion, random: real): Option<SubScores>
  {
    if mockAi then Some(MockScores(req.content, req.wordCount, random))
    else match complete(ScoringChat(question, req.content))
      case ServiceError => None
      case Reply(c) => Some(ParseScores(c.GetOr("")))
  }

  /** In mock mode the assessment is the mock scores, whatever the completion service would
      answer and whatever the question is. */
  lemma MockAssessmentIgnoresService(question: Question, other: Question, req: SubmissionRequest,
                                     f: ScoringChat -> Completion, g: ScoringChat -> Completion, random: real)
    ensures Assess(question, req, true, f, random) == Assess(other, req, true, g, random)
    ensures Assess(question, req, true, f, random) == Some(MockScores(req.content, req.wordCount, random))
  {
  }

  /** With the service, the assessment depends on nothing but the reply to the one chat the
      route sends, the one built from the question and the response text, and not on the draw. */
  lemma AssessmentDependsOnReply(question: Question, req: SubmissionRequest,
                                 f: ScoringChat -> Completion, g: ScoringChat -> Completion, r1: real, r2: real)
    requires f(ScoringChat(question, req.content)) == g(ScoringChat(question, req.content))
    ensures Assess(question, req, false, f, r1) == Assess(question, req, false, g, r2)
  {
  }

  /** A failed call gives no assessment, and a reply without content gives four 5.0 scores
      and the placeholder feedback. */
  lemma AssessmentWithoutReply(question: Question, req: SubmissionRequest,
                               complete: ScoringChat -> Completion, random: real)
    ensures complete(ScoringChat(question, req.content)).ServiceError?
      ==> Assess(question, req, false, complete, random) == None
    ensures complete(ScoringChat(question, req.content)) == Reply(None)
      ==> Assess(question, req, false, complete, random) == Some(SubScores(5.0, 5.0, 5.0, 5.0, NoFeedback))
  {
    if complete(ScoringChat(question, req.content)) == Reply(None) {
      EmptyReplyDefaults();
    }
  }

  /** `POST` as a function of the caller, the body (`None` when it is not JSON), the
      uuid check, the mock setting, the completion service, the draw of `Math.random()`,
      the three stored tables and the store's replies to the two inserts. */
  function SubmissionResult(auth: Auth, body: Option<Json>, isUuid: string -> bool,
                            mockSetting: Option<string>, complete: ScoringChat -> Completion,
                            random: real, questions: seq<Question>, submissions: seq<Submission>,
                            scores: seq<Score>, submissionReply: InsertReply, scoreReply: InsertReply)
    : SubmissionOutcome
  {
    if auth.Unauthenticated? then Refused(401, "Unauthorized", [])
    else if body.None? then Refused(500, "Internal server error", [])
    else match ValidateSubmission(body.value, isUuid)
      case Invalid(issues) => Refused(400, "Invalid request data", issues)
      case Valid(req) =>
        AnswerQuestion(auth.id, req, UseMockAi(mockSetting), complete, random,
                       questions, submissions, scores, submissionReply, scoreReply)
  }

  /** The steps after validation: the question lookup and the submission insert. */
  function AnswerQuestion(userId: string, req: SubmissionRequest, mockAi: bool,
                          complete: ScoringChat -> Completion, random: real,
                          questions: seq<Question>, submissions: seq<Submission>, scores: seq<Score>,
                          submissionReply: InsertReply, scoreReply: InsertReply): (o: SubmissionOutcome)
    ensures o.submission.Some? <==>
      SingleQuestion(questions, req.questionId).Some?
      && NewSubmission(submissions, SubmissionRow(userId, req), submissionReply).Some?
    ensures o.submission.Some? ==> o.submission == NewSubmission(submissions, SubmissionRow(userId, req), submissionReply)
    ensures o.submission.None? ==> o.score.None? && o.response.Err?
    ensures o.response.Status() == 404 <==> SingleQuestion(questions, req.questionId).None?
  {
    match SingleQuestion(questions, req.questionId)
    case None => Refused(404, "Question not found", [])
    case Some(question) =>
      match NewSubmission(submissions, SubmissionRow(userId, req), submissionReply)
      case None => Refused(500, "Failed to save submission", [])
      case Some(submission) =>
        SaveScore(submission, Assess(question, req, mockAi, complete, random), scores, scoreReply)
  }

  /** The last steps: a failed assessment is a 500, then the score insert.  The
      submission is part of the outcome either way. */
  function SaveScore(submission: Submission, assessed: Option<SubScores>, scores: seq<Score>,
                     reply: InsertReply): (o: SubmissionOutcome)
    ensures o.submission == Some(submission)
    ensures o.score.Some? <==> o.response.Ok?
    ensures o.response.Ok? ==> o.response.body == SubmissionBody(submission.id, o.score.value)
    ensures o.response.Status() in {200, 500}
    ensures o.response.Status() == 500 <==>
      assessed.None? || NewScore(scores, ScoreRow(submission.id, assessed.value), reply).None?
    ensures o.score.Some? ==> o.score == NewScore(scores, ScoreRow(submission.id, assessed.value), reply)
  {
    match assessed
    case None => SubmissionOutcome(Err(500, "Internal server error", []), Some(submission), None)
    case Some(s) =>
      match NewScore(scores, ScoreRow(submission.id, s), reply)
      case None => SubmissionOutcome(Err(500, "Failed to save scores", []), Some(submission), None)
      case Some(score) => SubmissionOutcome(Ok(SubmissionBody(submission.id, score)), Some(submission), Some(score))
  }

  /** The request that got past validation; `None` when the caller is unknown or the
      body is not (valid) JSON. */
  function AcceptedSubmission(auth: Auth, body: Option<Json>, isUuid: string -> bool)
    : Option<SubmissionRequest>
  {
    if auth.User? && body.Some? && ValidateSubmission(body.value, isUuid).Valid? then
      Some(ValidateSubmission(body.value, isUuid).value)
    else None
  }

  /** Before validation succeeds nothing is stored; after it, the outcome is that of
      answering the question. */
  lemma AcceptedSubmissionIsAnswered(auth: Auth, body: Option<Json>, isUuid: string -> bool,
                                     mockSetting: Option<string>, complete: ScoringChat -> Completion,
                                     random: real, questions: seq<Question>, submissions: seq<Submission>,
                                     scores: seq<Score>, submissionReply: InsertReply, scoreReply: InsertReply)
    ensures var o := SubmissionResult(auth, body, isUuid, mockSetting, complete, random,
                                      questions, submissions, scores, submissionReply, scoreReply);
      var req := AcceptedSubmission(auth, body, isUuid);
      && (req.None? ==> o.submission.None? && o.score.None? && o.response.Err?)
      && (req.Some? ==>
            o == AnswerQuestion(auth.id, req.value, UseMockAi(mockSetting), complete, random,
                                questions, submissions, scores, submissionReply, scoreReply))
  {
  }

  /** An unauthenticated request fails with 401 and stores nothing. */
  lemma UnauthorizedFirst(body: Option<Json>, isUuid: string -> bool,
                          mockSetting: Option<string>, complete: ScoringChat -> Completion,
                          random: real, questions: seq<Question>, submissions: seq<Submission>,
                          scores: seq<Score>, submissionReply: InsertReply, scoreReply: InsertReply)
    ensures SubmissionResult(Unauthenticated, body, isUuid, mockSetting, complete, random,
                             questions, submissions, scores, submissionReply, scoreReply)
      == Refused(401, "Unauthorized", [])
  {
  }

  /** The status codes: 401 without a user, 400 exactly for a body the schema rejects
      (with its issues), 404 exactly for an accepted request whose question the lookup
      does not return, and otherwise 200 or 500. */
  lemma SubmissionStatus(auth: Auth, body: Option<Json>, isUuid: string -> bool,
                         mockSetting: Option<string>, complete: ScoringChat -> Completion,
                         random: real, questions: seq<Question>, submissions: seq<Submission>,
                         scores: seq<Score>, submissionReply: InsertReply, scoreReply: InsertReply)
    ensures var o := SubmissionResult(auth, body, isUuid, mockSetting, complete, random,
                                      questions, submissions, scores, submissionReply, scoreReply);
      var req := AcceptedSubmission(auth, body, isUuid);
      && o.response.Status() in {200, 400, 401, 404, 500}
      && (o.response.Status() == 401 <==> auth.Unauthenticated?)
      && (o.response.Status() == 400 <==>
            auth.User? && body.Some? && ValidateSubmission(body.value, isUuid).Invalid?)
      && (o.response.Status() == 400 ==> o.response.details == ValidateSubmission(body.value, isUuid).issues)
      && (o.response.Status() == 404 <==> req.Some? && SingleQuestion(questions, req.value.questionId).None?)
      && (o.response.Status() == 500 && req.None? <==> auth.User? && body.None?)
      && (o.response.Status() in {400, 401, 404} ==> o.submission.None? && o.score.None?)
  {
    AcceptedSubmissionIsAnswered(auth, body, isUuid, mockSetting, complete, random,
                                 questions, submissions, scores, submissionReply, scoreReply);
  }

  /** With distinct question ids, the lookup fails exactly for an id no question carries. */
  lemma NotFoundIffUnknown(questions: seq<Question>, id: string)
    requires DistinctIds(questions)
    ensures SingleQuestion(questions, id).None? <==> id !in QuestionIds(questions)
  {
    if id in QuestionIds(questions) {
      var i :| 0 <= i < |questions| && questions[i].id == id;
      SingleQuestionPresent(questions, i);
    } else {
      SingleQuestionAbsent(questions, id);
    }
  }

  /** A score is stored exactly when the response is 200; a stored score grades the
      submission stored by the same request, whose id the response reports. */
  lemma ScoreIffOk(auth: Auth, body: Option<Json>, isUuid: string -> bool,
                   mockSetting: Option<string>, complete: ScoringChat -> Completion,
                   random: real, questions: seq<Question>, submissions: seq<Submission>,
                   scores: seq<Score>, submissionReply: InsertReply, scoreReply: InsertReply)
    ensures var o := SubmissionResult(auth, body, isUuid, mockSetting, complete, random,
                                      questions, submissions, scores, submissionReply, scoreReply);
      && (o.score.Some? <==> o.response.Ok?)
      && (o.score.Some? ==>
            && o.submission.Some?
            && o.score.value.submissionId == o.submission.value.id
            && o.response.body == SubmissionBody(o.submission.value.id, o.score.value))
  {
    AcceptedSubmissionIsAnswered(auth, body, isUuid, mockSetting, complete, random,
                                 questions, submissions, scores, submissionReply, scoreReply);
  }

  /** Once the submission is saved it stays saved: a failure to assess the response or
      to save the score is a 500 whose outcome still holds the submission. */
  lemma SubmissionKeptOnLaterFailure(auth: Auth, body: Option<Json>, isUuid: string -> bool,
                                     mockSetting: Option<string>, complete: ScoringChat -> Completion,
                                     random: real, questions: seq<Question>, submissions: seq<Submission>,
                                     scores: seq<Score>, submissionReply: InsertReply, scoreReply: InsertReply)
    ensures var o := SubmissionResult(auth, body, isUuid, mockSetting, complete, random,
                                      questions, submissions, scores, submissionReply, scoreReply);
      o.submission.Some? && o.score.None? ==> o.response.Status() == 500
  {
    AcceptedSubmissionIsAnswered(auth, body, isUuid, mockSetting, complete, random,
                                 questions, submissions, scores, submissionReply, scoreReply);
  }

  /** The stored submission belongs to the caller, answers the requested question, which
      is stored, and holds the request's content, word count and time taken with the id
      and timestamp the store generated. */
  lemma StoredSubmission(auth: Auth, body: Option<Json>, isUuid: string -> bool,
                         mockSetting: Option<string>, complete: ScoringChat -> Completion,
                         random: real, questions: seq<Question>, submissions: seq<Submission>,
                         scores: seq<Score>, submissionReply: InsertReply, scoreReply: InsertReply)
    requires SubmissionResult(auth, body, isUuid, mockSetting, complete, random,
                              questions, submissions, scores, submissionReply, scoreReply).submission.Some?
    ensures AcceptedSubmission(auth, body, isUuid).Some?
    ensures var s := SubmissionResult(auth, body, isUuid, mockSetting, complete, random,
                                      questions, submissions, scores, submissionReply, scoreReply).submission.value;
      var req := AcceptedSubmission(auth, body, isUuid).value;
      && auth == User(s.userId)
      && s.questionId == req.questionId && s.questionId in QuestionIds(questions)
      && s.content == req.content && s.wordCount == req.wordCount && s.timeTaken == req.timeTaken
      && submissionReply == Inserted(s.id, s.submittedAt) && s.id !in SubmissionIds(submissions)
  {
    AcceptedSubmissionIsAnswered(auth, body, isUuid, mockSetting, complete, random,
                                 questions, submissions, scores, submissionReply, scoreReply);
    var req := AcceptedSubmission(auth, body, isUuid).value;
    var q := SingleQuestion(questions, req.questionId).value;
    assert q in questions;
  }

  /** The assessment a stored score was computed from. */
  function AssessmentOf(auth: Auth, body: Option<Json>, isUuid: string -> bool,
                        mockSetting: Option<string>, complete: ScoringChat -> Completion,
                        random: real, questions: seq<Question>): Option<SubScores>
  {
    match AcceptedSubmission(auth, body, isUuid)
    case None => None
    case Some(req) =>
      match SingleQuestion(questions, req.questionId)
      case None => None
      case Some(question) => Assess(question, req, UseMockAi(mockSetting), complete, random)
  }

  /** A stored score holds the four criterion scores and the feedback of the
      assessment, and the overall band computed from them, which is a half band: the
      mean of the four rounded to the nearest half, quarter points up. */
  lemma StoredScore(auth: Auth, body: Option<Json>, isUuid: string -> bool,
                    mockSetting: Option<string>, complete: ScoringChat -> Completion,
                    random: real, questions: seq<Question>, submissions: seq<Submission>,
                    scores: seq<Score>, submissionReply: InsertReply, scoreReply: InsertReply)
    requires SubmissionResult(auth, body, isUuid, mockSetting, complete, random,
                              questions, submissions, scores, submissionReply, scoreReply).score.Some?
    ensures AssessmentOf(auth, body, isUuid, mockSetting, complete, random, questions).Some?
    ensures var c := SubmissionResult(auth, body, isUuid, mockSetting, complete, random,
                                      questions, submissions, scores, submissionReply, scoreReply).score.value;
      var s := AssessmentOf(auth, body, isUuid, mockSetting, complete, random, questions).value;
      && c.taskAchievement == s.taskAchievement && c.coherenceCohesion == s.coherenceCohesion
      && c.lexicalResource == s.lexicalResource && c.grammaticalRange == s.grammaticalRange
      && c.feedback == s.feedback
      && c.overallBand == OverallBand(s) && IsHalfStep(c.overallBand)
      && scoreReply == Inserted(c.id, c.createdAt) && c.id !in ScoreIds(scores)
  {
    AcceptedSubmissionIsAnswered(auth, body, isUuid, mockSetting, complete, random,
                                 questions, submissions, scores, submissionReply, scoreReply);
  }

  /** In mock mode a stored score is between 4 and 9 on every criterion and so overall;
      for a draw in [0, 1) the overall band is the task score. */
  lemma MockModeScore(auth: Auth, body: Option<Json>, isUuid: string -> bool,
                      complete: ScoringChat -> Completion,
                      random: real, questions: seq<Question>, submissions: seq<Submission>,
                      scores: seq<Score>, submissionReply: InsertReply, scoreReply: InsertReply)
    requires SubmissionResult(auth, body, isUuid, Some("true"), complete, random,
                              questions, submissions, scores, submissionReply, scoreReply).score.Some?
    ensures var c := SubmissionResult(auth, body, isUuid, Some("true"), complete, random,
                                      questions, submissions, scores, submissionReply, scoreReply).score.value;
      && 4.0 <= c.taskAchievement <= 9.0 && 4.0 <= c.coherenceCohesion <= 9.0
      && 4.0 <= c.lexicalResource <= 9.0 && 4.0 <= c.grammaticalRange <= 9.0
      && 4.0 <= c.overallBand <= 9.0
      && (0.0 <= random < 1.0 ==> c.overallBand == c.taskAchievement)
  {
    AcceptedSubmissionIsAnswered(auth, body, isUuid, Some("true"), complete, random,
                                 questions, submissions, scores, submissionReply, scoreReply);
    MockAnswerScore(auth.id, AcceptedSubmission(auth, body, isUuid).value, complete, random,
                    questions, submissions, scores, submissionReply, scoreReply);
  }

  lemma MockAnswerScore(userId: string, req: SubmissionRequest, complete: ScoringChat -> Completion,
                        random: real, questions: seq<Question>, submissions: seq<Submission>,
                        scores: seq<Score>, submissionReply: InsertReply, scoreReply: InsertReply)
    requires AnswerQuestion(userId, req, true, complete, random, questions, submissions, scores,
                            submissionReply, scoreReply).score.Some?
    ensures var c := AnswerQuestion(userId, req, true, complete, random, questions, submissions, scores,
                                    submissionReply, scoreReply).score.value;
      && 4.0 <= c.taskAchievement <= 9.0 && 4.0 <= c.coherenceCohesion <= 9.0
      && 4.0 <= c.lexicalResource <= 9.0 && 4.0 <= c.grammaticalRange <= 9.0
      && 4.0 <= c.overallBand <= 9.0
      && (0.0 <= random < 1.0 ==> c.overallBand == c.taskAchievement)
  {
    var submission := NewSubmission(submissions, SubmissionRow(userId, req), submissionReply).value;
    var m := MockScores(req.content, req.wordCount, random);
    assert AnswerQuestion(userId, req, true, complete, random, questions, submissions, scores,
                          submissionReply, scoreReply) == SaveScore(submission, Some(m), scores, scoreReply) by {
      var question := SingleQuestion(questions, req.questionId).value;
      assert Assess(question, req, true, complete, random) == Some(m);
    }
    var feedback := MockFeedback(req.wordCount);
    assert m == MockScoresWith(req.wordCount, random, feedback);
    SavedMockScore(submission, req.wordCount, random, feedback, scores, scoreReply);
  }

  /** A score row saved from mock scores lies on the 4-9 scale, and for a draw in [0, 1)
      its overall band is its task score. */
  lemma SavedMockScore(submission: Submission, wordCount: int, random: real, feedback: string,
                       scores: seq<Score>, reply: InsertReply)
    requires SaveScore(submission, Some(MockScoresWith(wordCount, random, feedback)), scores, reply).score.Some?
    ensures var c := SaveScore(submission, Some(MockScoresWith(wordCount, random, feedback)), scores, reply).score.value;
      && 4.0 <= c.taskAchievement <= 9.0 && 4.0 <= c.coherenceCohesion <= 9.0
      && 4.0 <= c.lexicalResource <= 9.0 && 4.0 <= c.grammaticalRange <= 9.0
      && 4.0 <= c.overallBand <= 9.0
      && (0.0 <= random < 1.0 ==> c.overallBand == c.taskAchievement)
  {
    var s := MockScoresWith(wordCount, random, feedback);
    SavedScoreHolds(submission, s, scores, reply);
    MockBand(wordCount, random, feedback);
    assert 4.0 <= s.Get(TaskAchievement) <= 9.0 && 4.0 <= s.Get(CoherenceCohesion) <= 9.0;
    assert 4.0 <= s.Get(LexicalResource) <= 9.0 && 4.0 <= s.Get(GrammaticalRange) <= 9.0;
  }

  /** A saved score holds the assessment's four scores and the band computed from them. */
  lemma SavedScoreHolds(submission: Submission, s: SubScores, scores: seq<Score>, reply: InsertReply)
    ensures var c := SaveScore(submission, Some(s), scores, reply).score;
      c.Some? ==>
        && c.value.taskAchievement == s.taskAchievement && c.value.coherenceCohesion == s.coherenceCohesion
        && c.value.lexicalResource == s.lexicalResource && c.value.grammaticalRange == s.grammaticalRange
        && c.value.overallBand == OverallBand(s) && c.value.feedback == s.feedback
  {
  }

  /** `POST /api/submissions`, step by step, against the store. */
  method PostSubmission(db: Database, auth: Auth, body: Option<Json>, isUuid: string -> bool,
                        mockSetting: Option<string>, complete: ScoringChat -> Completion,
                        random: real, submissionReply: InsertReply, scoreReply: InsertReply)
    returns (response: Response<SubmissionBody>)
    requires db.Valid()
    modifies db
    ensures db.Valid()
    ensures var o := SubmissionResult(auth, body, isUuid, mockSetting, complete, random,
                                      old(db.questions), old(db.submissions), old(db.scores),
                                      submissionReply, scoreReply);
      && response == o.response
      && db.submissions == Appended(old(db.submissions), o.submission)
      && db.scores == Appended(old(db.scores), o.score)
    ensures db.questions == old(db.questions)
  {
    if auth.Unauthenticated? {
      return Err(401, "Unauthorized", []);
    }
    if body.None? {
      return Err(500, "Internal server error", []);
    }
    var validated := ValidateSubmission(body.value, isUuid);
    if validated.Invalid? {
      return Err(400, "Invalid request data", validated.issues);
    }
    var req := validated.value;
    var found := SingleQuestion(db.questions, req.questionId);
    if found.None? {
      return Err(404, "Question not found", []);
    }
    var question := found.value;
    var submission := db.InsertSubmission(SubmissionRow(auth.id, req), submissionReply);
    if submission.None? {
      return Err(500, "Failed to save submission", []);
    }
    var assessed := Assess(question, req, UseMockAi(mockSetting), complete, random);
    if assessed.None? {
      return Err(500, "Internal server error", []);
    }
    response := RecordScore(db, submission.value, assessed.value, scoreReply);
  }

  /** The score insert of `POST /api/submissions` and the response that follows it. */
  method RecordScore(db: Database, submission: Submission, assessed: SubScores, reply: InsertReply)
    returns (response: Response<SubmissionBody>)
    requires db.Valid() && submission in db.submissions
    modifies db
    ensures db.Valid()
    ensures var o := SaveScore(submission, Some(assessed), old(db.scores), reply);
      response == o.response && db.scores == Appended(old(db.scores), o.score)
    ensures db.questions == old(db.questions) && db.submissions == old(db.submissions)
  {
    var score := db.InsertScore(ScoreRow(submission.id, assessed), reply);
    if score.None? {
      return Err(500, "Failed to save scores", []);
    }
    return Ok(SubmissionBody(submission.id, score.value));
  }
}
