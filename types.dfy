/**
 * The shared vocabulary of the two route handlers: the test and task categories,
 * the stored rows (questions, submissions, scores), the parsed request body as a
 * JSON value, the caller's identity as the auth provider reports it, and the HTTP
 * response a handler returns.
 */
module Types {
  import opened Wrappers

  /** `TestType`: the Academic or the General Training variant of the exam. */
  datatype TestType = Academic | General

  /** `TaskType`: the short task (a chart or a letter) or the essay. */
  datatype TaskType = Task1 | Task2

  /** The wire name of a test type, as it appears in JSON and in prompts. */
  function TestTypeName(t: TestType): string {
    match t
    case Academic => "academic"
    case General => "general"
  }

  /** The wire name of a task type, as it appears in JSON and in prompts. */
  function TaskTypeName(t: TaskType): string {
    match t
    case Task1 => "task1"
    case Task2 => "task2"
  }

  /** The test type a wire name denotes, if any. */
  function TestTypeOf(name: string): (r: Option<TestType>)
    ensures forall t :: r == Some(t) <==> TestTypeName(t) == name
  {
    if name == "academic" then Some(Academic)
    else if name == "general" then Some(General)
    else None
  }

  /** The task type a wire name denotes, if any. */
  function TaskTypeOf(name: string): (r: Option<TaskType>)
    ensures forall k :: r == Some(k) <==> TaskTypeName(k) == name
  {
    if name == "task1" then Some(Task1)
    else if name == "task2" then Some(Task2)
    else None
  }

  /** Mock mode is on exactly when the setting `USE_MOCK_AI` is the string "true". */
  function UseMockAi(setting: Option<string>): bool {
    setting == Some("true")
  }

  /** A row of the `questions` table. `wordCount` is the minimum word count and
      `timeLimit` is the time allowed, in minutes. */
  datatype Question = Question(
    id: string,
    testType: TestType,
    taskType: TaskType,
    prompt: string,
    instructions: string,
    wordCount: int,
    timeLimit: int,
    createdAt: string)

  /** A row of the `submissions` table; `timeTaken` is in seconds. */
  datatype Submission = Submission(
    id: string,
    userId: string,
    questionId: string,
    content: string,
    wordCount: int,
    timeTaken: int,
    submittedAt: string)

  /** A row of the `scores` table, one per submission. */
  datatype Score = Score(
    id: string,
    submissionId: string,
    taskAchievement: real,
    coherenceCohesion: real,
    lexicalResource: real,
    grammaticalRange: real,
    overallBand: real,
    feedback: string,
    createdAt: string)

  /** A request body after `request.json()`: a JSON value with numbers as exact reals. */
  datatype Json =
    | JNull
    | JBool(b: bool)
    | JNum(n: real)
    | JStr(s: string)
    | JArr(elems: seq<Json>)
    | JObj(fields: map<string, Json>)

  /** The member `key` of a JSON object, if present. */
  function Member(fields: map<string, Json>, key: string): Option<Json> {
    if key in fields then Some(fields[key]) else None
  }

  /** What `supabase.auth.getUser()` reports: an error or no user, or the signed-in user's id. */
  datatype Auth = Unauthenticated | User(id: string)

  /** What the completion service returns for one chat request: a thrown error, or the
      first choice's message content, which may be null. */
  datatype Completion = ServiceError | Reply(content: Option<string>)

  /** The store's answer to an insert (or to a `.single()` select of one row): an error,
      or the generated id and timestamp of the new row. */
  datatype InsertReply = InsertFailed | Inserted(id: string, timestamp: string)

  /** The kinds of validation failure the request schemas report. */
  datatype IssueCode =
    | InvalidType       // absent, not of the declared JSON type, or a fraction where an integer is declared
    | InvalidEnumValue  // a string outside the declared set
    | InvalidString     // a string that is not a uuid
    | TooSmall          // an empty string, or a number that is not positive

  /** One validation failure: the offending top-level field ("" for the body itself) and its kind. */
  datatype Issue = Issue(path: string, code: IssueCode)

  /** The outcome of checking a request body against a schema: the typed request,
      or every issue found, in the order of the schema's fields. */
  datatype Validated<T> = Valid(value: T) | Invalid(issues: seq<Issue>)

  /** A handler's HTTP response: 200 with a body, or an error status with the `error`
      message and, for validation errors, the list of issues. */
  datatype Response<T> =
    | Ok(body: T)
    | Err(status: int, message: string, details: seq<Issue>)
  {
    function Status(): int {
      match this
      case Ok(_) => 200
      case Err(status, _, _) => status
    }
  }
}
