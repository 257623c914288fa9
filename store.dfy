/**
 * The three tables the route handlers write, as an append-only store.  Each
 * insert either fails (the store reports an error) or adds one row carrying the
 * key and timestamp the store generated; a generated key that is already taken
 * is refused, as a primary key would refuse it.  The store also answers the one
 * read the handlers make, `.select('*').eq('id', id).single()` on `questions`.
 */
module Store {
  import opened Wrappers
  import opened Types

  /** The ids of a list of questions. */
  function QuestionIds(qs: seq<Question>): set<string> {
    set q | q in qs :: q.id
  }

  function SubmissionIds(ss: seq<Submission>): set<string> {
    set s | s in ss :: s.id
  }

  function ScoreIds(cs: seq<Score>): set<string> {
    set c | c in cs :: c.id
  }

  /** The rows of `qs` whose id is `id`, in table order. */
  function QuestionsWithId(qs: seq<Question>, id: string): (r: seq<Question>)
    ensures |r| <= |qs|
    ensures forall q :: q in r <==> q in qs && q.id == id
    ensures forall q :: multiset(r)[q] == if q.id == id then multiset(qs)[q] else 0
  {
    if qs == [] then []
    else
      assert qs == [qs[0]] + qs[1..];
      (if qs[0].id == id then [qs[0]] else []) + QuestionsWithId(qs[1..], id)
  }

  /** `.eq('id', id).single()`: the row when exactly one row has the id, and an
      error (here `None`) when there is none or more than one. */
  function SingleQuestion(qs: seq<Question>, id: string): (r: Option<Question>)
    ensures r.Some? <==> |QuestionsWithId(qs, id)| == 1
    ensures r.Some? ==> r.value in qs && r.value.id == id
  {
    var rows := QuestionsWithId(qs, id);
    if |rows| == 1 then Some(rows[0]) else None
  }

  /** A lookup of an id no row carries fails. */
  lemma SingleQuestionAbsent(qs: seq<Question>, id: string)
    requires id !in QuestionIds(qs)
    ensures SingleQuestion(qs, id) == None
  {
    var rows := QuestionsWithId(qs, id);
    if |rows| == 1 {
      assert rows[0] in qs;
    }
  }

  /** With distinct ids, a lookup of an id that some row carries returns that row. */
  lemma SingleQuestionPresent(qs: seq<Question>, i: nat)
    requires i < |qs| && DistinctIds(qs)
    ensures SingleQuestion(qs, qs[i].id) == Some(qs[i])
  {
    OnlyRowWithId(qs, i);
  }

  lemma {:induction false} OnlyRowWithId(qs: seq<Question>, i: nat)
    requires i < |qs| && DistinctIds(qs)
    ensures QuestionsWithId(qs, qs[i].id) == [qs[i]]
  {
    var id := qs[i].id;
    var tail := qs[1..];
    assert DistinctIds(tail) by {
      forall j, k | 0 <= j < k < |tail| ensures tail[j].id != tail[k].id {
        assert tail[j] == qs[j + 1] && tail[k] == qs[k + 1];
      }
    }
    if i == 0 {
      forall k | 0 <= k < |tail| ensures tail[k].id != id {
        assert tail[k] == qs[k + 1];
      }
      NoRowWithId(tail, id);
    } else {
      assert qs[0].id != id;
      assert tail[i - 1] == qs[i];
      OnlyRowWithId(tail, i - 1);
    }
  }

  lemma {:induction false} NoRowWithId(qs: seq<Question>, id: string)
    requires forall k :: 0 <= k < |qs| ==> qs[k].id != id
    ensures QuestionsWithId(qs, id) == []
  {
    if qs != [] {
      NoRowWithId(qs[1..], id);
    }
  }

  /** No two rows of a table share a key. */
  predicate DistinctIds(qs: seq<Question>) {
    forall i, j :: 0 <= i < j < |qs| ==> qs[i].id != qs[j].id
  }

  predicate DistinctSubmissionIds(ss: seq<Submission>) {
    forall i, j :: 0 <= i < j < |ss| ==> ss[i].id != ss[j].id
  }

  predicate DistinctScoreIds(cs: seq<Score>) {
    forall i, j :: 0 <= i < j < |cs| ==> cs[i].id != cs[j].id
  }

  /** A table after an insert: one more row when the insert returned one. */
  function Appended<T>(rows: seq<T>, r: Option<T>): seq<T> {
    match r
    case None => rows
    case Some(row) => rows + [row]
  }

  /** What `.insert(row).select().single()` on `questions` returns: the row with the
      generated key and timestamp, or an error when the store fails or the key is taken. */
  function NewQuestion(qs: seq<Question>, row: Question, reply: InsertReply): (r: Option<Question>)
    ensures r.Some? <==> reply.Inserted? && reply.id !in QuestionIds(qs)
    ensures r.Some? ==> r.value == row.(id := reply.id, createdAt := reply.timestamp)
  {
    match reply
    case InsertFailed => None
    case Inserted(id, at) =>
      if id in QuestionIds(qs) then None else Some(row.(id := id, createdAt := at))
  }

  function NewSubmission(ss: seq<Submission>, row: Submission, reply: InsertReply)
    : (r: Option<Submission>)
    ensures r.Some? <==> reply.Inserted? && reply.id !in SubmissionIds(ss)
    ensures r.Some? ==> r.value == row.(id := reply.id, submittedAt := reply.timestamp)
  {
    match reply
    case InsertFailed => None
    case Inserted(id, at) =>
      if id in SubmissionIds(ss) then None else Some(row.(id := id, submittedAt := at))
  }

  function NewScore(cs: seq<Score>, row: Score, reply: InsertReply): (r: Option<Score>)
    ensures r.Some? <==> reply.Inserted? && reply.id !in ScoreIds(cs)
    ensures r.Some? ==> r.value == row.(id := reply.id, createdAt := reply.timestamp)
  {
    match reply
    case InsertFailed => None
    case Inserted(id, at) =>
      if id in ScoreIds(cs) then None else Some(row.(id := id, createdAt := at))
  }

  /** Appending a row whose key is new keeps the keys distinct. */
  lemma AppendKeepsDistinct(qs: seq<Question>, q: Question)
    requires DistinctIds(qs) && q.id !in QuestionIds(qs)
    ensures DistinctIds(qs + [q])
  {
    var qs' := qs + [q];
    forall i, j | 0 <= i < j < |qs'| ensures qs'[i].id != qs'[j].id {
      if j == |qs| {
        assert qs'[i] in qs;
      }
    }
  }

  /** A question the store has just accepted is what a lookup of its id returns. */
  lemma InsertedQuestionIsFound(qs: seq<Question>, row: Question, reply: InsertReply)
    requires DistinctIds(qs) && NewQuestion(qs, row, reply).Some?
    ensures var q := NewQuestion(qs, row, reply).value;
      SingleQuestion(qs + [q], q.id) == Some(q)
  {
    var q := NewQuestion(qs, row, reply).value;
    AppendKeepsDistinct(qs, q);
    var qs' := qs + [q];
    assert qs'[|qs|] == q;
    SingleQuestionPresent(qs', |qs|);
  }

  /** The store: the `questions`, `submissions` and `scores` tables, in insertion order. */
  class Database {
    var questions: seq<Question>
    var submissions: seq<Submission>
    var scores: seq<Score>

    /** Keys are unique in every table. */
    predicate KeysUnique()
      reads this
    {
      DistinctIds(questions) && DistinctSubmissionIds(submissions) && DistinctScoreIds(scores)
    }

    /** Every submission answers a stored question and every score grades a stored submission. */
    predicate Linked()
      reads this
    {
      && (forall s :: s in submissions ==> s.questionId in QuestionIds(questions))
      && (forall c :: c in scores ==> c.submissionId in SubmissionIds(submissions))
    }

    predicate Valid()
      reads this
    {
      KeysUnique() && Linked()
    }

    constructor ()
      ensures Valid()
      ensures questions == [] && submissions == [] && scores == []
    {
      questions, submissions, scores := [], [], [];
    }

    /** `.from('questions').insert(row).select().single()`. */
    method InsertQuestion(row: Question, reply: InsertReply) returns (r: Option<Question>)
      requires Valid()
      modifies this
      ensures Valid()
      ensures r == NewQuestion(old(questions), row, reply)
      ensures questions == Appended(old(questions), r)
      ensures submissions == old(submissions) && scores == old(scores)
    {
      r := NewQuestion(questions, row, reply);
      if r.Some? {
        AppendKeepsDistinct(questions, r.value);
        questions := questions + [r.value];
      }
    }

    /** `.from('submissions').insert(row).select().single()`.  The handler inserts only
        rows that answer a stored question. */
    method InsertSubmission(row: Submission, reply: InsertReply) returns (r: Option<Submission>)
      requires Valid() && row.questionId in QuestionIds(questions)
      modifies this
      ensures Valid()
      ensures r == NewSubmission(old(submissions), row, reply)
      ensures submissions == Appended(old(submissions), r)
      ensures questions == old(questions) && scores == old(scores)
    {
      r := NewSubmission(submissions, row, reply);
      if r.Some? {
        var ss := submissions + [r.value];
        forall i, j | 0 <= i < j < |ss| ensures ss[i].id != ss[j].id {
          if j == |submissions| {
            assert ss[i] in submissions;
          }
        }
        forall c | c in scores ensures c.submissionId in SubmissionIds(ss) {
          var s :| s in submissions && s.id == c.submissionId;
          assert s in ss;
        }
        submissions := ss;
      }
    }

    /** `.from('scores').insert(row).select().single()`.  The handler inserts only rows
        that grade a stored submission. */
    method InsertScore(row: Score, reply: InsertReply) returns (r: Option<Score>)
      requires Valid() && row.submissionId in SubmissionIds(submissions)
      modifies this
      ensures Valid()
      ensures r == NewScore(old(scores), row, reply)
      ensures scores == Appended(old(scores), r)
      ensures questions == old(questions) && submissions == old(submissions)
    {
      r := NewScore(scores, row, reply);
      if r.Some? {
        var cs := scores + [r.value];
        forall i, j | 0 <= i < j < |cs| ensures cs[i].id != cs[j].id {
          if j == |scores| {
            assert cs[i] in scores;
          }
        }
        scores := cs;
      }
    }
  }
}
