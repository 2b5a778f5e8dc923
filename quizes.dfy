/** The quiz routes: a test's summary, starting an attempt, and reading one
    question. The test lookup is given as its result (`None` when no test has
    that id); the question lookup is a parameter. */
module Quizes {
  import opened Common
  import opened Store

  /** A record of the `tests` collection; `questionIds` is `None` when the
      document lacks `question_ids`. */
  datatype TestDoc = TestDoc(name: string, description: string, questionIds: Option<seq<string>>)

  datatype TestInfo = TestInfo(name: string, description: string, questionsCount: nat)

  const TestNotFound := HttpError(404, "Test not found")
  const QuestionNotFound := HttpError(404, "Question not found")
  const ResultNotCreated := HttpError(500, "Error creating test results")

  /** GET /quizes/{test_id}. A test without `question_ids` fails with a
      `KeyError`. */
  function GetTestInfo(test: Option<TestDoc>): (r: Result<TestInfo>)
    ensures test.None? ==> r == Err(TestNotFound)
    ensures test.Some? && test.value.questionIds.None? ==> r == Err(InternalError)
    ensures r.Ok? <==> test.Some? && test.value.questionIds.Some?
    ensures r.Ok? ==>
              && r.value.name == test.value.name && r.value.description == test.value.description
              && r.value.questionsCount == |test.value.questionIds.value|
  {
    if test.None? then Err(TestNotFound)
    else if test.value.questionIds.None? then Err(InternalError)
    else Ok(TestInfo(test.value.name, test.value.description, |test.value.questionIds.value|))
  }

  /** POST /quizes/{test_id}/start for `userId`. `insertedId` is the id the
      store gives the new result record; an empty one is the falsy id the
      route refuses. */
  method StartTest(db: Database, testId: string, userId: int, test: Option<TestDoc>, insertedId: string)
    returns (r: Result<string>)
    modifies db
    ensures test.None? ==> r == Err(TestNotFound) && db.results == old(db.results)
    ensures test.Some? && test.value.questionIds.None? ==> r == Err(InternalError) && db.results == old(db.results)
    ensures test.Some? && test.value.questionIds.Some? ==>
              && db.results == old(db.results)
                   + [QuizResult(insertedId, userId, testId, Unanswered(|test.value.questionIds.value|), None, false)]
              && (insertedId == "" ==> r == Err(ResultNotCreated))
              && (insertedId != "" ==> r == Ok(insertedId))
    ensures db.likes == old(db.likes) && db.chats == old(db.chats) && db.users == old(db.users)
  {
    if test.None? {
      return Err(TestNotFound);
    }
    if test.value.questionIds.None? {
      return Err(InternalError);
    }
    var resultId := db.CreateResult(userId, testId, |test.value.questionIds.value|, insertedId);
    if resultId == "" {
      return Err(ResultNotCreated);
    }
    r := Ok(resultId);
  }

  /** Python's `xs[n]` on a list of length `len`: the position it reads, or
      `None` for an `IndexError`. Negative positions count from the end. */
  function PyIndex(len: nat, n: int): (p: Option<nat>)
    ensures p.Some? <==> 0 - len <= n < len
    ensures p.Some? ==> p.value < len
    ensures p.Some? && n >= 0 ==> p.value == n
    ensures p.Some? && n < 0 ==> p.value == len + n
  {
    if 0 <= n < len then Some(n as nat)
    else if 0 - len <= n < 0 then Some((len + n) as nat)
    else None
  }

  datatype QuestionView = QuestionView(description: string, questionNumber: int)

  /** GET /quizes/{test_id}/question/{question_number}. `fetchDescription`
      looks a question up by id and gives its description, or `None` when
      there is no such question (the route then fails on a `None` lookup). */
  function GetQuestion(test: Option<TestDoc>, questionNumber: int,
                       fetchDescription: string -> Option<string>): (r: Result<QuestionView>)
    ensures test.None? ==> r == Err(TestNotFound)
    ensures test.Some? && questionNumber >= |test.value.questionIds.GetOr([])| ==> r == Err(QuestionNotFound)
    ensures test.Some? && questionNumber < 0 - |test.value.questionIds.GetOr([])| ==> r == Err(InternalError)
    ensures test.Some? ==>
              var ids := test.value.questionIds.GetOr([]);
              PyIndex(|ids|, questionNumber).Some? && fetchDescription(ids[PyIndex(|ids|, questionNumber).value]).None?
              ==> r == Err(InternalError)
    ensures r.Ok? ==> r.value.questionNumber == questionNumber
    ensures r.Ok? <==>
              && test.Some?
              && var ids := test.value.questionIds.GetOr([]);
                 && PyIndex(|ids|, questionNumber).Some?
                 && fetchDescription(ids[PyIndex(|ids|, questionNumber).value]).Some?
    ensures r.Ok? ==>
              var ids := test.value.questionIds.GetOr([]);
              r.value.description == fetchDescription(ids[PyIndex(|ids|, questionNumber).value]).value
  {
    if test.None? then Err(TestNotFound)
    else
      var ids := test.value.questionIds.GetOr([]);
      if questionNumber >= |ids| then Err(QuestionNotFound)
      else
        var position := PyIndex(|ids|, questionNumber);
        if position.None? then Err(InternalError)
        else
          var description := fetchDescription(ids[position.value]);
          if description.None? then Err(InternalError)
          else Ok(QuestionView(description.value, questionNumber))
  }

  /** A question number past the end never reaches the question lookup: the
      answer is the same whatever the lookup would give. */
  lemma QuestionPastEndIgnoresLookup(test: TestDoc, questionNumber: int,
                                     f: string -> Option<string>, g: string -> Option<string>)
    requires questionNumber >= |test.questionIds.GetOr([])|
    ensures GetQuestion(Some(test), questionNumber, f) == GetQuestion(Some(test), questionNumber, g)
  {
  }

  /** Counting from the end: `-k` reads the same question as `len - k`. */
  lemma NegativeQuestionNumber(test: TestDoc, k: nat, f: string -> Option<string>)
    requires 0 < k <= |test.questionIds.GetOr([])|
    ensures var n := |test.questionIds.GetOr([])|;
            && GetQuestion(Some(test), 0 - k, f).Ok? == GetQuestion(Some(test), n - k, f).Ok?
            && (GetQuestion(Some(test), 0 - k, f).Ok? ==>
                  GetQuestion(Some(test), 0 - k, f).value.description == GetQuestion(Some(test), n - k, f).value.description)
  {
  }
}
