/**
 * Consistency of the quiz store's tables taken as values: keys match ids, foreign keys
 * resolve, and every id handed out is below its counter; and the facts that the
 * cascade delete and the finalize keep it.
 */
module Invariants {
  import opened Tables
  import opened Queries

  /** The content tables are keyed by their rows' ids, and every question's test exists. */
  ghost predicate ContentValid(tests: map<nat, Test>, questions: map<nat, Question>, options: map<nat, AnswerOption>,
                               classrooms: map<nat, Classroom>, nextQuestionId: nat)
  {
    && (forall k :: k in tests ==> tests[k].id == k)
    && (forall k :: k in questions ==> questions[k].id == k && k < nextQuestionId && questions[k].testId in tests)
    && (forall k :: k in options ==> options[k].id == k)
    && (forall k :: k in classrooms ==> classrooms[k].id == k)
  }

  /** Session keys increase along the table and are below the next key to hand out. */
  ghost predicate SessionsBelow(sessions: seq<Session>, nextSessionId: nat)
  {
    IdsIncreasing(sessions) && forall s :: s in sessions ==> s.id < nextSessionId
  }

  /** The whole store's consistency, over its tables and counters as values. */
  ghost predicate TablesValid(tests: map<nat, Test>, questions: map<nat, Question>, options: map<nat, AnswerOption>,
                              classrooms: map<nat, Classroom>, submissions: seq<Submission>, records: seq<Record>,
                              sessions: seq<Session>, nextQuestionId: nat, nextRecordId: nat, counter: nat,
                              nextSessionId: nat)
  {
    && ContentValid(tests, questions, options, classrooms, nextQuestionId)
    && SubmissionsResolve(submissions, options, questions)
    && ScoresBinary(submissions)
    && RecordsBelow(records, nextRecordId, counter)
    && SessionsBelow(sessions, nextSessionId)
  }

  /**
   * Deleting question `questionId` with its options and submissions, unlinking its
   * records and recounting its test keeps the store consistent.
   */
  lemma CascadeDeleteKeepsValid(tests: map<nat, Test>, questions: map<nat, Question>, options: map<nat, AnswerOption>,
                                classrooms: map<nat, Classroom>, submissions: seq<Submission>, records: seq<Record>,
                                sessions: seq<Session>, nextQuestionId: nat, nextRecordId: nat, counter: nat,
                                nextSessionId: nat, questionId: nat, testId: nat)
    requires TablesValid(tests, questions, options, classrooms, submissions, records, sessions,
                         nextQuestionId, nextRecordId, counter, nextSessionId)
    requires testId in tests
    ensures TablesValid(tests[testId := tests[testId].(totalQuestions := QuestionCount(questions - {questionId}, testId))],
                        questions - {questionId}, WithoutOptionsOf(options, questionId), classrooms,
                        WithoutQuestion(submissions, questionId), NullifyQuestion(records, questionId), sessions,
                        nextQuestionId, nextRecordId, counter, nextSessionId)
  {
    var questions' := questions - {questionId};
    var options' := WithoutOptionsOf(options, questionId);
    var tests' := tests[testId := tests[testId].(totalQuestions := QuestionCount(questions', testId))];
    assert forall k :: k in options' ==> k in options && options'[k] == options[k];
    assert ContentValid(tests', questions', options', classrooms, nextQuestionId);
    var kept := WithoutQuestion(submissions, questionId);
    forall s | s in kept
      ensures Resolves(s, options', questions') && options'[s.selectedOptionId].questionId == s.questionId
    {
      assert s in submissions && s.questionId != questionId;
      assert s.selectedOptionId in options';
    }
    var nulled := NullifyQuestion(records, questionId);
    forall r | r in nulled
      ensures r.id < nextRecordId && r.groupId <= counter
    {
      var k :| 0 <= k < |nulled| && nulled[k] == r;
      assert records[k] in records;
    }
  }

  /** Appending the records of one finalize, in the current group, keeps the store consistent. */
  lemma FinalizeKeepsValid(tests: map<nat, Test>, questions: map<nat, Question>, options: map<nat, AnswerOption>,
                           classrooms: map<nat, Classroom>, submissions: seq<Submission>, records: seq<Record>,
                           sessions: seq<Session>, nextQuestionId: nat, nextRecordId: nat, counter: nat,
                           nextSessionId: nat, pending: seq<Submission>, user: nat, testId: nat, sessionId: nat)
    requires TablesValid(tests, questions, options, classrooms, submissions, records, sessions,
                         nextQuestionId, nextRecordId, counter, nextSessionId)
    requires forall s :: s in pending ==> s in submissions
    ensures TablesValid(tests, questions, options, classrooms, submissions,
                        records + FinalizeRecords(pending, options, questions, nextRecordId, user, testId, counter, sessionId),
                        sessions, nextQuestionId, nextRecordId + |pending| + 1, counter, nextSessionId)
  {
    FinalizeRecordsBelow(records, pending, options, questions, nextRecordId, user, testId, counter, sessionId);
  }
}
